/** What one pass sends: nothing that is not due, nothing twice, nothing due left out, and a new round
    exactly when one is wanted (keeper/keeper.go, rules.go). */
module KeeperActions {
  import opened FixedPoint
  import opened Ledger
  import opened Feed
  import opened Strike
  import opened KeeperRules
  import opened KeeperDesk
  import opened KeeperCursor
  import Parimutuel

  predicate ReadAs(w: World, m: Market, now: nat, id: nat, a: Action) {
    w.roundAt(id).Ok? && ContractAccepts(w.roundAt(id).value, m.timing, now, a)
  }

  /** The contract takes the transaction, going by the round as it was read; only an owner refunds. */
  predicate Due(tx: Tx, w: World, m: Market, now: nat) {
    match tx
    case LockTx(id) => ReadAs(w, m, now, id, LockIt) && !ReadAs(w, m, now, id, VoidUnlocked)
    case VoidUnlockedTx(id) => ReadAs(w, m, now, id, VoidUnlocked)
    case ResolveTx(id, _) => ReadAs(w, m, now, id, ResolveIt)
    case VoidUnsettledTx(id) => ReadAs(w, m, now, id, RefundUnsettled) && w.owned(id) == Result.Ok(true)
    case OpenTx(_, _) => false
  }

  function RoundIn(tx: Tx): nat {
    if tx.OpenTx? then 0 else tx.round
  }

  /** Due transactions for rounds below id, at most one each, in rising order. */
  predicate DueBelow(sent: seq<Sent>, w: World, m: Market, now: nat, id: nat) {
    && (forall i :: 0 <= i < |sent| ==> Due(sent[i].tx, w, m, now) && RoundIn(sent[i].tx) < id)
    && (forall i, j :: 0 <= i < j < |sent| ==> RoundIn(sent[i].tx) < RoundIn(sent[j].tx))
  }

  lemma RoundActsWhenDue(d: Desk, t: Terms, w: World, m: Market, id: nat, r: Round, now: nat)
    requires w.roundAt(id) == Result.Ok(r)
    ensures
      var sent := DriveRound(d, t, w, m, id, r, now).sent;
      |sent| <= 1 && forall i :: 0 <= i < |sent| ==> Due(sent[i].tx, w, m, now) && RoundIn(sent[i].tx) == id
  {}

  lemma {:induction false} ScanActsWhenDue(s: Scan, t: Terms, w: World, m: Market, now: nat, id: nat, count: nat)
    requires DueBelow(s.sent, w, m, now, id)
    ensures DueBelow(ScanFrom(s, t, w, m, now, id, count).sent, w, m, now, if id <= count then count + 1 else id)
    decreases count + 1 - id
  {
    hide DriveRound, Due;
    if id <= count && w.roundAt(id).Err? { assert DueBelow(s.sent, w, m, now, count + 1); }
    if id <= count && w.roundAt(id).Ok? {
      var r := w.roundAt(id).value;
      var latest := if id == count then r else s.latest;
      if Terminal(r) {
        var desk := if s.advance then Passed(s.desk, m.address, id) else s.desk;
        ScanActsWhenDue(s.(desk := desk, latest := latest), t, w, m, now, id + 1, count);
      } else {
        var one := DriveRound(s.desk, t, w, m, id, r, now);
        RoundActsWhenDue(s.desk, t, w, m, id, r, now);
        ScanActsWhenDue(Scan(one.desk, s.sent + one.sent, latest, false, s.complete), t, w, m, now, id + 1, count);
      }
    }
  }

  // ---- Nothing left out --------------------------------------------------------------------------

  function TxFor(a: Action, id: nat): Tx
    requires a.LockIt? || a.VoidUnlocked?
  {
    if a.LockIt? then LockTx(id) else VoidUnlockedTx(id)
  }

  predicate IsSent(sent: seq<Sent>, tx: Tx) {
    exists i :: 0 <= i < |sent| && sent[i].tx == tx
  }

  lemma SendKeepsOthers(d: Desk, t: Terms, w: World, key: Key, tx: Tx, other: Key)
    requires key != other
    ensures Ready(Send(d, t, w, key, tx).desk, other, w.wall) == Ready(d, other, w.wall)
  {}

  lemma OtherBackoffsStay(d: Desk, t: Terms, w: World, m: Market, id: nat, r: Round, now: nat, key: Key)
    requires key.round != id
    ensures
      var e := DriveRound(d, t, w, m, id, r, now).desk;
      Ready(e, key, w.wall) == Ready(d, key, w.wall)
  {
    SearchKeepsTheRest(d, w, m, id, r.closeTime);
    hide FindSettlement, ActionFor, Send;
    var found := FindSettlement(d, w, m, id, r.closeTime);
    SendKeepsOthers(d, t, w, Key(m.address, id, LockIt), LockTx(id), key);
    SendKeepsOthers(d, t, w, Key(m.address, id, VoidUnlocked), VoidUnlockedTx(id), key);
    SendKeepsOthers(found.desk, t, w, Key(m.address, id, RefundUnsettled), VoidUnsettledTx(id), key);
    if found.answer.Ok? && found.answer.value.Some? {
      SendKeepsOthers(found.desk, t, w, Key(m.address, id, ResolveIt), ResolveTx(id, found.answer.value.value), key);
    }
  }

  /** A round that is to be locked or voided, and is off backoff, gets its transaction in every pass that
      reaches it, whatever became of the rounds before it. */
  lemma {:induction false} ScanMissesNothing(s: Scan, t: Terms, w: World, m: Market, now: nat, id: nat, count: nat,
                                             target: nat)
    requires id <= target <= count && Answered(w, id, target)
    requires
      var a := ActionFor(w.roundAt(target).value, m.timing, now);
      (a.LockIt? || a.VoidUnlocked?) && Ready(s.desk, Key(m.address, target, a), w.wall)
    ensures
      var a := ActionFor(w.roundAt(target).value, m.timing, now);
      IsSent(ScanFrom(s, t, w, m, now, id, count).sent, TxFor(a, target))
    decreases target - id
  {
    hide DriveRound;
    var a := ActionFor(w.roundAt(target).value, m.timing, now);
    var key := Key(m.address, target, a);
    var r := w.roundAt(id).value;
    var latest := if id == count then r else s.latest;
    if id == target {
      DueIsSent(s.desk, t, w, m, id, r, now);
      var one := DriveRound(s.desk, t, w, m, id, r, now);
      var after := Scan(one.desk, s.sent + one.sent, latest, false, s.complete);
      ScanOnlyAdds(after, t, w, m, now, id + 1, count);
      assert after.sent[|s.sent|] == one.sent[0];
    } else if Terminal(r) {
      var desk := if s.advance then Passed(s.desk, m.address, id) else s.desk;
      assert Ready(desk, key, w.wall);
      ScanMissesNothing(s.(desk := desk, latest := latest), t, w, m, now, id + 1, count, target);
    } else {
      var one := DriveRound(s.desk, t, w, m, id, r, now);
      OtherBackoffsStay(s.desk, t, w, m, id, r, now, key);
      ScanMissesNothing(Scan(one.desk, s.sent + one.sent, latest, false, s.complete), t, w, m, now, id + 1, count,
                        target);
    }
  }

  lemma DueIsSent(d: Desk, t: Terms, w: World, m: Market, id: nat, r: Round, now: nat)
    requires
      var a := ActionFor(r, m.timing, now);
      (a.LockIt? || a.VoidUnlocked?) && Ready(d, Key(m.address, id, a), w.wall)
    ensures
      var sent := DriveRound(d, t, w, m, id, r, now).sent;
      |sent| == 1 && sent[0].tx == TxFor(ActionFor(r, m.timing, now), id)
  {}

  lemma {:induction false} ScanOnlyAdds(s: Scan, t: Terms, w: World, m: Market, now: nat, id: nat, count: nat)
    ensures s.sent <= ScanFrom(s, t, w, m, now, id, count).sent
    decreases count + 1 - id
  {
    hide DriveRound;
    if id <= count && w.roundAt(id).Ok? {
      var r := w.roundAt(id).value;
      var latest := if id == count then r else s.latest;
      if Terminal(r) {
        var desk := if s.advance then Passed(s.desk, m.address, id) else s.desk;
        ScanOnlyAdds(s.(desk := desk, latest := latest), t, w, m, now, id + 1, count);
      } else {
        var one := DriveRound(s.desk, t, w, m, id, r, now);
        ScanOnlyAdds(Scan(one.desk, s.sent + one.sent, latest, false, s.complete), t, w, m, now, id + 1, count);
      }
    }
  }

  // ---- Opening -----------------------------------------------------------------------------------

  /** The newest round takes entries, going by how it was read: below the cursor it is settled. */
  predicate NewestTakesEntries(d: Desk, w: World, m: Market, now: nat) {
    && w.count.Ok? && Start(d) <= w.count.value
    && w.roundAt(w.count.value).Ok? && TakesEntries(w.roundAt(w.count.value).value, m.timing.entryCutoff, now)
  }

  /** The schedule runs the market's own horizon from the lead on, half of it or the configured time open for
      entries, and the contract takes it. */
  predicate ScheduleFits(s: Schedule, t: Terms, w: World, m: Market, now: nat) {
    var horizon := if w.opening.horizon == 0 then t.cfg.horizon else w.opening.horizon;
    && s.openTime == now + t.cfg.lead
    && s.lockTime == s.openTime + (if t.cfg.entryWindow == 0 then horizon / 2 else t.cfg.entryWindow)
    && s.closeTime == s.openTime + horizon
    && s.openTime + m.timing.entryCutoff < s.lockTime < s.closeTime
  }

  predicate StrikeFits(strike: Option<nat>, w: World, m: Market) {
    if m.strikeAtOpen then
      && w.opening.spot.Ok? && w.opening.spot.value.Some?
      && strike.Some? && strike == StrikeFor(w.opening.spot.value.value)
    else strike.None?
  }

  /** Everything that has to be so for a round to be opened. */
  predicate OpeningIsDue(d: Desk, t: Terms, w: World, m: Market, now: nat) {
    && t.cfg.openRounds && !d.retiring && !m.event && Complete(d, w)
    && !NewestTakesEntries(d, w, m, now)
    && w.owned(0) == Result.Ok(true) && w.opening.gate == Result.Ok(Allowed)
    && SchedulePlan(m, w.opening.horizon, t.cfg).Planned?
    && (m.strikeAtOpen ==> w.opening.spot.Ok? && w.opening.spot.value.Some? && w.opening.spot.value.value > 0)
  }

  lemma {:induction false} ScanLatest(s: Scan, t: Terms, w: World, m: Market, now: nat, id: nat, count: nat)
    requires Answered(w, id, count)
    ensures ScanFrom(s, t, w, m, now, id, count).latest == if id <= count then w.roundAt(count).value else s.latest
    decreases count + 1 - id
  {
    hide DriveRound;
    if id <= count {
      var r := w.roundAt(id).value;
      var latest := if id == count then r else s.latest;
      if Terminal(r) {
        var desk := if s.advance then Passed(s.desk, m.address, id) else s.desk;
        ScanLatest(s.(desk := desk, latest := latest), t, w, m, now, id + 1, count);
      } else {
        var one := DriveRound(s.desk, t, w, m, id, r, now);
        ScanLatest(Scan(one.desk, s.sent + one.sent, latest, false, s.complete), t, w, m, now, id + 1, count);
      }
    }
  }

  lemma OpenRoundOpens(d: Desk, t: Terms, w: World, m: Market, now: nat)
    ensures
      var sent := OpenRound(d, t, w, m, now).sent;
      && |sent| <= 1
      && (|sent| == 1 ==>
            && sent[0].tx.OpenTx? && ScheduleFits(sent[0].tx.schedule, t, w, m, now)
            && StrikeFits(sent[0].tx.strike, w, m)
            && w.owned(0) == Result.Ok(true) && w.opening.gate == Result.Ok(Allowed)
            && SchedulePlan(m, w.opening.horizon, t.cfg).Planned?
            && (m.strikeAtOpen ==> w.opening.spot.value.value > 0))
      && (w.owned(0) == Result.Ok(true) && w.opening.gate == Result.Ok(Allowed)
          && SchedulePlan(m, w.opening.horizon, t.cfg).Planned?
          && Ready(d, Key(m.address, 0, OpenNext), w.wall)
          && (m.strikeAtOpen ==> w.opening.spot.Ok? && w.opening.spot.value.Some? && w.opening.spot.value.value > 0)
          ==> |sent| == 1)
  {
    hide Failed, StrikeStep, RoundTo;
  }

  /** Above every round a pass can have read. */
  function Bound(d: Desk, w: World): nat {
    if w.count.Ok? && Start(d) <= w.count.value then w.count.value + 1 else Start(d)
  }

  /** All of the transactions but a last one that opens a round. */
  function RoundTxs(sent: seq<Sent>): seq<Sent> {
    if sent != [] && sent[|sent| - 1].tx.OpenTx? then sent[..|sent| - 1] else sent
  }

  /** A pass sends due transactions, at most one a round and in rising order, and after them a new round
      only when the newest takes no entries and everything else allows it. */
  lemma PassSendsWhatIsDue(d: Desk, t: Terms, w: World, m: Market, now: nat)
    ensures
      var sent := Drive(d, t, w, m, now).sent;
      && DueBelow(RoundTxs(sent), w, m, now, Bound(d, w))
      && (RoundTxs(sent) != sent ==>
            var tx := sent[|sent| - 1].tx;
            OpeningIsDue(d, t, w, m, now) && ScheduleFits(tx.schedule, t, w, m, now) && StrikeFits(tx.strike, w, m))
  {
    hide ScanFrom, OpenRound, ScheduleFits, SchedulePlan, DueBelow;
    NothingIsDue(w, m, now, Start(d));
    if w.count.Ok? {
      var start := Scan(d, [], ZERO_ROUND, true, true);
      ScanActsWhenDue(start, t, w, m, now, Start(d), w.count.value);
      var s := ScanFrom(start, t, w, m, now, Start(d), w.count.value);
      ScanTells(start, t, w, m, now, Start(d), w.count.value);
      var noted := s.desk.(pending := !s.advance);
      OpenRoundOpens(noted, t, w, m, now);
      if s.complete { ScanLatest(start, t, w, m, now, Start(d), w.count.value); }
      OpeningLast(s.sent, OpenRound(noted, t, w, m, now).sent, w, m, now, Bound(d, w));
    }
  }

  lemma NothingIsDue(w: World, m: Market, now: nat, id: nat)
    ensures DueBelow([], w, m, now, id)
  {}

  lemma OpeningLast(acts: seq<Sent>, newest: seq<Sent>, w: World, m: Market, now: nat, bound: nat)
    requires DueBelow(acts, w, m, now, bound)
    requires |newest| <= 1 && (|newest| == 1 ==> newest[0].tx.OpenTx?)
    ensures RoundTxs(acts) == acts && RoundTxs(acts + newest) == acts
    ensures RoundTxs(acts + newest) != acts + newest ==>
      |newest| == 1 && (acts + newest)[|acts + newest| - 1] == newest[0]
  {}

  lemma {:induction false} ScanTells(s: Scan, t: Terms, w: World, m: Market, now: nat, id: nat, count: nat)
    ensures
      var e := ScanFrom(s, t, w, m, now, id, count);
      (e.complete <==> s.complete && Answered(w, id, count)) && e.desk.retiring == s.desk.retiring
    decreases count + 1 - id
  {
    hide DriveRound;
    if id <= count && w.roundAt(id).Ok? {
      var r := w.roundAt(id).value;
      var latest := if id == count then r else s.latest;
      if Terminal(r) {
        var desk := if s.advance then Passed(s.desk, m.address, id) else s.desk;
        ScanTells(s.(desk := desk, latest := latest), t, w, m, now, id + 1, count);
      } else {
        DriveRoundKeepsTheRest(s.desk, t, w, m, id, r, now);
        var one := DriveRound(s.desk, t, w, m, id, r, now);
        ScanTells(Scan(one.desk, s.sent + one.sent, latest, false, s.complete), t, w, m, now, id + 1, count);
      }
    }
  }

  /** And when everything is due, and opening is off backoff, it does open one. */
  lemma OpeningIsNotMissed(d: Desk, t: Terms, w: World, m: Market, now: nat)
    requires OpeningIsDue(d, t, w, m, now)
    requires Ready(ScanFrom(Scan(d, [], ZERO_ROUND, true, true), t, w, m, now, Start(d), w.count.value).desk,
                   Key(m.address, 0, OpenNext), w.wall)
    ensures
      var sent := Drive(d, t, w, m, now).sent;
      |sent| > 0 && sent[|sent| - 1].tx.OpenTx?
  {
    hide ScanFrom, OpenRound, ScheduleFits, StrikeFits, SchedulePlan;
    var start := Scan(d, [], ZERO_ROUND, true, true);
    ScanTells(start, t, w, m, now, Start(d), w.count.value);
    ScanLatest(start, t, w, m, now, Start(d), w.count.value);
    var s := ScanFrom(start, t, w, m, now, Start(d), w.count.value);
    OpenRoundOpens(s.desk.(pending := !s.advance), t, w, m, now);
  }

  /** A pass that sets out to open a round leaves the reason when it does not: whether somebody else owns the
      market, and what the gate refused for, if it did. */
  lemma AnUnopenedRoundHasItsReason(d: Desk, t: Terms, w: World, m: Market, now: nat)
    requires t.cfg.openRounds && !d.retiring && !m.event && Complete(d, w) && !NewestTakesEntries(d, w, m, now)
    requires w.owned(0).Ok?
    ensures
      var e := Drive(d, t, w, m, now).desk;
      && (e.notOwner <==> !w.owned(0).value)
      && (!e.notOwner && SchedulePlan(m, w.opening.horizon, t.cfg).Planned? && w.opening.gate.Ok? ==>
            e.refusal == match w.opening.gate.value case Allowed => None case Refused(code) => Some(code))
  {
    hide ScanFrom, ScheduleFits, StrikeFits, Send;
    var start := Scan(d, [], ZERO_ROUND, true, true);
    ScanTells(start, t, w, m, now, Start(d), w.count.value);
    ScanLatest(start, t, w, m, now, Start(d), w.count.value);
    var s := ScanFrom(start, t, w, m, now, Start(d), w.count.value);
    OpeningNotes(s.desk.(pending := !s.advance), t, w, m, now);
  }

  lemma OpeningNotes(d: Desk, t: Terms, w: World, m: Market, now: nat)
    requires w.owned(0).Ok?
    ensures
      var e := OpenRound(d, t, w, m, now).desk;
      && (e.notOwner <==> !w.owned(0).value)
      && (!e.notOwner && SchedulePlan(m, w.opening.horizon, t.cfg).Planned? && w.opening.gate.Ok? ==>
            e.refusal == match w.opening.gate.value case Allowed => None case Refused(code) => Some(code))
  {
    hide Failed, StrikeFor;
  }

  // ---- Backoff -----------------------------------------------------------------------------------

  /** The delay starts at the poll interval, doubles with each of the next eight failures, and never passes
      the limit or falls. */
  lemma BackoffGrowsToItsLimit(t: Terms, failures: nat)
    requires failures > 0
    ensures Delay(t, 1) == if t.cfg.pollInterval < t.maxBackoff then t.cfg.pollInterval else t.maxBackoff
    ensures Delay(t, failures) <= Delay(t, failures + 1) <= t.maxBackoff
    ensures failures < 9 ==>
      Delay(t, failures + 1) == if 2 * Delay(t, failures) < t.maxBackoff then 2 * Delay(t, failures) else t.maxBackoff
  {}

  // ---- The keeper and the screens ------------------------------------------------------------------

  function StoredStatus(s: Status): Parimutuel.Status {
    match s
    case NoRound => Parimutuel.Unset
    case Open => Parimutuel.Open
    case Locked => Parimutuel.Locked
    case Resolved => Parimutuel.Resolved
    case Void => Parimutuel.Void
  }

  function PhaseShown(r: Round, cutoff: nat, now: nat): Parimutuel.Phase {
    Parimutuel.PhaseOf(StoredStatus(r.status), r.openTime, r.lockTime, cutoff, now)
  }

  /** Two packages restate the contract's clock, and agree: once a round's open time has come it is shown
      as open exactly while the keeper sees no need for another; entry is closed whenever a lock or a void
      is proposed; and a settled round is one neither acts on nor shows as running. */
  lemma ScreensAgreeWithTheKeeper(r: Round, t: Timing, now: nat)
    ensures
      var phase, action := PhaseShown(r, t.entryCutoff, now), ActionFor(r, t, now);
      && (phase.PhaseOpen? ==> !NeedsNewRound(r, t.entryCutoff, now))
      && (now >= r.openTime ==> (phase.PhaseOpen? <==> !NeedsNewRound(r, t.entryCutoff, now)))
      && (now < r.openTime ==> !phase.PhaseOpen?)
      && (action.LockIt? || action.VoidUnlocked? ==> phase.PhaseCutoff?)
      && (action.ResolveIt? || action.RefundUnsettled? ==> phase.PhaseObservation?)
      && (phase.PhaseObservation? <==> r.status.Locked?)
      && (phase.PhaseResolved? <==> r.status.Resolved?) && (phase.PhaseVoid? <==> r.status.Void?)
      && (Terminal(r) <==> phase.PhaseResolved? || phase.PhaseVoid?)
      && (Terminal(r) ==> action.NoAction?)
  {}
}
