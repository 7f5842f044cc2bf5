/** The cursor is only a shortcut: in every reachable state the rounds below it are settled for good,
    and a pass from it does what a pass from round 1 would (keeper/keeper.go). */
module KeeperCursor {
  import opened FixedPoint
  import opened Ledger
  import opened Feed
  import opened Strike
  import opened KeeperRules
  import opened KeeperDesk

  // ---- The contract, as the keeper may rely on it ------------------------------------------------

  predicate StatusReaches(s: Status, t: Status) {
    match s
    case NoRound => true
    case Open => !t.NoRound?
    case Locked => !t.NoRound? && !t.Open?
    case _ => s == t
  }

  /** A round keeps its times and only moves forward; settled is for good. */
  predicate Becomes(a: Round, b: Round) {
    && a.openTime == b.openTime && a.lockTime == b.lockTime && a.closeTime == b.closeTime
    && StatusReaches(a.status, b.status)
  }

  /** Rounds are only added, round i + 1 at index i. */
  predicate Evolves(before: seq<Round>, after: seq<Round>) {
    |before| <= |after| && forall i :: 0 <= i < |before| ==> Becomes(before[i], after[i])
  }

  predicate ReadOf(w: World, before: seq<Round>, after: seq<Round>, id: nat)
    requires 1 <= id <= |after|
  {
    w.roundAt(id).Ok? ==>
      && Becomes(w.roundAt(id).value, after[id - 1])
      && (id <= |before| ==> Becomes(before[id - 1], w.roundAt(id).value))
  }

  /** Each answer is of some moment between the two. */
  ghost predicate Serves(w: World, before: seq<Round>, after: seq<Round>) {
    && Evolves(before, after)
    && (w.count.Ok? ==> |before| <= w.count.value <= |after|)
    && forall id: nat :: 1 <= id <= |after| ==> ReadOf(w, before, after, id)
  }

  // ---- What a reachable desk satisfies -------------------------------------------------------------

  predicate RoundAction(a: Action) {
    a.LockIt? || a.ResolveIt? || a.VoidUnlocked? || a.RefundUnsettled?
  }

  /** Bookkeeping is kept only for the opening and for rounds from the cursor up. */
  predicate Tidy(d: Desk, a: Address) {
    && d.cursor != 1
    && (forall k :: k in d.retry ==>
          k.market == a && (k == Key(a, 0, OpenNext) || (k.round >= Start(d) && RoundAction(k.action))))
    && (forall k :: k in d.searched ==> k == Key(a, k.round, SearchFeed) && k.round >= Start(d))
  }

  predicate Sound(d: Desk, a: Address, rounds: seq<Round>) {
    && Tidy(d, a)
    && Start(d) <= |rounds| + 1
    && forall i :: 0 <= i < Start(d) - 1 ==> Terminal(rounds[i])
  }

  lemma SoundLater(d: Desk, a: Address, before: seq<Round>, after: seq<Round>)
    requires Sound(d, a, before) && Evolves(before, after)
    ensures Sound(d, a, after)
  {}

  lemma SendIsTidy(d: Desk, t: Terms, w: World, key: Key, tx: Tx, a: Address)
    requires Tidy(d, a) && key.market == a
    requires key == Key(a, 0, OpenNext) || (key.round >= Start(d) && RoundAction(key.action))
    ensures
      var e := Send(d, t, w, key, tx).desk;
      Tidy(e, a) && e == d.(retry := e.retry)
  {}

  lemma SearchIsTidy(d: Desk, w: World, m: Market, id: nat, closeTime: nat)
    requires Tidy(d, m.address) && Start(d) <= id
    ensures
      var e := FindSettlement(d, w, m, id, closeTime).desk;
      Tidy(e, m.address) && e == d.(searched := e.searched)
  {
    hide CloseRoundFrom, Vetted;
  }

  lemma SettleIsLocal(d: Desk, t: Terms, w: World, m: Market, id: nat, r: Round, a: Action)
    requires Tidy(d, m.address) && Start(d) <= id
    ensures
      var e := Settle(d, t, w, m, id, r, a).desk;
      && Tidy(e, m.address)
      && e == d.(retry := e.retry, searched := e.searched)
  {
    hide Send, FindSettlement, Tidy;
    SearchIsTidy(d, w, m, id, r.closeTime);
    var found := FindSettlement(d, w, m, id, r.closeTime);
    SendIsTidy(found.desk, t, w, Key(m.address, id, RefundUnsettled), VoidUnsettledTx(id), m.address);
    if found.answer.Ok? && found.answer.value.Some? {
      SendIsTidy(found.desk, t, w, Key(m.address, id, ResolveIt), ResolveTx(id, found.answer.value.value), m.address);
    }
  }

  /** Acting on one round leaves bookkeeping for that round only. */
  lemma DriveRoundIsLocal(d: Desk, t: Terms, w: World, m: Market, id: nat, r: Round, now: nat)
    requires Tidy(d, m.address) && Start(d) <= id
    ensures
      var e := DriveRound(d, t, w, m, id, r, now).desk;
      && Tidy(e, m.address)
      && e == d.(retry := e.retry, searched := e.searched)
  {
    hide Send, Settle, Tidy, Ready, ActionFor;
    SendIsTidy(d, t, w, Key(m.address, id, LockIt), LockTx(id), m.address);
    SendIsTidy(d, t, w, Key(m.address, id, VoidUnlocked), VoidUnlockedTx(id), m.address);
    SettleIsLocal(d, t, w, m, id, r, ActionFor(r, m.timing, now));
  }

  lemma OpeningIsLocal(d: Desk, t: Terms, w: World, m: Market, now: nat)
    requires Tidy(d, m.address)
    ensures
      var e := OpenRound(d, t, w, m, now).desk;
      && Tidy(e, m.address)
      && e == d.(notOwner := e.notOwner, refusal := e.refusal, retry := e.retry)
  {
    hide Send, Ready, SchedulePlan, ScheduleProblem, StrikeFor, NextSchedule, Tidy;
    var mine := d.(notOwner := false);
    TidyAlike(d, d.(notOwner := true), m.address);
    TidyAlike(d, mine, m.address);
    TidyAlike(d, mine.(refusal := None), m.address);
    if w.opening.gate.Ok? && w.opening.gate.value.Refused? {
      TidyAlike(d, mine.(refusal := Some(w.opening.gate.value.code)), m.address);
    }
    var o := OpenRound(d, t, w, m, now);
    if |o.sent| == 1 {
      SendIsTidy(mine.(refusal := None), t, w, Key(m.address, 0, OpenNext), o.sent[0].tx, m.address);
    }
    SentOne(mine.(refusal := None), t, w, Key(m.address, 0, OpenNext));
  }

  lemma SentOne(d: Desk, t: Terms, w: World, key: Key)
    ensures forall tx :: |Send(d, t, w, key, tx).sent| == 1 && Send(d, t, w, key, tx).sent[0].tx == tx
  {}

  lemma TidyAlike(d: Desk, e: Desk, a: Address)
    requires Tidy(d, a)
      && d == e.(pending := d.pending, retiring := d.retiring, notOwner := d.notOwner, refusal := d.refusal)
    ensures Tidy(e, a)
  {}

  lemma PassedIsSound(d: Desk, a: Address, rounds: seq<Round>, id: nat)
    requires Sound(d, a, rounds) && Start(d) == id <= |rounds| && Terminal(rounds[id - 1])
    ensures Sound(Passed(d, a, id), a, rounds)
  {}

  lemma {:induction false} ScanKeepsSound(s: Scan, t: Terms, w: World, m: Market, now: nat, id: nat, count: nat,
                                          before: seq<Round>, after: seq<Round>)
    requires Serves(w, before, after) && 1 <= id && count <= |after|
    requires Sound(s.desk, m.address, after) && Start(s.desk) <= id && (s.advance ==> Start(s.desk) == id)
    ensures
      var e := ScanFrom(s, t, w, m, now, id, count);
      Sound(e.desk, m.address, after) && e.desk.pending == s.desk.pending && e.desk.retiring == s.desk.retiring
    decreases count + 1 - id
  {
    hide Serves, Sound, Evolves, DriveRound, Tidy;
    if id <= count && w.roundAt(id).Ok? {
      var r := w.roundAt(id).value;
      var latest := if id == count then r else s.latest;
      if Terminal(r) {
        var desk := if s.advance then Passed(s.desk, m.address, id) else s.desk;
        if s.advance {
          ReadTerminal(w, before, after, id);
          PassedIsSound(s.desk, m.address, after, id);
        }
        ScanKeepsSound(s.(desk := desk, latest := latest), t, w, m, now, id + 1, count, before, after);
      } else {
        var one := DriveRound(s.desk, t, w, m, id, r, now);
        DrivenIsSound(s.desk, t, w, m, id, r, now, after);
        ScanKeepsSound(Scan(one.desk, s.sent + one.sent, latest, false, s.complete), t, w, m, now, id + 1, count,
                       before, after);
      }
    }
  }

  lemma ReadTerminal(w: World, before: seq<Round>, after: seq<Round>, id: nat)
    requires Serves(w, before, after) && 1 <= id <= |after| && w.roundAt(id).Ok? && Terminal(w.roundAt(id).value)
    ensures Terminal(after[id - 1])
  {
    assert ReadOf(w, before, after, id);
  }

  lemma DrivenIsSound(d: Desk, t: Terms, w: World, m: Market, id: nat, r: Round, now: nat, rounds: seq<Round>)
    requires Sound(d, m.address, rounds) && Start(d) <= id
    ensures
      var e := DriveRound(d, t, w, m, id, r, now).desk;
      && Sound(e, m.address, rounds) && Start(e) == Start(d)
      && e.pending == d.pending && e.retiring == d.retiring
  {
    hide DriveRound, Tidy;
    DriveRoundIsLocal(d, t, w, m, id, r, now);
  }

  /** A pass keeps the desk sound, whatever answered and whatever moved meanwhile. */
  lemma PassKeepsSound(d: Desk, t: Terms, w: World, m: Market, now: nat, before: seq<Round>, after: seq<Round>)
    requires Serves(w, before, after) && Sound(d, m.address, before)
    ensures
      var e := Drive(d, t, w, m, now).desk;
      Sound(e, m.address, after) && e.retiring == d.retiring
  {
    hide Serves, ScanFrom, OpenRound, Tidy, Evolves;
    assert Evolves(before, after) by { ServedEvolves(w, before, after); }
    SoundLater(d, m.address, before, after);
    if w.count.Ok? {
      ServedEvolves(w, before, after);
      var start := Scan(d, [], ZERO_ROUND, true, true);
      ScanKeepsSound(start, t, w, m, now, Start(d), w.count.value, before, after);
      var s := ScanFrom(start, t, w, m, now, Start(d), w.count.value);
      var noted := s.desk.(pending := !s.advance);
      assert Sound(noted, m.address, after) by { TidyAlike(s.desk, noted, m.address); }
      OpeningIsLocal(noted, t, w, m, now);
    }
  }

  lemma ServedEvolves(w: World, before: seq<Round>, after: seq<Round>)
    requires Serves(w, before, after)
    ensures Evolves(before, after) && (w.count.Ok? ==> |before| <= w.count.value <= |after|)
  {}

  // ---- The refinement ------------------------------------------------------------------------------

  /** The desk of a scan that has read only settled rounds below id. */
  function Reset(d: Desk, id: nat): Desk {
    d.(cursor := if id <= 1 then 0 else id)
  }

  /** The rounds below id are answered, and settled. */
  predicate SettledBelow(w: World, id: nat) {
    forall i :: 1 <= i < id ==> w.roundAt(i).Ok? && Terminal(w.roundAt(i).value)
  }

  predicate SameButLatest(a: Scan, b: Scan) {
    a == b.(latest := a.latest)
  }

  lemma PassingChangesNothing(d: Desk, a: Address, id: nat)
    requires Tidy(d, a) && 1 <= id < Start(d)
    ensures Passed(Reset(d, id), a, id) == Reset(d, id + 1)
  {}

  lemma {:induction false} PrefixIsSkipped(d: Desk, t: Terms, w: World, m: Market, now: nat, id: nat, count: nat)
    requires Tidy(d, m.address) && SettledBelow(w, Start(d)) && 1 <= id <= Start(d) <= count + 1
    ensures
      var slow := ScanFrom(Scan(Reset(d, id), [], ZERO_ROUND, true, true), t, w, m, now, id, count);
      var fast := ScanFrom(Scan(Reset(d, Start(d)), [], ZERO_ROUND, true, true), t, w, m, now, Start(d), count);
      slow == fast || (SameButLatest(slow, fast) && Terminal(slow.latest) && fast.latest == ZERO_ROUND)
    decreases Start(d) - id
  {
    hide DriveRound, Tidy, Reset, Passed;
    if id < Start(d) {
      PassingChangesNothing(d, m.address, id);
      if id < count {
        PrefixIsSkipped(d, t, w, m, now, id + 1, count);
      }
    }
  }

  /** From the cursor or from round 1, a pass sends the same transactions in the same order, leaves the
      same desk, and decides alike whether to open a round. When the loop never runs `latest` is the
      zero round, which asks for a new one just as the settled round it stands for would. */
  lemma CursorIsAShortcut(d: Desk, t: Terms, w: World, m: Market, now: nat)
    requires Tidy(d, m.address) && SettledBelow(w, Start(d))
    requires w.count.Ok? && Start(d) <= w.count.value + 1
    ensures Drive(d, t, w, m, now) == Drive(d.(cursor := 0), t, w, m, now)
  {
    hide ScanFrom, OpenRound, Tidy;
    PrefixIsSkipped(d, t, w, m, now, 1, w.count.value);
    assert Reset(d, Start(d)) == d by { CursorIsNotOne(d, m.address); }
  }

  lemma CursorIsNotOne(d: Desk, a: Address)
    requires Tidy(d, a)
    ensures d.cursor != 1
  {}

  /** On a chain that never loses a round, a sound desk meets those conditions whenever the extra reads
      of the scan from 1 are answered. */
  lemma SoundDesksMayUseTheCursor(d: Desk, t: Terms, w: World, m: Market, now: nat, before: seq<Round>,
                                  after: seq<Round>)
    requires Serves(w, before, after) && Sound(d, m.address, before) && w.count.Ok?
    requires forall id :: 1 <= id < Start(d) ==> w.roundAt(id).Ok?
    ensures Drive(d, t, w, m, now) == Drive(d.(cursor := 0), t, w, m, now)
  {
    hide Drive, Tidy;
    forall id: nat | 1 <= id < Start(d) ensures Terminal(w.roundAt(id).value) {
      assert ReadOf(w, before, after, id);
      assert Terminal(before[id - 1]);
    }
    CursorIsAShortcut(d, t, w, m, now);
  }

  // ---- What a pass reports -------------------------------------------------------------------------

  predicate Answered(w: World, from: nat, count: nat) {
    forall i :: from <= i <= count ==> w.roundAt(i).Ok?
  }

  predicate Settled(w: World, i: nat) {
    w.roundAt(i).Ok? && Terminal(w.roundAt(i).value)
  }

  predicate AllSettled(w: World, from: nat, count: nat) {
    forall i :: from <= i <= count ==> Settled(w, i)
  }

  lemma DriveRoundKeepsTheRest(d: Desk, t: Terms, w: World, m: Market, id: nat, r: Round, now: nat)
    ensures
      var e := DriveRound(d, t, w, m, id, r, now).desk;
      e == d.(retry := e.retry, searched := e.searched)
  {
    hide Send, Ready, ActionFor, FindSettlement;
    SearchKeepsTheRest(d, w, m, id, r.closeTime);
    var found := FindSettlement(d, w, m, id, r.closeTime);
    SendKeepsTheRest(d, t, w, Key(m.address, id, LockIt), LockTx(id));
    SendKeepsTheRest(d, t, w, Key(m.address, id, VoidUnlocked), VoidUnlockedTx(id));
    SendKeepsTheRest(found.desk, t, w, Key(m.address, id, RefundUnsettled), VoidUnsettledTx(id));
    if found.answer.Ok? && found.answer.value.Some? {
      SendKeepsTheRest(found.desk, t, w, Key(m.address, id, ResolveIt), ResolveTx(id, found.answer.value.value));
    }
  }

  lemma SendKeepsTheRest(d: Desk, t: Terms, w: World, key: Key, tx: Tx)
    ensures Send(d, t, w, key, tx).desk == d.(retry := Send(d, t, w, key, tx).desk.retry)
  {}

  lemma SearchKeepsTheRest(d: Desk, w: World, m: Market, id: nat, closeTime: nat)
    ensures
      var e := FindSettlement(d, w, m, id, closeTime).desk;
      e == d.(searched := e.searched)
  {}

  /** The cursor ends on the first round not read as settled, or past the last. */
  predicate StopsAt(w: World, from: nat, stop: nat, count: nat) {
    && from <= stop <= count + 1
    && (forall i :: from <= i < stop ==> Settled(w, i))
    && (stop <= count ==> !Settled(w, stop))
  }

  lemma {:induction false} ScanReport(s: Scan, t: Terms, w: World, m: Market, now: nat, id: nat, count: nat)
    requires 1 <= id <= count + 1 && (s.advance ==> Start(s.desk) == id)
    ensures
      var e := ScanFrom(s, t, w, m, now, id, count);
      && (e.complete <==> s.complete && Answered(w, id, count))
      && (Answered(w, id, count) ==> (e.advance <==> s.advance && AllSettled(w, id, count)))
      && (if s.advance then StopsAt(w, id, Start(e.desk), count) else Start(e.desk) == Start(s.desk))
      && e.desk.pending == s.desk.pending && e.desk.retiring == s.desk.retiring
    decreases count + 1 - id
  {
    hide DriveRound;
    if id <= count && w.roundAt(id).Ok? {
      var r := w.roundAt(id).value;
      var latest := if id == count then r else s.latest;
      if Terminal(r) {
        var desk := if s.advance then Passed(s.desk, m.address, id) else s.desk;
        ScanReport(s.(desk := desk, latest := latest), t, w, m, now, id + 1, count);
      } else {
        assert !Settled(w, id);
        DriveRoundKeepsTheRest(s.desk, t, w, m, id, r, now);
        var one := DriveRound(s.desk, t, w, m, id, r, now);
        ScanReport(Scan(one.desk, s.sent + one.sent, latest, false, s.complete), t, w, m, now, id + 1, count);
      }
    }
  }

  /** Every round counted by a pass was read; the pass got to its end. */
  predicate Complete(d: Desk, w: World) {
    w.count.Ok? && Answered(w, Start(d), w.count.value)
  }

  lemma OpeningKeepsTheRest(d: Desk, t: Terms, w: World, m: Market, now: nat)
    ensures
      var e := OpenRound(d, t, w, m, now).desk;
      e == d.(notOwner := e.notOwner, refusal := e.refusal, retry := e.retry)
  {
    hide SchedulePlan, ScheduleProblem, StrikeFor, NextSchedule;
  }

  /** A pass notes something pending exactly when some round from the cursor up was not settled when it
      was read, and moves the cursor over the settled ones in front; one that could not read a round
      keeps its previous answer. */
  lemma PassReport(d: Desk, t: Terms, w: World, m: Market, now: nat)
    requires w.count.Ok? ==> Start(d) <= w.count.value + 1
    ensures
      var e := Drive(d, t, w, m, now).desk;
      && e.retiring == d.retiring
      && e.pending == (if Complete(d, w) then !AllSettled(w, Start(d), w.count.value) else d.pending)
      && (w.count.Ok? ==> StopsAt(w, Start(d), Start(e), w.count.value))
  {
    hide ScanFrom, OpenRound;
    if w.count.Ok? {
      var start := Scan(d, [], ZERO_ROUND, true, true);
      ScanReport(start, t, w, m, now, Start(d), w.count.value);
      var s := ScanFrom(start, t, w, m, now, Start(d), w.count.value);
      OpeningKeepsTheRest(s.desk.(pending := !s.advance), t, w, m, now);
    }
  }
}
