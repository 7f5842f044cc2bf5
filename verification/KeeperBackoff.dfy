/** How long the keeper waits before it sends again what did not land, told from outside: from the walls at
    which it sent, over whole runs of polls and registry reads (keeper/keeper.go). */
module KeeperBackoff {
  import opened FixedPoint
  import opened Ledger
  import opened Feed
  import opened Strike
  import opened KeeperRules
  import opened KeeperDesk
  import opened KeeperCursor
  import opened KeeperActions
  import opened KeeperRuns

  /** One transaction as seen from outside: when, under which settings, and whether it landed. */
  datatype Try = Try(wall: nat, terms: Terms, landed: bool)

  /** Which action of which round a transaction is. */
  function KeyFor(a: Address, tx: Tx): Key {
    match tx
    case LockTx(id) => Key(a, id, LockIt)
    case VoidUnlockedTx(id) => Key(a, id, VoidUnlocked)
    case ResolveTx(id, _) => Key(a, id, ResolveIt)
    case VoidUnsettledTx(id) => Key(a, id, RefundUnsettled)
    case OpenTx(_, _) => Key(a, 0, OpenNext)
  }

  /** The tries of one action among what a pass sent. */
  function TriesIn(sent: seq<Sent>, t: Terms, wall: nat, key: Key): seq<Try> {
    if sent == [] then []
    else
      var last := sent[|sent| - 1];
      TriesIn(sent[..|sent| - 1], t, wall, key)
      + if KeyFor(key.market, last.tx) == key then [Try(wall, t, last.landed)] else []
  }

  lemma {:induction false} TriesJoin(a: seq<Sent>, b: seq<Sent>, t: Terms, wall: nat, key: Key)
    ensures TriesIn(a + b, t, wall, key) == TriesIn(a, t, wall, key) + TriesIn(b, t, wall, key)
    decreases |b|
  {
    if b == [] {
      assert a + b == a;
    } else {
      assert (a + b)[..|a + b| - 1] == a + b[..|b| - 1];
      TriesJoin(a, b[..|b| - 1], t, wall, key);
    }
  }

  /** How many of the latest tries failed in a row. */
  function Streak(tries: seq<Try>): nat {
    if tries == [] || tries[|tries| - 1].landed then 0 else 1 + Streak(tries[..|tries| - 1])
  }

  function Smaller(a: nat, b: nat): nat {
    if a < b then a else b
  }

  /** Until when the latest failure is waited for: the poll interval, doubled by every failure in a row before
      it, eight times at most, and never more than the limit. */
  function WaitsUntil(tries: seq<Try>): nat
    requires Streak(tries) > 0
  {
    var last := tries[|tries| - 1];
    last.wall + Smaller(last.terms.cfg.pollInterval * Pow2(Smaller(Streak(tries) - 1, 8)), last.terms.maxBackoff)
  }

  predicate Rested(tries: seq<Try>, wall: nat) {
    Streak(tries) == 0 || wall >= WaitsUntil(tries)
  }

  // ---- What the keeper keeps of it ---------------------------------------------------------------------

  /** The keeper's own entry for an action is what its tries say. */
  predicate Agrees(d: Desk, key: Key, tries: seq<Try>) {
    && (key in d.retry <==> Streak(tries) > 0)
    && (key in d.retry ==> d.retry[key] == Attempt(WaitsUntil(tries), Streak(tries)))
  }

  lemma ShiftIsDoubling(n: nat, places: nat)
    ensures Shift(n, places) == n * Pow2(places)
  {}

  lemma SendAgrees(d: Desk, t: Terms, w: World, tx: Tx, key: Key, tries: seq<Try>)
    requires Agrees(d, key, tries)
    ensures
      var o := Send(d, t, w, KeyFor(key.market, tx), tx);
      Agrees(o.desk, key, tries + TriesIn(o.sent, t, w.wall, key))
  {
    var o := Send(d, t, w, KeyFor(key.market, tx), tx);
    assert o.sent[..0] == [];
    if KeyFor(key.market, tx) == key {
      var one := Try(w.wall, t, o.sent[0].landed);
      assert TriesIn(o.sent, t, w.wall, key) == [one];
      assert (tries + [one])[..|tries|] == tries;
      ShiftIsDoubling(t.cfg.pollInterval, Smaller(Streak(tries), 8));
    } else {
      assert tries + [] == tries;
    }
  }

  lemma NothingTried(key: Key, t: Terms, wall: nat, tries: seq<Try>)
    ensures tries + TriesIn([], t, wall, key) == tries
  {}

  lemma RoundAgrees(d: Desk, t: Terms, w: World, m: Market, id: nat, r: Round, now: nat, key: Key, tries: seq<Try>)
    requires Agrees(d, key, tries) && key.market == m.address
    ensures
      var o := DriveRound(d, t, w, m, id, r, now);
      Agrees(o.desk, key, tries + TriesIn(o.sent, t, w.wall, key))
  {
    SearchKeepsTheRest(d, w, m, id, r.closeTime);
    hide FindSettlement, ActionFor, Send, TriesIn, Agrees, Ready;
    var found := FindSettlement(d, w, m, id, r.closeTime);
    SameRetry(d, found.desk, key, tries);
    NothingTried(key, t, w.wall, tries);
    SendAgrees(d, t, w, LockTx(id), key, tries);
    SendAgrees(d, t, w, VoidUnlockedTx(id), key, tries);
    SendAgrees(found.desk, t, w, VoidUnsettledTx(id), key, tries);
    if found.answer.Ok? && found.answer.value.Some? {
      SendAgrees(found.desk, t, w, ResolveTx(id, found.answer.value.value), key, tries);
    }
  }

  lemma SameRetry(d: Desk, e: Desk, key: Key, tries: seq<Try>)
    requires Agrees(d, key, tries) && e.retry == d.retry
    ensures Agrees(e, key, tries)
  {}

  lemma PassingAgrees(d: Desk, a: Address, id: nat, key: Key, tries: seq<Try>)
    requires Agrees(d, key, tries) && key.round != id
    ensures Agrees(Passed(d, a, id), key, tries)
  {}

  /** The cursor never goes back, and a round's own step leaves it alone. */
  lemma {:induction false} ScanGoesOn(s: Scan, t: Terms, w: World, m: Market, now: nat, id: nat, count: nat)
    requires Start(s.desk) <= id
    ensures Start(s.desk) <= Start(ScanFrom(s, t, w, m, now, id, count).desk)
    decreases count + 1 - id
  {
    hide DriveRound;
    if id <= count && w.roundAt(id).Ok? {
      var r := w.roundAt(id).value;
      var latest := if id == count then r else s.latest;
      if Terminal(r) {
        var desk := if s.advance then Passed(s.desk, m.address, id) else s.desk;
        ScanGoesOn(s.(desk := desk, latest := latest), t, w, m, now, id + 1, count);
      } else {
        var one := DriveRound(s.desk, t, w, m, id, r, now);
        DriveRoundKeepsTheRest(s.desk, t, w, m, id, r, now);
        ScanGoesOn(Scan(one.desk, s.sent + one.sent, latest, false, s.complete), t, w, m, now, id + 1, count);
      }
    }
  }

  /** Bookkeeping that is not dropped with a settled round: the opening's, and that of rounds from the cursor
      up. */
  predicate Lasting(key: Key, d: Desk) {
    key.round == 0 || key.round >= Start(d)
  }

  lemma {:induction false} ScanAgrees(s: Scan, t: Terms, w: World, m: Market, now: nat, id: nat, count: nat, key: Key,
                                      tries: seq<Try>)
    requires key.market == m.address && 1 <= id && Start(s.desk) <= id
    requires Agrees(s.desk, key, tries + TriesIn(s.sent, t, w.wall, key))
    requires Lasting(key, ScanFrom(s, t, w, m, now, id, count).desk)
    ensures
      var e := ScanFrom(s, t, w, m, now, id, count);
      Agrees(e.desk, key, tries + TriesIn(e.sent, t, w.wall, key))
    decreases count + 1 - id
  {
    hide DriveRound, Agrees, TriesIn;
    if id <= count && w.roundAt(id).Ok? {
      var r := w.roundAt(id).value;
      var latest := if id == count then r else s.latest;
      if Terminal(r) {
        var desk := if s.advance then Passed(s.desk, m.address, id) else s.desk;
        var next := s.(desk := desk, latest := latest);
        ScanGoesOn(next, t, w, m, now, id + 1, count);
        if s.advance { PassingAgrees(s.desk, m.address, id, key, tries + TriesIn(s.sent, t, w.wall, key)); }
        ScanAgrees(next, t, w, m, now, id + 1, count, key, tries);
      } else {
        var one := DriveRound(s.desk, t, w, m, id, r, now);
        DriveRoundKeepsTheRest(s.desk, t, w, m, id, r, now);
        RoundAgrees(s.desk, t, w, m, id, r, now, key, tries + TriesIn(s.sent, t, w.wall, key));
        TriesJoin(s.sent, one.sent, t, w.wall, key);
        assert tries + TriesIn(s.sent, t, w.wall, key) + TriesIn(one.sent, t, w.wall, key)
            == tries + TriesIn(s.sent + one.sent, t, w.wall, key);
        ScanAgrees(Scan(one.desk, s.sent + one.sent, latest, false, s.complete), t, w, m, now, id + 1, count, key,
                   tries);
      }
    }
  }

  lemma OpeningAgrees(d: Desk, t: Terms, w: World, m: Market, now: nat, key: Key, tries: seq<Try>)
    requires Agrees(d, key, tries) && key.market == m.address
    ensures
      var o := OpenRound(d, t, w, m, now);
      Agrees(o.desk, key, tries + TriesIn(o.sent, t, w.wall, key))
  {
    hide SchedulePlan, ScheduleProblem, NextSchedule, StrikeFor, Send, TriesIn, Agrees, Ready;
    var mine := d.(notOwner := false);
    var cleared := mine.(refusal := None);
    NothingTried(key, t, w.wall, tries);
    SameRetry(d, d.(notOwner := true), key, tries);
    SameRetry(d, mine, key, tries);
    SameRetry(d, cleared, key, tries);
    if w.opening.gate.Ok? && w.opening.gate.value.Refused? {
      SameRetry(d, mine.(refusal := Some(w.opening.gate.value.code)), key, tries);
    }
    var o := OpenRound(d, t, w, m, now);
    if o.sent != [] {
      OpeningIsOneSend(d, t, w, m, now);
      SendAgrees(cleared, t, w, o.sent[0].tx, key, tries);
    } else {
      OpeningUnsent(d, t, w, m, now);
      SameRetry(d, o.desk, key, tries);
    }
  }

  lemma OpeningIsOneSend(d: Desk, t: Terms, w: World, m: Market, now: nat)
    requires OpenRound(d, t, w, m, now).sent != []
    ensures
      var o, cleared := OpenRound(d, t, w, m, now), d.(notOwner := false, refusal := None);
      o.sent[0].tx.OpenTx? && o == Send(cleared, t, w, Key(m.address, 0, OpenNext), o.sent[0].tx)
  {
    hide SchedulePlan, ScheduleProblem, NextSchedule, StrikeFor, Failed, Ready;
  }

  lemma OpeningUnsent(d: Desk, t: Terms, w: World, m: Market, now: nat)
    requires OpenRound(d, t, w, m, now).sent == []
    ensures OpenRound(d, t, w, m, now).desk.retry == d.retry
  {
    hide SchedulePlan, ScheduleProblem, NextSchedule, StrikeFor, Failed, Ready;
  }

  lemma PassAgrees(d: Desk, t: Terms, w: World, m: Market, now: nat, key: Key, tries: seq<Try>)
    requires Agrees(d, key, tries) && key.market == m.address && Lasting(key, Drive(d, t, w, m, now).desk)
    ensures
      var o := Drive(d, t, w, m, now);
      Agrees(o.desk, key, tries + TriesIn(o.sent, t, w.wall, key))
  {
    hide ScanFrom, OpenRound, Agrees, TriesIn;
    NothingTried(key, t, w.wall, tries);
    if w.count.Ok? {
      var start := Scan(d, [], ZERO_ROUND, true, true);
      var s := ScanFrom(start, t, w, m, now, Start(d), w.count.value);
      var noted := s.desk.(pending := !s.advance);
      OpeningKeepsTheRest(noted, t, w, m, now);
      ScanAgrees(start, t, w, m, now, Start(d), w.count.value, key, tries);
      var scanned := tries + TriesIn(s.sent, t, w.wall, key);
      SameRetry(s.desk, noted, key, scanned);
      OpeningAgrees(noted, t, w, m, now, key, scanned);
      var newest := OpenRound(noted, t, w, m, now);
      TriesJoin(s.sent, newest.sent, t, w.wall, key);
      assert scanned + TriesIn(newest.sent, t, w.wall, key) == tries + TriesIn(s.sent + newest.sent, t, w.wall, key);
    }
  }

  // ---- What a pass asks before it sends ----------------------------------------------------------------

  /** The action whose backoff is asked: the one the round needs. A resolve past its deadline is tried in
      place of the refund, and asked about as the refund. */
  function Asked(w: World, m: Market, now: nat, tx: Tx): Key {
    if tx.OpenTx? || w.roundAt(RoundIn(tx)).Err? then KeyFor(m.address, tx)
    else Key(m.address, RoundIn(tx), ActionFor(w.roundAt(RoundIn(tx)).value, m.timing, now))
  }

  predicate PastDeadline(w: World, m: Market, now: nat, id: nat) {
    && w.roundAt(id).Ok? && w.roundAt(id).value.status.Locked?
    && now > w.roundAt(id).value.closeTime + m.timing.resolveDeadline
  }

  predicate AskedAll(sent: seq<Sent>, d: Desk, w: World, m: Market, now: nat, id: nat, count: nat) {
    forall i :: 0 <= i < |sent| ==>
      && id <= RoundIn(sent[i].tx) <= count && !sent[i].tx.OpenTx?
      && Ready(d, Asked(w, m, now, sent[i].tx), w.wall)
      && (Asked(w, m, now, sent[i].tx) != KeyFor(m.address, sent[i].tx) ==>
            sent[i].tx.ResolveTx? && PastDeadline(w, m, now, RoundIn(sent[i].tx)))
  }

  lemma RoundAsks(d: Desk, t: Terms, w: World, m: Market, id: nat, r: Round, now: nat)
    requires w.roundAt(id) == Result.Ok(r)
    ensures AskedAll(DriveRound(d, t, w, m, id, r, now).sent, d, w, m, now, id, id)
  {
    hide FindSettlement;
  }

  lemma {:induction false} ScanAsks(s: Scan, t: Terms, w: World, m: Market, now: nat, id: nat, count: nat)
    requires 1 <= id
    ensures
      var e := ScanFrom(s, t, w, m, now, id, count);
      s.sent <= e.sent && AskedAll(e.sent[|s.sent|..], s.desk, w, m, now, id, count)
    decreases count + 1 - id
  {
    hide DriveRound, Ready, Asked, PastDeadline;
    if id <= count && w.roundAt(id).Ok? {
      var r := w.roundAt(id).value;
      var latest := if id == count then r else s.latest;
      if Terminal(r) {
        var desk := if s.advance then Passed(s.desk, m.address, id) else s.desk;
        var next := s.(desk := desk, latest := latest);
        ScanAsks(next, t, w, m, now, id + 1, count);
        var more := ScanFrom(next, t, w, m, now, id + 1, count).sent[|s.sent|..];
        if s.advance { AskedBefore(more, s.desk, desk, w, m, now, id, count); }
      } else {
        var one := DriveRound(s.desk, t, w, m, id, r, now);
        var next := Scan(one.desk, s.sent + one.sent, latest, false, s.complete);
        RoundAsks(s.desk, t, w, m, id, r, now);
        ScanAsks(next, t, w, m, now, id + 1, count);
        var all := ScanFrom(next, t, w, m, now, id + 1, count).sent;
        var more := all[|next.sent|..];
        forall key: Key | key.round != id ensures Ready(one.desk, key, w.wall) ==> Ready(s.desk, key, w.wall) {
          OtherBackoffsStay(s.desk, t, w, m, id, r, now, key);
        }
        AskedBefore(more, s.desk, one.desk, w, m, now, id, count);
        assert all[|s.sent|..] == one.sent + more;
      }
    }
  }

  lemma PassedIsNoReadier(d: Desk, w: World, a: Address, id: nat, key: Key)
    requires key.round != id
    ensures Ready(Passed(d, a, id), key, w.wall) == Ready(d, key, w.wall)
  {}

  /** Looking at one round makes no later round's action any readier. */
  lemma AskedBefore(sent: seq<Sent>, d: Desk, e: Desk, w: World, m: Market, now: nat, id: nat, count: nat)
    requires AskedAll(sent, e, w, m, now, id + 1, count)
    requires e == Passed(d, m.address, id)
      || forall key: Key :: key.round != id && Ready(e, key, w.wall) ==> Ready(d, key, w.wall)
    ensures AskedAll(sent, d, w, m, now, id, count)
  {
    hide Ready, Passed;
    forall i | 0 <= i < |sent| ensures Ready(d, Asked(w, m, now, sent[i].tx), w.wall) {
      var key := Asked(w, m, now, sent[i].tx);
      assert key.round == RoundIn(sent[i].tx) > id;
      PassedIsNoReadier(d, w, m.address, id, key);
    }
  }

  /** Nothing is sent but what is ready when the pass begins, or is a resolve past its deadline. */
  lemma PassAsks(d: Desk, t: Terms, w: World, m: Market, now: nat, i: nat)
    requires i < |Drive(d, t, w, m, now).sent|
    ensures
      var tx := Drive(d, t, w, m, now).sent[i].tx;
      && w.count.Ok? && (tx.OpenTx? || Start(d) <= RoundIn(tx) <= w.count.value)
      && Ready(d, Asked(w, m, now, tx), w.wall)
      && (Asked(w, m, now, tx) != KeyFor(m.address, tx) ==> tx.ResolveTx? && PastDeadline(w, m, now, RoundIn(tx)))
  {
    hide ScanFrom, OpenRound, Ready, PastDeadline;
    var start := Scan(d, [], ZERO_ROUND, true, true);
    var s := ScanFrom(start, t, w, m, now, Start(d), w.count.value);
    ScanAsks(start, t, w, m, now, Start(d), w.count.value);
    assert s.sent[0..] == s.sent;
    if i >= |s.sent| {
      var noted := s.desk.(pending := !s.advance);
      OpeningAsks(noted, t, w, m, now);
      var key := Key(m.address, 0, OpenNext);
      OpeningStays(start, t, w, m, now, Start(d), w.count.value, key);
      assert Ready(d, key, w.wall) by { SameReady(noted, s.desk, key, w.wall); }
    }
  }

  lemma SameReady(d: Desk, e: Desk, key: Key, wall: nat)
    requires d.retry == e.retry
    ensures Ready(d, key, wall) == Ready(e, key, wall)
  {}

  lemma OpeningAsks(d: Desk, t: Terms, w: World, m: Market, now: nat)
    ensures
      var sent := OpenRound(d, t, w, m, now).sent;
      |sent| <= 1 && (|sent| == 1 ==> sent[0].tx.OpenTx? && Ready(d, Key(m.address, 0, OpenNext), w.wall))
  {
    hide SchedulePlan, ScheduleProblem, NextSchedule, StrikeFor, Failed;
  }

  /** The scan does not touch the opening's backoff. */
  lemma {:induction false} OpeningStays(s: Scan, t: Terms, w: World, m: Market, now: nat, id: nat, count: nat, key: Key)
    requires 1 <= id && key.round == 0
    ensures Ready(ScanFrom(s, t, w, m, now, id, count).desk, key, w.wall) == Ready(s.desk, key, w.wall)
    decreases count + 1 - id
  {
    hide DriveRound, Ready;
    if id <= count && w.roundAt(id).Ok? {
      var r := w.roundAt(id).value;
      var latest := if id == count then r else s.latest;
      if Terminal(r) {
        var desk := if s.advance then Passed(s.desk, m.address, id) else s.desk;
        PassedIsNoReadier(s.desk, w, m.address, id, key);
        OpeningStays(s.(desk := desk, latest := latest), t, w, m, now, id + 1, count, key);
      } else {
        var one := DriveRound(s.desk, t, w, m, id, r, now);
        OtherBackoffsStay(s.desk, t, w, m, id, r, now, key);
        OpeningStays(Scan(one.desk, s.sent + one.sent, latest, false, s.complete), t, w, m, now, id + 1, count, key);
      }
    }
  }

  // ---- Over whole runs ---------------------------------------------------------------------------------

  /** A seat, and the tries of one action since the market was last taken on. */
  datatype Told = Told(seat: Seat, tries: seq<Try>)

  function TellAfter(x: Told, e: Event, m: Market, key: Key): Told {
    var seat := SeatAfter(x.seat, e, m);
    Told(seat,
         if seat.Absent? then []
         else if e.Ticked? then x.tries + TriesIn(SentBy(x.seat, e, m), e.terms, e.world.wall, key)
         else x.tries)
  }

  function TellRun(x: Told, run: seq<Event>, m: Market, key: Key): Told
    decreases |run|
  {
    if run == [] then x else TellAfter(TellRun(x, run[..|run| - 1], m, key), run[|run| - 1], m, key)
  }

  predicate Kept(x: Told, key: Key) {
    x.seat.Driven? && Lasting(key, x.seat.desk) ==> Agrees(x.seat.desk, key, x.tries)
  }

  lemma TellingKeeps(x: Told, e: Event, m: Market, key: Key)
    requires Kept(x, key) && key.market == m.address && (x.seat.Absent? ==> x.tries == [])
    ensures Kept(TellAfter(x, e, m, key), key)
    ensures TellAfter(x, e, m, key).seat.Absent? ==> TellAfter(x, e, m, key).tries == []
  {
    hide Drive, Agrees, TriesIn;
    var seat := SeatAfter(x.seat, e, m);
    if seat.Driven? && Lasting(key, seat.desk) {
      if e.Ticked? {
        var o := Drive(x.seat.desk, e.terms, e.world, m, e.now);
        PassGoesOn(x.seat.desk, e.terms, e.world, m, e.now);
        PassAgrees(x.seat.desk, e.terms, e.world, m, e.now, key, x.tries);
        SameRetry(o.desk, seat.desk, key, x.tries + TriesIn(o.sent, e.terms, e.world.wall, key));
      } else if x.seat.Driven? {
        SameRetry(x.seat.desk, seat.desk, key, x.tries);
      } else {
        NewDeskAgrees(seat.desk, key);
      }
    }
  }

  lemma NewDeskAgrees(d: Desk, key: Key)
    requires d.retry == map[]
    ensures Agrees(d, key, [])
  {}

  lemma PassGoesOn(d: Desk, t: Terms, w: World, m: Market, now: nat)
    ensures Start(d) <= Start(Drive(d, t, w, m, now).desk)
  {
    hide ScanFrom, OpenRound;
    if w.count.Ok? {
      var start := Scan(d, [], ZERO_ROUND, true, true);
      ScanGoesOn(start, t, w, m, now, Start(d), w.count.value);
      var s := ScanFrom(start, t, w, m, now, Start(d), w.count.value);
      OpeningKeepsTheRest(s.desk.(pending := !s.advance), t, w, m, now);
    }
  }

  lemma {:induction false} EveryRunKeeps(x: Told, run: seq<Event>, m: Market, key: Key)
    requires x in {Told(Absent, []), Told(Driven(EMPTY_DESK), [])} && key.market == m.address
    ensures Kept(TellRun(x, run, m, key), key)
    ensures TellRun(x, run, m, key).seat.Absent? ==> TellRun(x, run, m, key).tries == []
    decreases |run|
  {
    if run == [] {
      NewDeskAgrees(EMPTY_DESK, key);
    } else {
      hide Kept, TellAfter;
      EveryRunKeeps(x, run[..|run| - 1], m, key);
      TellingKeeps(TellRun(x, run[..|run| - 1], m, key), run[|run| - 1], m, key);
    }
  }

  /** At any point of any run, an action of a round the keeper is not yet done with, or the opening, is ready
      exactly when its tries say so: none has failed since one landed, or the wait of the latest failure is
      over. */
  lemma ReadyExactlyWhenRested(x: Told, run: seq<Event>, m: Market, key: Key, wall: nat)
    requires x in {Told(Absent, []), Told(Driven(EMPTY_DESK), [])} && key.market == m.address
    requires TellRun(x, run, m, key).seat.Driven? && Lasting(key, TellRun(x, run, m, key).seat.desk)
    ensures Ready(TellRun(x, run, m, key).seat.desk, key, wall) <==> Rested(TellRun(x, run, m, key).tries, wall)
  {
    EveryRunKeeps(x, run, m, key);
  }

  /** The same seat, whichever action is followed. */
  lemma {:induction false} SameSeat(x: Told, run: seq<Event>, m: Market, key: Key, other: Key)
    ensures TellRun(x, run, m, key).seat == TellRun(x, run, m, other).seat
    decreases |run|
  {
    if run != [] { SameSeat(x, run[..|run| - 1], m, key, other); }
  }

  /** So no poll of any run sends an action again before its wait is over; but a resolve past its deadline
      does not wait for itself, only for a refund that failed. */
  lemma NothingIsSentTooSoon(x: Told, run: seq<Event>, e: Event, m: Market, i: nat)
    requires x in {Told(Absent, []), Told(Driven(EMPTY_DESK), [])} && e.Ticked?
    requires
      var seat := TellRun(x, run, m, Key(m.address, 0, OpenNext)).seat;
      seat.Driven? && i < |SentBy(seat, e, m)|
    ensures
      var tx := SentBy(TellRun(x, run, m, Key(m.address, 0, OpenNext)).seat, e, m)[i].tx;
      if tx.ResolveTx? && PastDeadline(e.world, m, e.now, tx.round)
      then Rested(TellRun(x, run, m, Key(m.address, tx.round, RefundUnsettled)).tries, e.world.wall)
      else Rested(TellRun(x, run, m, KeyFor(m.address, tx)).tries, e.world.wall)
  {
    hide Drive, Rested, TellRun, PastDeadline;
    var seat := TellRun(x, run, m, Key(m.address, 0, OpenNext)).seat;
    var tx := SentBy(seat, e, m)[i].tx;
    PassAsks(seat.desk, e.terms, e.world, m, e.now, i);
    var asked := Asked(e.world, m, e.now, tx);
    AskedIsEither(e.world, m, e.now, tx);
    SameSeat(x, run, m, Key(m.address, 0, OpenNext), asked);
    ReadyExactlyWhenRested(x, run, m, asked, e.world.wall);
  }

  lemma AskedIsEither(w: World, m: Market, now: nat, tx: Tx)
    requires Asked(w, m, now, tx) != KeyFor(m.address, tx) ==> tx.ResolveTx? && PastDeadline(w, m, now, RoundIn(tx))
    ensures Asked(w, m, now, tx) ==
      if tx.ResolveTx? && PastDeadline(w, m, now, tx.round) then Key(m.address, tx.round, RefundUnsettled)
      else KeyFor(m.address, tx)
  {}

  // ---- Where it does not wait --------------------------------------------------------------------------

  /** A question long past its deadline, whose resolve is accepted by the oracle and refused on chain. */
  function RefusedResolve(wall: nat, r: Round, feed: FeedView): World {
    World(wall, Result.Ok(1), _ => Result.Ok(r), _ => feed, (_, _) => Result.Ok(true), _ => Result.Ok(false),
          (_, _) => false, Opening(0, Result.Err, Result.Err))
  }

  /** It is sent again by the very next poll, however short a time after, and by every one after that. */
  lemma AResolvePastItsDeadlineDoesNotWait(m: Market, t: Terms, r: Round, feed: FeedView, now: nat, wall: nat,
                                           later: nat)
    requires m.event && r.status.Locked? && now > r.closeTime + m.timing.resolveDeadline
    ensures
      var first := Drive(EMPTY_DESK, t, RefusedResolve(wall, r, feed), m, now);
      var second := Drive(first.desk, t, RefusedResolve(later, r, feed), m, now);
      first.sent == [Sent(ResolveTx(1, 0), false)] && second.sent == [Sent(ResolveTx(1, 0), false)]
  {
    var w, w' := RefusedResolve(wall, r, feed), RefusedResolve(later, r, feed);
    OneRefused(EMPTY_DESK, t, w, m, r, now);
    OneRefused(Drive(EMPTY_DESK, t, w, m, now).desk, t, w', m, r, now);
  }

  lemma OneRefused(d: Desk, t: Terms, w: World, m: Market, r: Round, now: nat)
    requires m.event && r.status.Locked? && now > r.closeTime + m.timing.resolveDeadline
    requires w.count == Result.Ok(1) && w.roundAt(1) == Result.Ok(r) && w.readable(1, 0) == Result.Ok(true)
    requires !w.lands(1, ResolveIt) && Start(d) == 1 && Key(m.address, 1, RefundUnsettled) !in d.retry
    ensures
      var o := Drive(d, t, w, m, now);
      && o.sent == [Sent(ResolveTx(1, 0), false)]
      && Start(o.desk) == 1 && Key(m.address, 1, RefundUnsettled) !in o.desk.retry
  {
    hide Failed;
    var key := Key(m.address, 1, ResolveIt);
    var one := DriveRound(d, t, w, m, 1, r, now);
    assert one == Outcome(d.(retry := Failed(d.retry, t, key, w.wall)), [Sent(ResolveTx(1, 0), false)]);
    OnlyThatKey(d.retry, t, key, w.wall);
    var after := Scan(one.desk, [] + one.sent, r, false, true);
    assert ScanFrom(after, t, w, m, now, 2, 1) == after;
  }

  lemma OnlyThatKey(retry: map<Key, Attempt>, t: Terms, key: Key, wall: nat)
    ensures Failed(retry, t, key, wall).Keys == retry.Keys + {key}
  {}
}
