/** When a market may leave the driven set, over whole runs of polls and registry reads
    (keeper/keeper.go). */
module KeeperRuns {
  import opened FixedPoint
  import opened Ledger
  import opened Feed
  import opened KeeperRules
  import opened KeeperDesk
  import opened KeeperCursor
  import opened KeeperActions

  /** What can happen to one market's seat. */
  datatype Event =
    | Ticked(now: nat, terms: Terms, world: World)
    | ClockFailed
    | RegistryRead(listed: bool, drivable: bool)
    | RegistryFailed

  /** An event, and the contract's rounds after it. */
  datatype Step = Step(event: Event, after: seq<Round>)

  function Polled(d: Desk, e: Event, m: Market): Outcome
    requires e.Ticked?
  {
    Drive(d, e.terms, e.world, m, e.now)
  }

  function SeatAfter(seat: Seat, e: Event, m: Market): Seat {
    match e
    case Ticked(_, _, _) => if seat.Driven? then Retired(Driven(Polled(seat.desk, e, m).desk)) else Absent
    case RegistryRead(listed, drivable) => Refreshed(seat, listed, drivable)
    case _ => seat
  }

  function SentBy(seat: Seat, e: Event, m: Market): seq<Sent> {
    if e.Ticked? && seat.Driven? then Polled(seat.desk, e, m).sent else []
  }

  ghost predicate Possible(before: seq<Round>, s: Step) {
    if s.event.Ticked? then Serves(s.event.world, before, s.after) else Evolves(before, s.after)
  }

  ghost predicate PossibleRun(before: seq<Round>, run: seq<Step>)
    decreases |run|
  {
    run != [] ==> Possible(before, run[0]) && PossibleRun(run[0].after, run[1..])
  }

  function Openings(sent: seq<Sent>): nat {
    if sent == [] then 0 else Openings(sent[..|sent| - 1]) + (if sent[|sent| - 1].tx.OpenTx? then 1 else 0)
  }

  /** A seat watched from outside: the rounds its contract has, how many its latest complete pass
      counted, whether all of those were settled, and how many openings the keeper has sent in that pass
      and since; and whether the keeper has had reason to know (`known`): a complete pass, or being told
      by the registry. */
  datatype Watch = Watch(seat: Seat, rounds: seq<Round>, known: bool, counted: nat, settled: bool, newest: nat)

  function WatchAfter(x: Watch, s: Step, m: Market): Watch {
    var seat := SeatAfter(x.seat, s.event, m);
    var openings := Openings(SentBy(x.seat, s.event, m));
    if s.event.Ticked? && x.seat.Driven? && Complete(x.seat.desk, s.event.world) then
      var count := s.event.world.count.value;
      Watch(seat, s.after, true, count, AllSettled(s.event.world, Start(x.seat.desk), count), openings)
    else if x.seat.Absent? && seat.Driven? then Watch(seat, s.after, true, 0, false, 0)
    else x.(seat := seat, rounds := s.after, newest := x.newest + openings)
  }

  function WatchRun(x: Watch, run: seq<Step>, m: Market): Watch
    decreases |run|
  {
    if run == [] then x else WatchRun(WatchAfter(x, run[0], m), run[1..], m)
  }

  predicate FirstSettled(rounds: seq<Round>, n: nat) {
    n <= |rounds| && forall i :: 0 <= i < n ==> Terminal(rounds[i])
  }

  /** What every reachable watch satisfies. */
  predicate Good(x: Watch, m: Market) {
    && (x.seat.Driven? ==> Sound(x.seat.desk, m.address, x.rounds))
    && (x.seat.Driven? && x.seat.desk.retiring ==> x.seat.desk.pending)
    && (x.seat.Driven? && x.known ==> (x.settled <==> !x.seat.desk.pending))
    && (x.seat.Driven? && !x.known ==> !x.seat.desk.pending && !x.seat.desk.retiring)
    && (x.settled ==> FirstSettled(x.rounds, x.counted))
    && x.newest <= 1
  }

  lemma SettledLater(before: seq<Round>, after: seq<Round>, n: nat)
    requires FirstSettled(before, n) && Evolves(before, after)
    ensures FirstSettled(after, n)
  {}

  /** Rounds below the cursor were settled already, and the others were read so. */
  lemma SettledPass(d: Desk, w: World, a: Address, before: seq<Round>, after: seq<Round>)
    requires Serves(w, before, after) && Sound(d, a, before) && Complete(d, w)
    requires AllSettled(w, Start(d), w.count.value)
    ensures FirstSettled(after, w.count.value)
  {
    var count := w.count.value;
    forall i | 0 <= i < count ensures Terminal(after[i]) {
      if i < Start(d) - 1 {
        assert Terminal(before[i]) && Becomes(before[i], after[i]);
      } else {
        assert Settled(w, i + 1);
        ReadTerminal(w, before, after, i + 1);
      }
    }
  }

  lemma {:induction false} NoOpenings(sent: seq<Sent>)
    requires forall i :: 0 <= i < |sent| ==> !sent[i].tx.OpenTx?
    ensures Openings(sent) == 0
  {
    if sent != [] { NoOpenings(sent[..|sent| - 1]); }
  }

  /** A pass opens at most one round, and only when it is complete and the market is not retiring. */
  lemma PassOpenings(d: Desk, t: Terms, w: World, m: Market, now: nat)
    ensures
      var n := Openings(Drive(d, t, w, m, now).sent);
      n <= 1 && (n > 0 ==> Complete(d, w) && !d.retiring)
  {
    hide Drive, Complete, ScheduleFits, StrikeFits;
    PassSendsWhatIsDue(d, t, w, m, now);
    var sent := Drive(d, t, w, m, now).sent;
    NoOpenings(RoundTxs(sent));
  }

  lemma PollKeepsGood(x: Watch, s: Step, m: Market)
    requires Good(x, m) && Possible(x.rounds, s) && s.event.Ticked? && x.seat.Driven?
    ensures Good(WatchAfter(x, s, m), m)
  {
    hide Drive, Sound, Serves, AllSettled, Answered, FirstSettled, StopsAt, Evolves;
    var d, w := x.seat.desk, s.event.world;
    ServedEvolves(w, x.rounds, s.after);
    PassKeepsSound(d, s.event.terms, w, m, s.event.now, x.rounds, s.after);
    SoundIsInRange(d, w, m.address, x.rounds, s.after);
    PassReport(d, s.event.terms, w, m, s.event.now);
    PassOpenings(d, s.event.terms, w, m, s.event.now);
    if x.settled { SettledLater(x.rounds, s.after, x.counted); }
    if Complete(d, w) && AllSettled(w, Start(d), w.count.value) { SettledPass(d, w, m.address, x.rounds, s.after); }
  }

  lemma SoundIsInRange(d: Desk, w: World, a: Address, before: seq<Round>, after: seq<Round>)
    requires Serves(w, before, after) && Sound(d, a, before)
    ensures w.count.Ok? ==> Start(d) <= w.count.value + 1
  {}

  lemma NewSeatIsSound(a: Address, rounds: seq<Round>)
    ensures Sound(EMPTY_DESK, a, rounds) && Sound(EMPTY_DESK.(pending := true), a, rounds)
  {}

  lemma OthersKeepGood(x: Watch, s: Step, m: Market)
    requires Good(x, m) && Possible(x.rounds, s) && !(s.event.Ticked? && x.seat.Driven?)
    ensures Good(WatchAfter(x, s, m), m)
  {
    hide Drive, Serves, FirstSettled, Evolves, Sound;
    assert Evolves(x.rounds, s.after) by {
      if s.event.Ticked? { ServedEvolves(s.event.world, x.rounds, s.after); }
    }
    NewSeatIsSound(m.address, s.after);
    if x.seat.Driven? {
      SoundLater(x.seat.desk, m.address, x.rounds, s.after);
      RetiringIsSound(x.seat.desk, m.address, s.after);
    }
    if x.settled { SettledLater(x.rounds, s.after, x.counted); }
  }

  lemma RetiringIsSound(d: Desk, a: Address, rounds: seq<Round>)
    requires Sound(d, a, rounds)
    ensures Sound(d.(retiring := true), a, rounds) && Sound(d.(retiring := false), a, rounds)
  {}

  lemma StepKeepsGood(x: Watch, s: Step, m: Market)
    requires Good(x, m) && Possible(x.rounds, s)
    ensures Good(WatchAfter(x, s, m), m)
  {
    hide Good, Possible, WatchAfter;
    if s.event.Ticked? && x.seat.Driven? { PollKeepsGood(x, s, m); } else { OthersKeepGood(x, s, m); }
  }

  /** How a watch starts: driven from start-up with nothing remembered, or not driven. */
  predicate Fresh(x: Watch) {
    && (x.seat == Driven(EMPTY_DESK) || x.seat == Absent)
    && !x.known && !x.settled && x.counted == 0 && x.newest == 0
  }

  /** Every state of every run is good: in particular all rounds below a cursor are settled. */
  lemma {:induction false} EveryRunIsGood(x: Watch, run: seq<Step>, m: Market)
    requires Good(x, m) && PossibleRun(x.rounds, run)
    ensures Good(WatchRun(x, run, m), m)
    decreases |run|
  {
    hide Good, Possible, WatchAfter;
    if run != [] {
      StepKeepsGood(x, run[0], m);
      RoundsFollow(x, run[0], m);
      EveryRunIsGood(WatchAfter(x, run[0], m), run[1..], m);
    }
  }

  lemma RoundsFollow(x: Watch, s: Step, m: Market)
    ensures WatchAfter(x, s, m).rounds == s.after
  {}

  lemma FreshIsGood(x: Watch, m: Market)
    requires Fresh(x)
    ensures Good(x, m)
  {}

  /** Delisting is safe: at any point of any run, a market leaves the driven set only when it is
      delisted and, if the keeper knew anything of it, its latest complete pass found every round it
      counted settled; those rounds are settled still. Of whatever was opened after that pass counted, the
      keeper itself opened at most one round; and none when the market was retired. */
  lemma DelistingIsSafe(x: Watch, run: seq<Step>, s: Step, m: Market)
    requires Fresh(x) && PossibleRun(x.rounds, run) && Possible(WatchRun(x, run, m).rounds, s)
    requires WatchRun(x, run, m).seat.Driven? && WatchAfter(WatchRun(x, run, m), s, m).seat.Absent?
    ensures
      var before, after := WatchRun(x, run, m), WatchAfter(WatchRun(x, run, m), s, m);
      && ((s.event.RegistryRead? && !s.event.listed) || (s.event.Ticked? && before.seat.desk.retiring))
      && (after.known ==> after.settled && FirstSettled(after.rounds, after.counted))
      && after.newest <= 1 && (s.event.Ticked? ==> after.newest == 0)
  {
    FreshIsGood(x, m);
    EveryRunIsGood(x, run, m);
    var before := WatchRun(x, run, m);
    StepKeepsGood(before, s, m);
    LeavingIsSettled(before, s, m);
  }

  lemma LeavingIsSettled(x: Watch, s: Step, m: Market)
    requires Good(x, m) && Good(WatchAfter(x, s, m), m) && Possible(x.rounds, s)
    requires x.seat.Driven? && WatchAfter(x, s, m).seat.Absent?
    ensures (s.event.RegistryRead? && !s.event.listed) || (s.event.Ticked? && x.seat.desk.retiring)
    ensures WatchAfter(x, s, m).known ==> WatchAfter(x, s, m).settled
    ensures s.event.Ticked? ==> WatchAfter(x, s, m).newest == 0
  {
    hide Drive, Sound, Serves, AllSettled, Answered, FirstSettled, StopsAt, Evolves;
    if s.event.Ticked? {
      SoundIsInRange(x.seat.desk, s.event.world, m.address, x.rounds, s.after);
      PassReport(x.seat.desk, s.event.terms, s.event.world, m, s.event.now);
      PassOpenings(x.seat.desk, s.event.terms, s.event.world, m, s.event.now);
    }
  }

  /** In every reachable state a pass may start from the cursor: it does exactly what a scan from round 1
      would, whenever the extra rounds of that scan can be read. */
  lemma ReachablePassesMayUseTheCursor(x: Watch, run: seq<Step>, s: Step, m: Market)
    requires Fresh(x) && PossibleRun(x.rounds, run) && Possible(WatchRun(x, run, m).rounds, s)
    requires s.event.Ticked? && s.event.world.count.Ok? && WatchRun(x, run, m).seat.Driven?
    requires forall id :: 1 <= id < Start(WatchRun(x, run, m).seat.desk) ==> s.event.world.roundAt(id).Ok?
    ensures
      var d := WatchRun(x, run, m).seat.desk;
      Polled(d, s.event, m) == Polled(d.(cursor := 0), s.event, m)
  {
    hide Drive;
    FreshIsGood(x, m);
    EveryRunIsGood(x, run, m);
    var now := WatchRun(x, run, m);
    SoundDesksMayUseTheCursor(now.seat.desk, s.event.terms, s.event.world, m, s.event.now, now.rounds, s.after);
  }

  // ---- Retiring markets ------------------------------------------------------------------------------

  predicate OpensNothing(sent: seq<Sent>) {
    forall i :: 0 <= i < |sent| ==> !sent[i].tx.OpenTx?
  }

  lemma {:induction false} ScansOpenNothing(s: Scan, t: Terms, w: World, m: Market, now: nat, id: nat, count: nat)
    requires OpensNothing(s.sent)
    ensures OpensNothing(ScanFrom(s, t, w, m, now, id, count).sent)
    decreases count + 1 - id
  {
    if id <= count && w.roundAt(id).Ok? {
      var r := w.roundAt(id).value;
      var latest := if id == count then r else s.latest;
      if Terminal(r) {
        var desk := if s.advance then Passed(s.desk, m.address, id) else s.desk;
        ScansOpenNothing(s.(desk := desk, latest := latest), t, w, m, now, id + 1, count);
      } else {
        var one := DriveRound(s.desk, t, w, m, id, r, now);
        assert OpensNothing(one.sent);
        hide DriveRound;
        ScansOpenNothing(Scan(one.desk, s.sent + one.sent, latest, false, s.complete), t, w, m, now, id + 1, count);
      }
    }
  }

  lemma RetiringPassOpensNothing(d: Desk, t: Terms, w: World, m: Market, now: nat)
    requires d.retiring
    ensures OpensNothing(Drive(d, t, w, m, now).sent)
    ensures Drive(d, t, w, m, now).desk.retiring
  {
    hide ScanFrom, OpenRound;
    if w.count.Ok? {
      var start := Scan(d, [], ZERO_ROUND, true, true);
      ScansOpenNothing(start, t, w, m, now, Start(d), w.count.value);
      ScanKeepsRetiring(start, t, w, m, now, Start(d), w.count.value);
    }
  }

  lemma {:induction false} ScanKeepsRetiring(s: Scan, t: Terms, w: World, m: Market, now: nat, id: nat, count: nat)
    ensures ScanFrom(s, t, w, m, now, id, count).desk.retiring == s.desk.retiring
    decreases count + 1 - id
  {
    hide DriveRound;
    if id <= count && w.roundAt(id).Ok? {
      var r := w.roundAt(id).value;
      var latest := if id == count then r else s.latest;
      if Terminal(r) {
        var desk := if s.advance then Passed(s.desk, m.address, id) else s.desk;
        ScanKeepsRetiring(s.(desk := desk, latest := latest), t, w, m, now, id + 1, count);
      } else {
        DriveRoundKeepsTheRest(s.desk, t, w, m, id, r, now);
        var one := DriveRound(s.desk, t, w, m, id, r, now);
        ScanKeepsRetiring(Scan(one.desk, s.sent + one.sent, latest, false, s.complete), t, w, m, now, id + 1, count);
      }
    }
  }

  function SentInRun(seat: Seat, run: seq<Step>, m: Market): seq<Sent>
    decreases |run|
  {
    if run == [] then []
    else SentBy(seat, run[0].event, m) + SentInRun(SeatAfter(seat, run[0].event, m), run[1..], m)
  }

  predicate NeverListed(run: seq<Step>) {
    forall i :: 0 <= i < |run| && run[i].event.RegistryRead? ==> !run[i].event.listed
  }

  /** Once it is retiring, and until it is listed again, a market gets no new round from the keeper, in
      any run whatever: it stays retiring until it is gone, and gone until then. */
  lemma {:induction false} RetiringMarketsGetNoRound(seat: Seat, run: seq<Step>, m: Market)
    requires seat.Driven? ==> seat.desk.retiring
    requires NeverListed(run)
    ensures OpensNothing(SentInRun(seat, run, m))
    decreases |run|
  {
    if run != [] {
      hide Drive;
      var e := run[0].event;
      if e.Ticked? && seat.Driven? { RetiringPassOpensNothing(seat.desk, e.terms, e.world, m, e.now); }
      assert NeverListed(run[1..]) by {
        forall i | 0 <= i < |run| - 1 ensures run[1..][i] == run[i + 1] {}
      }
      RetiringMarketsGetNoRound(SeatAfter(seat, e, m), run[1..], m);
    }
  }

  // ---- Listed markets -----------------------------------------------------------------------------

  function SeatRun(seat: Seat, run: seq<Step>, m: Market): Seat
    decreases |run|
  {
    if run == [] then seat else SeatRun(SeatAfter(seat, run[0].event, m), run[1..], m)
  }

  predicate AlwaysListed(run: seq<Step>) {
    forall i :: 0 <= i < |run| && run[i].event.RegistryRead? ==> run[i].event.listed
  }

  /** A market is taken on by the first registry read that lists it drivable, with everything about it still to
      be found out; and one that is listed is driven, and not retiring, for as long as every read that succeeds
      lists it, drivable or not. */
  lemma ListedMarketsStay(seat: Seat, listing: Step, run: seq<Step>, m: Market)
    requires listing.event.RegistryRead? && listing.event.listed && AlwaysListed(run)
    ensures
      var taken := SeatAfter(seat, listing.event, m);
      var later := SeatRun(taken, run, m);
      && (taken.Driven? <==> seat.Driven? || listing.event.drivable)
      && (seat.Absent? && taken.Driven? ==> taken.desk == EMPTY_DESK.(pending := true))
      && (taken.Driven? ==> later.Driven? && !later.desk.retiring)
  {
    var taken := SeatAfter(seat, listing.event, m);
    if taken.Driven? { ListedSeatStays(taken, run, m); }
  }

  lemma {:induction false} ListedSeatStays(seat: Seat, run: seq<Step>, m: Market)
    requires seat.Driven? && !seat.desk.retiring && AlwaysListed(run)
    ensures SeatRun(seat, run, m).Driven? && !SeatRun(seat, run, m).desk.retiring
    decreases |run|
  {
    if run != [] {
      hide Drive;
      var e := run[0].event;
      if e.Ticked? { PassKeepsRetiring(seat.desk, e.terms, e.world, m, e.now); }
      assert AlwaysListed(run[1..]) by { forall i | 0 <= i < |run| - 1 ensures run[1..][i] == run[i + 1] {} }
      ListedSeatStays(SeatAfter(seat, e, m), run[1..], m);
    }
  }

  lemma PassKeepsRetiring(d: Desk, t: Terms, w: World, m: Market, now: nat)
    ensures Drive(d, t, w, m, now).desk.retiring == d.retiring
  {
    hide ScanFrom, OpenRound;
    if w.count.Ok? {
      var start := Scan(d, [], ZERO_ROUND, true, true);
      ScanKeepsRetiring(start, t, w, m, now, Start(d), w.count.value);
      var s := ScanFrom(start, t, w, m, now, Start(d), w.count.value);
      OpeningKeepsTheRest(s.desk.(pending := !s.advance), t, w, m, now);
    }
  }

  // ---- Where delisting is not safe ---------------------------------------------------------------------

  /** A delisting drops the market at once exactly when the keeper knows nothing of it yet, or its latest
      complete pass found every round it counted settled: what that pass then opened is not pending, and
      stays so through every incomplete pass that follows. Otherwise the market is kept, retiring. */
  lemma ADelistingDropsExactlyWhen(x: Watch, run: seq<Step>, s: Step, m: Market)
    requires Fresh(x) && PossibleRun(x.rounds, run)
    requires WatchRun(x, run, m).seat.Driven? && s.event.RegistryRead? && !s.event.listed
    ensures
      var before, after := WatchRun(x, run, m), WatchAfter(WatchRun(x, run, m), s, m);
      && (after.seat.Absent? <==> !before.known || before.settled)
      && (after.seat.Driven? ==> after.seat.desk.retiring)
  {
    FreshIsGood(x, m);
    EveryRunIsGood(x, run, m);
  }

  /** The answers of a poll that opens an empty market's first round, which is then `first`. */
  function OpeningWorld(first: Round, feed: FeedView): World {
    World(0, Result.Ok(0), _ => Result.Ok(first), _ => feed, (_, _) => Result.Ok(false), _ => Result.Ok(true),
          (_, _) => true, Opening(100, Result.Ok(Allowed), Result.Ok(None)))
  }

  const OPENING_TERMS := Terms(Config(1, true, 10, 50, 0), SECOND)

  lemma FirstPollOpens(m: Market, first: Round, feed: FeedView)
    requires !m.event && !m.strikeAtOpen && m.timing.entryCutoff < 50
    ensures Drive(EMPTY_DESK, OPENING_TERMS, OpeningWorld(first, feed), m, 0)
         == Outcome(EMPTY_DESK, [Sent(OpenTx(Schedule(10, 60, 110), None), true)])
  {}

  /** It does happen: a first poll of an empty market that opens a round, and a delisting. */
  lemma AnOpenRoundCanBeStranded(m: Market, first: Round, feed: FeedView)
    requires !m.event && !m.strikeAtOpen && m.timing.entryCutoff < 50 && first.status.Open?
    ensures
      var poll := Step(Ticked(0, OPENING_TERMS, OpeningWorld(first, feed)), [first]);
      var delist := Step(RegistryRead(false, true), [first]);
      var start := Watch(Driven(EMPTY_DESK), [], false, 0, false, 0);
      var end := WatchAfter(WatchAfter(start, poll, m), delist, m);
      && Possible([], poll) && Possible([first], delist)
      && SentBy(start.seat, poll.event, m) == [Sent(OpenTx(Schedule(10, 60, 110), None), true)]
      && end.known && end.seat.Absent? && end.rounds == [first] && !Terminal(first)
  {
    FirstPollOpens(m, first, feed);
    hide Drive;
  }

  /** A market driven from start-up is dropped as soon as it is delisted for as long as no pass has got
      through, however many were tried and whatever its rounds: only markets added by a refresh are assumed
      to have something pending. */
  lemma AnUnseenMarketIsDropped(x: Watch, run: seq<Step>, s: Step, m: Market)
    requires Fresh(x) && PossibleRun(x.rounds, run)
    requires WatchRun(x, run, m).seat.Driven? && !WatchRun(x, run, m).known
    requires s.event.RegistryRead? && !s.event.listed
    ensures
      var after := WatchAfter(WatchRun(x, run, m), s, m);
      after.seat.Absent? && !after.known
  {
    FreshIsGood(x, m);
    EveryRunIsGood(x, run, m);
  }
}
