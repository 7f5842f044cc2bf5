/** What one pass of the keeper over one market does, as functions of what it remembers of that market
    and of the answers it gets (keeper/keeper.go). */
module KeeperDesk {
  import opened FixedPoint
  import opened Ledger
  import opened Feed
  import opened Strike
  import opened KeeperRules

  /** The key of every backoff and of every memo. */
  datatype Key = Key(market: Address, round: nat, action: Action)

  datatype Attempt = Attempt(next: nat, failures: nat)

  /** The outcome of one settlement search and the feed head it saw; None means it found no candidate. */
  datatype Memo = Memo(head: nat, candidate: Option<nat>)

  /** Everything the keeper remembers about one market. A cursor of 0 is no entry. */
  datatype Desk = Desk(
    cursor: nat,
    pending: bool,
    retiring: bool,
    notOwner: bool,
    refusal: Option<string>,
    retry: map<Key, Attempt>,
    searched: map<Key, Memo>)

  const EMPTY_DESK := Desk(0, false, false, false, None, map[], map[])

  // ---- The answers a pass gets ---------------------------------------------------------------------

  datatype FeedHead = FeedHead(id: nat, updatedAt: Option<nat>)

  /** The feed as it stands when one round is looked at. A feed that never published has no head. */
  datatype FeedView = FeedView(head: Result<Option<FeedHead>>, read: Reader)

  datatype Gate = Allowed | Refused(code: string)

  datatype Opening = Opening(horizon: nat, gate: Result<Gate>, spot: Result<Option<int>>)

  /** Answers are given round by round, so the chain may move while the pass is under way. Round 0 is
      the one not newest yet. */
  datatype World = World(
    wall: nat,
    count: Result<nat>,
    roundAt: nat -> Result<Round>,
    feed: nat -> FeedView,
    readable: (nat, nat) -> Result<bool>,
    owned: nat -> Result<bool>,
    lands: (nat, Action) -> bool,
    opening: Opening)

  datatype Tx =
    | LockTx(round: nat)
    | VoidUnlockedTx(round: nat)
    | ResolveTx(round: nat, feedRound: nat)
    | VoidUnsettledTx(round: nat)
    | OpenTx(schedule: Schedule, strike: Option<nat>)

  datatype Sent = Sent(tx: Tx, landed: bool)

  datatype Outcome = Outcome(desk: Desk, sent: seq<Sent>)

  /** The settings a pass runs under; the backoff limit depends on every driven market. */
  datatype Terms = Terms(cfg: Config, maxBackoff: nat)

  // ---- Backoff ---------------------------------------------------------------------------------------

  predicate Ready(d: Desk, key: Key, wall: nat) {
    key !in d.retry || wall >= d.retry[key].next
  }

  function Shift(n: nat, places: nat): nat {
    if places == 0 then n else 2 * Shift(n, places - 1)
  }

  function Delay(t: Terms, failures: nat): nat
    requires failures > 0
  {
    var delay := Shift(t.cfg.pollInterval, if failures - 1 < 8 then failures - 1 else 8);
    if delay > t.maxBackoff then t.maxBackoff else delay
  }

  function Failed(retry: map<Key, Attempt>, t: Terms, key: Key, wall: nat): map<Key, Attempt> {
    var failures := if key in retry then retry[key].failures + 1 else 1;
    retry[key := Attempt(wall + Delay(t, failures), failures)]
  }

  function Send(d: Desk, t: Terms, w: World, key: Key, tx: Tx): Outcome {
    var landed := w.lands(key.round, key.action);
    Outcome(d.(retry := if landed then d.retry - {key} else Failed(d.retry, t, key, w.wall)), [Sent(tx, landed)])
  }

  // ---- Settlement ------------------------------------------------------------------------------------

  datatype Found = Found(desk: Desk, answer: Result<Option<nat>>)

  /** A candidate is only worth what the adapter says of it now. */
  function Vetted(w: World, round: nat, candidate: nat): Result<Option<nat>> {
    match w.readable(round, candidate)
    case Err => Err
    case Ok(accepted) => Ok(if accepted then Some(candidate) else None)
  }

  function FindSettlement(d: Desk, w: World, m: Market, id: nat, closeTime: nat): Found {
    if m.event then Found(d, Vetted(w, id, 0))
    else
      match w.feed(id).head
      case Err => Found(d, Err)
      case Ok(None) => Found(d, Ok(None))
      case Ok(Some(head)) =>
        if head.updatedAt.None? || head.updatedAt.value <= closeTime then Found(d, Ok(None))
        else
          var probe := Key(m.address, id, SearchFeed);
          if probe in d.searched && d.searched[probe].head == head.id then
            Found(d, VettedIfAny(w, id, d.searched[probe].candidate))
          else
            match CloseRoundFrom(w.feed(id).read, Some(head.id), head.updatedAt, closeTime)
            case Err => Found(d, Err)
            case Ok(candidate) =>
              Found(d.(searched := d.searched[probe := Memo(head.id, candidate)]), VettedIfAny(w, id, candidate))
  }

  function VettedIfAny(w: World, id: nat, candidate: Option<nat>): Result<Option<nat>> {
    if candidate.None? then Ok(None) else Vetted(w, id, candidate.value)
  }

  function Settle(d: Desk, t: Terms, w: World, m: Market, id: nat, r: Round, action: Action): Outcome {
    var found := FindSettlement(d, w, m, id, r.closeTime);
    match found.answer
    case Err => Outcome(found.desk, [])
    case Ok(Some(feedRound)) =>
      Send(found.desk, t, w, Key(m.address, id, ResolveIt), ResolveTx(id, feedRound))
    case Ok(None) =>
      if action != RefundUnsettled || w.owned(id) != Ok(true) then Outcome(found.desk, [])
      else Send(found.desk, t, w, Key(m.address, id, RefundUnsettled), VoidUnsettledTx(id))
  }

  function DriveRound(d: Desk, t: Terms, w: World, m: Market, id: nat, r: Round, now: nat): Outcome {
    var action := ActionFor(r, m.timing, now);
    if action.NoAction? || !Ready(d, Key(m.address, id, action), w.wall) then Outcome(d, [])
    else
      match action
      case LockIt => Send(d, t, w, Key(m.address, id, LockIt), LockTx(id))
      case VoidUnlocked => Send(d, t, w, Key(m.address, id, VoidUnlocked), VoidUnlockedTx(id))
      case _ => Settle(d, t, w, m, id, r, action)
  }

  // ---- One pass --------------------------------------------------------------------------------------

  /** The backoffs and the memo of one round. */
  function RoundKeys(a: Address, id: nat): set<Key> {
    {Key(a, id, LockIt), Key(a, id, ResolveIt), Key(a, id, VoidUnlocked), Key(a, id, RefundUnsettled)}
  }

  /** The cursor past one more settled round, whose bookkeeping goes with it. */
  function Passed(d: Desk, a: Address, id: nat): Desk {
    d.(cursor := id + 1, retry := d.retry - RoundKeys(a, id), searched := d.searched - {Key(a, id, SearchFeed)})
  }

  /** A scan under way: `advance` while every round so far was settled. */
  datatype Scan = Scan(desk: Desk, sent: seq<Sent>, latest: Round, advance: bool, complete: bool)

  function ScanFrom(s: Scan, t: Terms, w: World, m: Market, now: nat, id: nat, count: nat): Scan
    decreases count + 1 - id
  {
    if id > count then s
    else
      match w.roundAt(id)
      case Err => s.(complete := false)
      case Ok(r) =>
        var latest := if id == count then r else s.latest;
        if Terminal(r) then
          var desk := if s.advance then Passed(s.desk, m.address, id) else s.desk;
          ScanFrom(s.(desk := desk, latest := latest), t, w, m, now, id + 1, count)
        else
          var one := DriveRound(s.desk, t, w, m, id, r, now);
          ScanFrom(Scan(one.desk, s.sent + one.sent, latest, false, s.complete), t, w, m, now, id + 1, count)
  }

  function Start(d: Desk): nat {
    if d.cursor == 0 then 1 else d.cursor
  }

  predicate ShouldOpen(d: Desk, t: Terms, m: Market, latest: Round, now: nat) {
    t.cfg.openRounds && !d.retiring && !m.event && NeedsNewRound(latest, m.timing.entryCutoff, now)
  }

  function OpenRound(d: Desk, t: Terms, w: World, m: Market, now: nat): Outcome {
    match w.owned(0)
    case Err => Outcome(d, [])
    case Ok(false) => Outcome(d.(notOwner := true), [])
    case Ok(true) =>
      var mine := d.(notOwner := false);
      match SchedulePlan(m, w.opening.horizon, t.cfg)
      case Unplannable(_) => Outcome(mine, [])
      case Planned(entryWindow, observation) =>
        var s := NextSchedule(now, t.cfg.lead, entryWindow, observation);
        if ScheduleProblem(s, m.timing.entryCutoff, now).Some? then Outcome(mine, [])
        else
          match w.opening.gate
          case Err => Outcome(mine, [])
          case Ok(Refused(code)) => Outcome(mine.(refusal := Some(code)), [])
          case Ok(Allowed) =>
            var cleared := mine.(refusal := None);
            var key := Key(m.address, 0, OpenNext);
            if !Ready(cleared, key, w.wall) then Outcome(cleared, [])
            else if !m.strikeAtOpen then Send(cleared, t, w, key, OpenTx(s, None))
            else
              match w.opening.spot
              case Err => Outcome(cleared, [])
              case Ok(None) => Outcome(cleared, [])
              case Ok(Some(spot)) =>
                if StrikeFor(spot).None? then Outcome(cleared, [])
                else Send(cleared, t, w, key, OpenTx(s, StrikeFor(spot)))
  }

  /** A pass from a given desk: read the count, scan, note what is pending, perhaps open a round. */
  function Drive(d: Desk, t: Terms, w: World, m: Market, now: nat): Outcome {
    match w.count
    case Err => Outcome(d, [])
    case Ok(count) =>
      var s := ScanFrom(Scan(d, [], ZERO_ROUND, true, true), t, w, m, now, Start(d), count);
      if !s.complete then Outcome(s.desk, s.sent)
      else
        var noted := s.desk.(pending := !s.advance);
        if !ShouldOpen(noted, t, m, s.latest, now) then Outcome(noted, s.sent)
        else
          var newest := OpenRound(noted, t, w, m, now);
          Outcome(newest.desk, s.sent + newest.sent)
  }

  // ---- A market's seat: whether it is driven, and what is remembered of it ----------------------------

  datatype Seat = Absent | Driven(desk: Desk)

  /** Delisted markets leave once nothing is pending. */
  function Retired(seat: Seat): Seat {
    if seat.Driven? && seat.desk.retiring && !seat.desk.pending then Absent else seat
  }

  /** A registry read, as one market sees it. A newly listed one counts as pending until
      a complete pass has looked. */
  function Refreshed(seat: Seat, listed: bool, drivable: bool): Seat {
    match seat
    case Driven(d) =>
      if listed then Driven(d.(retiring := false))
      else if d.pending then Driven(d.(retiring := true))
      else Absent
    case Absent =>
      if listed && drivable then Driven(EMPTY_DESK.(pending := true)) else Absent
  }

  function DeskIn(seat: Seat): Desk {
    if seat.Driven? then seat.desk else EMPTY_DESK
  }
}
