/** The keeper's rules: what a round needs next, when a market needs another, and the schedule of
    that one (keeper/rules.go, and the planning half of keeper/keeper.go). */
module KeeperRules {
  import opened FixedPoint
  import opened Ledger

  datatype Status = NoRound | Open | Locked | Resolved | Void

  datatype Round = Round(openTime: nat, lockTime: nat, closeTime: nat, status: Status)

  /** What the zero value of a round reads as. */
  const ZERO_ROUND := Round(0, 0, 0, NoRound)

  predicate Terminal(r: Round) {
    r.status.Resolved? || r.status.Void?
  }

  datatype Timing = Timing(entryCutoff: nat, lockWindow: nat, resolveDeadline: nat)

  datatype Action = NoAction | LockIt | ResolveIt | RefundUnsettled | VoidUnlocked | OpenNext | SearchFeed

  function ActionFor(r: Round, t: Timing, now: nat): Action {
    match r.status
    case Open =>
      if now < r.lockTime then NoAction
      else if now > r.lockTime + t.lockWindow then VoidUnlocked
      else LockIt
    case Locked =>
      if now < r.closeTime then NoAction
      else if now > r.closeTime + t.resolveDeadline then RefundUnsettled
      else ResolveIt
    case _ => NoAction
  }

  /** The guards of the contract, as the comments on the rules state them. A lock past its window voids
      the round; both voids are refused before their time. */
  predicate ContractAccepts(r: Round, t: Timing, now: nat, a: Action) {
    match a
    case LockIt => r.status.Open? && now >= r.lockTime
    case VoidUnlocked => r.status.Open? && now > r.lockTime + t.lockWindow
    case ResolveIt => r.status.Locked? && now >= r.closeTime
    case RefundUnsettled => r.status.Locked? && now > r.closeTime + t.resolveDeadline
    case _ => false
  }

  function NeedsNewRound(latest: Round, entryCutoff: nat, now: nat): bool {
    !latest.status.Open? || now + entryCutoff >= latest.lockTime
  }

  /** Whether a round still takes entries: open, and before its cutoff. */
  predicate TakesEntries(r: Round, entryCutoff: nat, now: nat) {
    r.status.Open? && now + entryCutoff < r.lockTime
  }

  datatype Schedule = Schedule(openTime: nat, lockTime: nat, closeTime: nat)

  function NextSchedule(now: nat, lead: nat, entryWindow: nat, observation: nat): Schedule {
    var open := now + lead;
    var lock := open + entryWindow;
    Schedule(open, lock, lock + observation)
  }

  datatype Problem = OpensInThePast | OpensWithEntryClosed | NothingToObserve

  function ScheduleProblem(s: Schedule, entryCutoff: nat, now: nat): Option<Problem> {
    if s.openTime < now then Some(OpensInThePast)
    else if s.lockTime <= s.openTime + entryCutoff then Some(OpensWithEntryClosed)
    else if s.closeTime <= s.lockTime then Some(NothingToObserve)
    else None
  }

  /** A market's immutables. Its horizon is the registry's to change, so it travels separately. */
  datatype Market = Market(address: Address, event: bool, timing: Timing, strikeAtOpen: bool)

  /** Durations in nanoseconds, except the contract's own, which are in seconds. */
  datatype Config = Config(pollInterval: nat, openRounds: bool, lead: nat, entryWindow: nat, horizon: nat)

  const SECOND: nat := 1_000_000_000
  const BACKOFF_CEILING: nat := 30 * SECOND

  datatype Refusal =
    | PollTooSlow(lockWindow: nat)
    | NoHorizon
    | EntryNeverOpens(entryWindow: nat, entryCutoff: nat)
    | NoObservation(entryWindow: nat, horizon: nat)

  datatype Plan = Planned(entryWindow: nat, observation: nat) | Unplannable(why: Refusal)

  function SplitHorizon(horizon: nat, entryWindow: nat, entryCutoff: nat): Plan {
    var entry := if entryWindow == 0 then horizon / 2 else entryWindow;
    if entry <= entryCutoff then Unplannable(EntryNeverOpens(entry, entryCutoff))
    else if entry >= horizon then Unplannable(NoObservation(entry, horizon))
    else Planned(entry, horizon - entry)
  }

  /** The registry's horizon, or the configured one when it gives none. */
  function SchedulePlan(m: Market, horizon: nat, cfg: Config): Plan {
    var h := if horizon == 0 then cfg.horizon else horizon;
    if h == 0 then Unplannable(NoHorizon) else SplitHorizon(h, cfg.entryWindow, m.timing.entryCutoff)
  }

  function ValidateMarket(m: Market, horizon: nat, cfg: Config): Option<Refusal> {
    if cfg.pollInterval >= m.timing.lockWindow * SECOND then Some(PollTooSlow(m.timing.lockWindow))
    else if cfg.openRounds && !m.event then
      match SchedulePlan(m, horizon, cfg)
      case Unplannable(why) => Some(why)
      case Planned(_, _) => None
    else None
  }

  /** An enabled entry of the registry. */
  datatype Listing = Listing(market: Market, horizon: nat)

  predicate Drivable(l: Listing, cfg: Config) {
    ValidateMarket(l.market, l.horizon, cfg).None?
  }

  function Least(markets: seq<Market>): nat {
    if markets == [] then BACKOFF_CEILING
    else
      var rest := Least(markets[..|markets| - 1]);
      var third := markets[|markets| - 1].timing.lockWindow * SECOND / 3;
      if third < rest then third else rest
  }

  function BackoffLimit(markets: seq<Market>): nat {
    if Least(markets) < SECOND then SECOND else Least(markets)
  }

  // ---- Laws ------------------------------------------------------------------------------------

  /** The keeper proposes an action exactly when the contract would take one, and never one it would
      refuse; past a deadline it proposes the void rather than the ordinary action. */
  lemma ActionsAreAccepted(r: Round, t: Timing, now: nat)
    ensures ActionFor(r, t, now) != NoAction ==> ContractAccepts(r, t, now, ActionFor(r, t, now))
    ensures ActionFor(r, t, now) == NoAction <==> forall a :: !ContractAccepts(r, t, now, a)
    ensures ActionFor(r, t, now).LockIt? ==> !ContractAccepts(r, t, now, VoidUnlocked)
    ensures ActionFor(r, t, now).ResolveIt? ==> !ContractAccepts(r, t, now, RefundUnsettled)
  {
    if ActionFor(r, t, now) == NoAction {
      forall a: Action ensures !ContractAccepts(r, t, now, a) {
        match a { case LockIt => case _ => }
      }
    } else {
      assert ContractAccepts(r, t, now, ActionFor(r, t, now));
    }
  }

  /** A market is driven exactly when the keeper polls more often than the market's lock window and, if it is
      to open rounds there, the horizon (the registry's, or the configured one) leaves time for an entry window
      longer than the cutoff and for something to watch after it. The entry window is the configured one, or
      half the horizon. What is refused is refused for the first of those that fails. */
  lemma MarketsAreValidatedExactly(m: Market, horizon: nat, cfg: Config)
    ensures
      var h := if horizon > 0 then horizon else cfg.horizon;
      var entry := if cfg.entryWindow > 0 then cfg.entryWindow else h / 2;
      && (ValidateMarket(m, horizon, cfg).None? <==>
            && cfg.pollInterval < m.timing.lockWindow * 1_000_000_000
            && (cfg.openRounds && !m.event ==> m.timing.entryCutoff < entry < h))
      && (m.timing.entryCutoff < entry < h ==> SchedulePlan(m, horizon, cfg) == Planned(entry, h - entry))
      && (SchedulePlan(m, horizon, cfg).Planned? ==> m.timing.entryCutoff < entry < h)
      && (!(m.timing.entryCutoff < entry < h) ==>
            SchedulePlan(m, horizon, cfg) == Unplannable(
              if h == 0 then NoHorizon
              else if entry <= m.timing.entryCutoff then EntryNeverOpens(entry, m.timing.entryCutoff)
              else NoObservation(entry, h)))
      && (cfg.pollInterval >= m.timing.lockWindow * 1_000_000_000 ==>
            ValidateMarket(m, horizon, cfg) == Some(PollTooSlow(m.timing.lockWindow)))
  {}

  /** A market the keeper agreed to drive never has a schedule of its own refused, whatever the clock
      says; and the round it plans does take entries. */
  lemma AcceptedMarketsCanBeScheduled(m: Market, horizon: nat, cfg: Config, now: nat)
    requires ValidateMarket(m, horizon, cfg).None? && cfg.openRounds && !m.event
    ensures SchedulePlan(m, horizon, cfg).Planned?
    ensures
      var plan := SchedulePlan(m, horizon, cfg);
      var s := NextSchedule(now, cfg.lead, plan.entryWindow, plan.observation);
      && ScheduleProblem(s, m.timing.entryCutoff, now).None?
      && TakesEntries(Round(s.openTime, s.lockTime, s.closeTime, Open), m.timing.entryCutoff, s.openTime)
      && !NeedsNewRound(Round(s.openTime, s.lockTime, s.closeTime, Open), m.timing.entryCutoff, now)
  {}

  /** A schedule is let through exactly when it does not open in the past, the round it makes takes entries the
      moment it opens, and its lock leaves something to watch; otherwise the first of those is the problem. */
  lemma SchedulesAreCheckedExactly(s: Schedule, entryCutoff: nat, now: nat)
    ensures
      var problem := ScheduleProblem(s, entryCutoff, now);
      var takesEntries := TakesEntries(Round(s.openTime, s.lockTime, s.closeTime, Open), entryCutoff, s.openTime);
      && (problem.None? <==> now <= s.openTime && takesEntries && s.lockTime < s.closeTime)
      && (problem == Some(OpensInThePast) <==> s.openTime < now)
      && (problem == Some(OpensWithEntryClosed) <==> now <= s.openTime && !takesEntries)
  {}

  lemma {:induction false} LeastIsLeast(markets: seq<Market>, i: nat)
    requires i < |markets|
    ensures Least(markets) <= markets[i].timing.lockWindow * SECOND / 3
    ensures Least(markets) <= BACKOFF_CEILING
    decreases |markets|
  {
    if i < |markets| - 1 {
      LeastIsLeast(markets[..|markets| - 1], i);
    } else if |markets| > 1 {
      LeastIsLeast(markets[..|markets| - 1], 0);
    }
  }

  /** Any limit that is between a second and thirty and lets every market's lock window hold three waits. */
  predicate FitsAll(limit: nat, markets: seq<Market>) {
    && SECOND <= limit <= 30_000_000_000
    && forall i :: 0 <= i < |markets| ==> 3 * limit <= markets[i].timing.lockWindow * SECOND
  }

  lemma {:induction false} LeastIsAttained(markets: seq<Market>, limit: nat)
    requires limit <= BACKOFF_CEILING
    requires forall i :: 0 <= i < |markets| ==> 3 * limit <= markets[i].timing.lockWindow * SECOND
    ensures limit <= Least(markets)
    decreases |markets|
  {
    if markets != [] {
      var n := |markets| - 1;
      assert forall i :: 0 <= i < n ==> markets[..n][i] == markets[i];
      LeastIsAttained(markets[..n], limit);
    }
  }

  /** A backed-off action still gets three attempts inside every market's lock window, as long as that
      window is three seconds or more; and no longer limit would give them all as much. */
  lemma BackoffFitsTheLockWindow(markets: seq<Market>, i: nat)
    requires i < |markets| && markets[i].timing.lockWindow >= 3
    ensures 3 * BackoffLimit(markets) <= markets[i].timing.lockWindow * SECOND
    ensures SECOND <= BackoffLimit(markets) <= BACKOFF_CEILING
    ensures forall limit: nat :: FitsAll(limit, markets) ==> limit <= BackoffLimit(markets)
  {
    LeastIsLeast(markets, i);
    forall limit: nat | FitsAll(limit, markets) ensures limit <= BackoffLimit(markets) {
      LeastIsAttained(markets, limit);
    }
  }
}
