/** The laws of the two projections: they do not depend on the order events arrive in, one round
    depends only on its own events, they agree with each other on every stake, and what the API
    reports as claimable over all accounts is bounded by the pool. */
module ProjectionLaws {
  import opened FixedPoint
  import opened Ledger
  import opened Sorting
  import opened Projection
  import Parimutuel

  // ---- Order independence ------------------------------------------------------------------

  /** No two events come from the same log. */
  ghost predicate DistinctLogs(events: seq<RoundEvent>) {
    DistinctKeys(LogCoord, events)
  }

  lemma {:induction false} FilterKeepsDistinct<T>(key: T -> Coord, p: T -> bool, s: seq<T>)
    requires DistinctKeys(key, s)
    ensures DistinctKeys(key, Filter(p, s))
    ensures forall x :: x in Filter(p, s) ==> x in s
  {
    if s != [] {
      var rest := s[1..];
      assert s == [s[0]] + rest;
      FilterKeepsDistinct(key, p, rest);
      FilterCons(p, s[0], rest);
      forall x | x in Filter(p, rest)
        ensures key(x) != key(s[0])
      {
        var i :| 0 <= i < |rest| && rest[i] == x;
        assert s[i + 1] == x;
      }
    }
  }

  lemma {:induction false} FilterCounts<T>(p: T -> bool, s: seq<T>, x: T)
    ensures multiset(Filter(p, s))[x] == if p(x) then multiset(s)[x] else 0
  {
    if s != [] {
      assert s == [s[0]] + s[1..];
      FilterCons(p, s[0], s[1..]);
      FilterCounts(p, s[1..], x);
    }
  }

  lemma FilterKeepsPermutation<T(!new)>(p: T -> bool, a: seq<T>, b: seq<T>)
    requires multiset(a) == multiset(b)
    ensures multiset(Filter(p, a)) == multiset(Filter(p, b))
  {
    var m, n := multiset(Filter(p, a)), multiset(Filter(p, b));
    forall x ensures m[x] == n[x] {
      FilterCounts(p, a, x);
      FilterCounts(p, b, x);
    }
    SameCounts(m, n);
  }

  lemma SameCounts<T(!new)>(m: multiset<T>, n: multiset<T>)
    requires forall x :: m[x] == n[x]
    ensures m == n
  {
  }

  /** Any permutation of the events projects to the same list of rounds and the same positions. */
  lemma ProjectionsIgnoreOrder(a: seq<RoundEvent>, b: seq<RoundEvent>, roundsA: seq<Round>, roundsB: seq<Round>,
                               account: Address, ref: RoundRef)
    requires multiset(a) == multiset(b) && DistinctLogs(a)
    requires Projects(a, roundsA) && Projects(b, roundsB)
    ensures roundsA == roundsB
    ensures PositionOf(account, ref, a) == PositionOf(account, ref, b)
  {
    SortIsCanonical(LogCoord, a, b);
    assert forall k :: 0 <= k < |roundsA| ==> Some(roundsA[k]) == Some(roundsB[k]);
    FilterKeepsDistinct(LogCoord, Naming(account), a);
    FilterKeepsPermutation(Naming(account), a, b);
    SortIsCanonical(LogCoord, Filter(Naming(account), a), Filter(Naming(account), b));
  }

  // ---- Locality ----------------------------------------------------------------------------

  function OfRound(ref: RoundRef): RoundEvent -> bool {
    (e: RoundEvent) => RefOf(e) == ref
  }

  lemma {:induction false} FoldRoundIsLocal(r: Option<Round>, ref: RoundRef, events: seq<RoundEvent>)
    ensures FoldRound(r, ref, Filter(OfRound(ref), events)) == FoldRound(r, ref, events)
    decreases |events|
  {
    if events != [] {
      var e, rest := events[0], events[1..];
      var kept := Filter(OfRound(ref), rest);
      assert events == [e] + rest;
      FilterCons(OfRound(ref), e, rest);
      FoldRoundIsLocal(if RefOf(e) == ref then Some(Absorb(r, e)) else r, ref, rest);
      if RefOf(e) == ref { assert ([e] + kept)[1..] == kept; }
    }
  }

  lemma {:induction false} FoldPositionIsLocal(i: Option<Involvement>, account: Address, ref: RoundRef,
                                               events: seq<RoundEvent>)
    ensures FoldPosition(i, account, ref, Filter(OfRound(ref), events)) == FoldPosition(i, account, ref, events)
    decreases |events|
  {
    if events != [] {
      var e, rest := events[0], events[1..];
      var kept := Filter(OfRound(ref), rest);
      assert events == [e] + rest;
      FilterCons(OfRound(ref), e, rest);
      FoldPositionIsLocal(if RefOf(e) == ref then Some(Touch(i, account, e)) else i, account, ref, rest);
      if RefOf(e) == ref { assert ([e] + kept)[1..] == kept; }
    }
  }

  lemma {:induction false} FiltersCommute<T>(p: T -> bool, q: T -> bool, s: seq<T>)
    ensures Filter(p, Filter(q, s)) == Filter(q, Filter(p, s))
  {
    if s != [] {
      assert s == [s[0]] + s[1..];
      FiltersCommute(p, q, s[1..]);
      FilterCons(p, s[0], s[1..]);
      FilterCons(q, s[0], s[1..]);
      FilterCons(p, s[0], Filter(q, s[1..]));
      FilterCons(q, s[0], Filter(p, s[1..]));
    }
  }

  /** A round, and any account's position in it, depend only on that (market, round)'s events:
      another market's round of the same number cannot reach them. */
  lemma RoundsAreIndependent(ref: RoundRef, a: seq<RoundEvent>, b: seq<RoundEvent>, account: Address)
    requires Filter(OfRound(ref), a) == Filter(OfRound(ref), b)
    ensures RoundOf(ref, a) == RoundOf(ref, b)
    ensures PositionOf(account, ref, a) == PositionOf(account, ref, b)
  {
    RoundOfIsLocal(ref, a);
    RoundOfIsLocal(ref, b);
    PositionOfIsLocal(account, ref, a);
    PositionOfIsLocal(account, ref, b);
  }

  lemma RoundOfIsLocal(ref: RoundRef, events: seq<RoundEvent>)
    ensures RoundOf(ref, events) == RoundOf(ref, Filter(OfRound(ref), events))
  {
    FilterSort(LogCoord, OfRound(ref), events);
    FoldRoundIsLocal(None, ref, Sort(LogCoord, events));
  }

  lemma PositionOfIsLocal(account: Address, ref: RoundRef, events: seq<RoundEvent>)
    ensures PositionOf(account, ref, events) == PositionOf(account, ref, Filter(OfRound(ref), events))
  {
    var mine := Filter(Naming(account), events);
    FilterSort(LogCoord, OfRound(ref), mine);
    FoldPositionIsLocal(None, account, ref, Sort(LogCoord, mine));
    FiltersCommute(OfRound(ref), Naming(account), events);
  }

  // ---- Which rounds, and in which order ------------------------------------------------------------

  ghost predicate Mentions(events: seq<RoundEvent>, ref: RoundRef) {
    exists e :: e in events && RefOf(e) == ref
  }

  /** Named after its round, and stamped with the highest block that says anything of it. */
  ghost predicate NamedAndStamped(r: Round, ref: RoundRef, events: seq<RoundEvent>) {
    && r.market == ref.market && r.roundID == ref.roundID
    && (forall e :: e in events && RefOf(e) == ref ==> e.prov.blockNumber <= r.lastBlock)
    && (r.lastBlock == 0 || exists e :: e in events && RefOf(e) == ref && e.prov.blockNumber == r.lastBlock)
  }

  lemma AbsorbStamps(r: Option<Round>, ref: RoundRef, events: seq<RoundEvent>, e: RoundEvent)
    requires RefOf(e) == ref && (r.None? ==> !Mentions(events, ref))
    requires r.Some? ==> NamedAndStamped(r.value, ref, events)
    ensures NamedAndStamped(Absorb(r, e), ref, events + [e])
  {
    hide BigField, Text;
    var more := events + [e];
    assert forall x :: x in more <==> x in events || x == e;
  }

  lemma {:induction false} FoldStamps(r: Option<Round>, ref: RoundRef, met: seq<RoundEvent>, events: seq<RoundEvent>)
    requires r.Some? <==> Mentions(met, ref)
    requires r.Some? ==> NamedAndStamped(r.value, ref, met)
    ensures
      var r' := FoldRound(r, ref, events);
      (r'.Some? <==> Mentions(met + events, ref)) && (r'.Some? ==> NamedAndStamped(r'.value, ref, met + events))
    decreases |events|
  {
    hide Absorb, NamedAndStamped;
    if events == [] {
      assert met + events == met;
    } else {
      var e := events[0];
      var met' := met + [e];
      assert met' + events[1..] == met + events && (forall x :: x in met' <==> x in met || x == e);
      if RefOf(e) == ref {
        AbsorbStamps(r, ref, met, e);
        FoldStamps(Some(Absorb(r, e)), ref, met', events[1..]);
      } else {
        if r.Some? { StampedStill(r.value, ref, met, e); }
        FoldStamps(r, ref, met', events[1..]);
      }
    }
  }

  lemma StampedStill(r: Round, ref: RoundRef, events: seq<RoundEvent>, e: RoundEvent)
    requires NamedAndStamped(r, ref, events) && RefOf(e) != ref
    ensures NamedAndStamped(r, ref, events + [e])
  {
    assert forall x :: x in events + [e] <==> x in events || x == e;
  }

  /** A round is reported exactly when some event mentions it, under its own market and number and with the
      highest block that does. */
  lemma RoundsAreThoseMentioned(ref: RoundRef, events: seq<RoundEvent>)
    ensures RoundOf(ref, events).Some? <==> Mentions(events, ref)
    ensures RoundOf(ref, events).Some? ==> NamedAndStamped(RoundOf(ref, events).value, ref, events)
  {
    hide FoldRound;
    var sorted := Sort(LogCoord, events);
    SortMembers(LogCoord, events);
    FoldStamps(None, ref, [], sorted);
    assert [] + sorted == sorted;
  }

  /** How far into the events a round is first mentioned. */
  function FirstMention(ref: RoundRef, events: seq<RoundEvent>): nat {
    if events == [] || RefOf(events[0]) == ref then 0 else 1 + FirstMention(ref, events[1..])
  }

  predicate ByFirstMention(refs: seq<RoundRef>, events: seq<RoundEvent>) {
    forall i, j :: 0 <= i < j < |refs| ==> FirstMention(refs[i], events) < FirstMention(refs[j], events)
  }

  lemma {:induction false} FirstMentionOfMore(ref: RoundRef, met: seq<RoundEvent>, rest: seq<RoundEvent>)
    ensures FirstMention(ref, met) <= |met|
    ensures FirstMention(ref, met) < |met| <==> Mentions(met, ref)
    ensures Mentions(met, ref) ==> FirstMention(ref, met + rest) == FirstMention(ref, met)
    ensures !Mentions(met, ref) ==> FirstMention(ref, met + rest) == |met| + FirstMention(ref, rest)
  {
    if met == [] {
      assert met + rest == rest;
    } else {
      assert (met + rest)[1..] == met[1..] + rest;
      assert met == [met[0]] + met[1..];
      FirstMentionOfMore(ref, met[1..], rest);
    }
  }

  lemma {:induction false} RefsInOrder(seen: seq<RoundRef>, met: seq<RoundEvent>, rest: seq<RoundEvent>)
    requires (forall ref :: ref in seen <==> Mentions(met, ref)) && ByFirstMention(seen, met + rest)
    ensures
      var refs := RefsFrom(seen, rest);
      (forall ref :: ref in refs <==> Mentions(met + rest, ref)) && ByFirstMention(refs, met + rest)
    decreases |rest|
  {
    if rest == [] {
      assert met + rest == met;
    } else {
      var e := rest[0];
      var met' := met + [e];
      assert met' + rest[1..] == met + rest && (forall x :: x in met' <==> x in met || x == e);
      var seen' := if RefOf(e) in seen then seen else seen + [RefOf(e)];
      if RefOf(e) !in seen {
        FirstMentionOfMore(RefOf(e), met, rest);
        forall i | 0 <= i < |seen| ensures FirstMention(seen[i], met + rest) < FirstMention(RefOf(e), met + rest) {
          assert seen[i] in seen;
          FirstMentionOfMore(seen[i], met, rest);
        }
      }
      assert forall ref :: ref in seen' <==> Mentions(met', ref);
      RefsInOrder(seen', met', rest[1..]);
    }
  }

  /** The rounds listed are those mentioned, each once, in the order of their first logs. */
  lemma RoundsComeInOrder(events: seq<RoundEvent>)
    ensures forall ref :: ref in RefsOf(events) <==> Mentions(events, ref)
    ensures ByFirstMention(RefsOf(events), Sort(LogCoord, events))
  {
    var sorted := Sort(LogCoord, events);
    SortMembers(LogCoord, events);
    RefsInOrder([], [], sorted);
    assert [] + sorted == sorted;
  }

  // ---- Stakes add up to pools --------------------------------------------------------------

  /** What one event stakes on a side of a round. */
  function StakeIn(side: Side, ref: RoundRef, e: RoundEvent): nat {
    if e.prov.eventName.PositionTaken? && RefOf(e) == ref && e.body.side == side then e.body.amount.GetOr(0) else 0
  }

  function Pooled(side: Side, ref: RoundRef, events: seq<RoundEvent>): nat {
    if events == [] then 0 else StakeIn(side, ref, events[0]) + Pooled(side, ref, events[1..])
  }

  function Staked(side: Side, ref: RoundRef, account: Address, events: seq<RoundEvent>): nat {
    if events == [] then 0
    else
      (if events[0].body.account == account then StakeIn(side, ref, events[0]) else 0)
      + Staked(side, ref, account, events[1..])
  }

  lemma {:induction false} PoolsAreSums(r: Option<Round>, ref: RoundRef, events: seq<RoundEvent>)
    ensures
      var was := r.GetOr(NewRound(ref));
      var now := FoldRound(r, ref, events).GetOr(NewRound(ref));
      now.upPool == was.upPool + Pooled(Up, ref, events) && now.downPool == was.downPool + Pooled(Down, ref, events)
    decreases |events|
  {
    if events != [] {
      PoolsAreSums(if RefOf(events[0]) == ref then Some(Absorb(r, events[0])) else r, ref, events[1..]);
    }
  }

  function UpOf(i: Option<Involvement>): nat {
    if i.Some? then i.value.position.upStake else 0
  }

  function DownOf(i: Option<Involvement>): nat {
    if i.Some? then i.value.position.downStake else 0
  }

  /** Only a stake makes a position, and nothing else moves its stakes. */
  ghost predicate Consistent(i: Option<Involvement>) {
    i.Some? && !i.value.staked ==> i.value.position.upStake == 0 && i.value.position.downStake == 0
  }

  lemma TouchStakes(i: Option<Involvement>, account: Address, ref: RoundRef, e: RoundEvent)
    requires Consistent(i) && RefOf(e) == ref
    ensures
      var j := Some(Touch(i, account, e));
      Consistent(j) && UpOf(j) == UpOf(i) + StakeIn(Up, ref, e) && DownOf(j) == DownOf(i) + StakeIn(Down, ref, e)
  {
  }

  lemma {:induction false} StakesAreSums(i: Option<Involvement>, account: Address, ref: RoundRef,
                                         events: seq<RoundEvent>)
    requires Consistent(i)
    requires account != ""
    ensures
      var j := FoldPosition(i, account, ref, Filter(Naming(account), events));
      && Consistent(j)
      && UpOf(j) == UpOf(i) + Staked(Up, ref, account, events)
      && DownOf(j) == DownOf(i) + Staked(Down, ref, account, events)
    decreases |events|
  {
    if events != [] {
      var e, rest := events[0], events[1..];
      var kept := Filter(Naming(account), rest);
      assert events == [e] + rest;
      FilterCons(Naming(account), e, rest);
      if e.body.account == account {
        assert ([e] + kept)[1..] == kept;
        if RefOf(e) == ref { TouchStakes(i, account, ref, e); }
        hide Touch, StakeIn, Consistent;
        StakesAreSums(if RefOf(e) == ref then Some(Touch(i, account, e)) else i, account, ref, rest);
      } else {
        StakesAreSums(i, account, ref, rest);
      }
    }
  }

  function UpStakeOf(account: Address, ref: RoundRef, events: seq<RoundEvent>): nat {
    match PositionOf(account, ref, events) case Some(p) => p.upStake case None => 0
  }

  function DownStakeOf(account: Address, ref: RoundRef, events: seq<RoundEvent>): nat {
    match PositionOf(account, ref, events) case Some(p) => p.downStake case None => 0
  }

  lemma PositionStakes(account: Address, ref: RoundRef, events: seq<RoundEvent>)
    requires account != ""
    ensures UpStakeOf(account, ref, events) == Staked(Up, ref, account, Sort(LogCoord, events))
    ensures DownStakeOf(account, ref, events) == Staked(Down, ref, account, Sort(LogCoord, events))
  {
    FilterSort(LogCoord, Naming(account), events);
    StakesAreSums(None, account, ref, Sort(LogCoord, events));
  }

  /** `accounts` lists, once each, at least every account that staked in the round. */
  ghost predicate Covers(accounts: seq<Address>, ref: RoundRef, events: seq<RoundEvent>) {
    && (forall i, j :: 0 <= i < |accounts| && 0 <= j < |accounts| && i != j ==> accounts[i] != accounts[j])
    && "" !in accounts
    && forall e :: e in events && e.prov.eventName.PositionTaken? && RefOf(e) == ref ==> e.body.account in accounts
  }

  function TotalStaked(side: Side, ref: RoundRef, accounts: seq<Address>, events: seq<RoundEvent>): nat {
    if accounts == [] then 0
    else Staked(side, ref, accounts[0], events) + TotalStaked(side, ref, accounts[1..], events)
  }

  /** One event's stake is counted for exactly the one account it names. */
  lemma {:induction false} OneEventOneAccount(side: Side, ref: RoundRef, accounts: seq<Address>,
                                              events: seq<RoundEvent>)
    requires events != []
    requires forall i, j :: 0 <= i < |accounts| && 0 <= j < |accounts| && i != j ==> accounts[i] != accounts[j]
    ensures TotalStaked(side, ref, accounts, events) == TotalStaked(side, ref, accounts, events[1..])
              + (if events[0].body.account in accounts then StakeIn(side, ref, events[0]) else 0)
  {
    if accounts != [] {
      var rest := accounts[1..];
      assert forall i :: 0 <= i < |rest| ==> rest[i] == accounts[i + 1];
      assert accounts[0] !in rest;
      OneEventOneAccount(side, ref, rest, events);
      assert accounts == [accounts[0]] + rest;
    }
  }

  lemma {:induction false} StakesCoverThePool(side: Side, ref: RoundRef, accounts: seq<Address>,
                                              events: seq<RoundEvent>)
    requires Covers(accounts, ref, events)
    ensures TotalStaked(side, ref, accounts, events) == Pooled(side, ref, events)
    decreases |events|
  {
    if events == [] {
      NothingStaked(side, ref, accounts);
    } else {
      assert events == [events[0]] + events[1..];
      StakesCoverThePool(side, ref, accounts, events[1..]);
      OneEventOneAccount(side, ref, accounts, events);
      assert events[0] in events;
    }
  }

  lemma {:induction false} NothingStaked(side: Side, ref: RoundRef, accounts: seq<Address>)
    ensures TotalStaked(side, ref, accounts, []) == 0
  {
    if accounts != [] { NothingStaked(side, ref, accounts[1..]); }
  }

  /** The finance package's view of each account's position, as the API builds it. */
  function PositionsOf(accounts: seq<Address>, ref: RoundRef, events: seq<RoundEvent>): seq<Parimutuel.Position> {
    if accounts == [] then []
    else [FinancePosition(PositionOf(accounts[0], ref, events))] + PositionsOf(accounts[1..], ref, events)
  }

  function FinancePosition(p: Option<AccountPosition>): Parimutuel.Position {
    if p.Some? then Parimutuel.Position(p.value.upStake, p.value.downStake, p.value.claimed)
    else Parimutuel.Position(0, 0, false)
  }

  lemma {:induction false} PositionsSum(accounts: seq<Address>, ref: RoundRef, events: seq<RoundEvent>)
    requires "" !in accounts
    ensures Parimutuel.SumUp(PositionsOf(accounts, ref, events)) ==
      TotalStaked(Up, ref, accounts, Sort(LogCoord, events))
    ensures Parimutuel.SumDown(PositionsOf(accounts, ref, events)) ==
      TotalStaked(Down, ref, accounts, Sort(LogCoord, events))
  {
    if accounts != [] {
      assert accounts[0] in accounts && forall a :: a in accounts[1..] ==> a in accounts;
      PositionStakes(accounts[0], ref, events);
      PositionsSum(accounts[1..], ref, events);
      var ps := PositionsOf(accounts, ref, events);
      assert ps[1..] == PositionsOf(accounts[1..], ref, events);
    }
  }

  /** Summed over every account that staked, the positions hold exactly the round's two pools. */
  lemma PositionsAddUpToPools(accounts: seq<Address>, ref: RoundRef, events: seq<RoundEvent>)
    requires Covers(accounts, ref, events)
    requires RoundOf(ref, events).Some?
    ensures Parimutuel.SumUp(PositionsOf(accounts, ref, events)) == RoundOf(ref, events).value.upPool
    ensures Parimutuel.SumDown(PositionsOf(accounts, ref, events)) == RoundOf(ref, events).value.downPool
  {
    var sorted := Sort(LogCoord, events);
    PositionsSum(accounts, ref, events);
    SortMembers(LogCoord, events);
    assert Covers(accounts, ref, sorted);
    StakesCoverThePool(Up, ref, accounts, sorted);
    StakesCoverThePool(Down, ref, accounts, sorted);
    PoolsAreSums(None, ref, sorted);
  }

  /** What the API reports as claimable, over all accounts, together with what the accounts shown as having
      claimed were owed: never more than the pool less the rake of a resolved round, and all of it but less
      than one unit a winner; exactly the pool of a voided one; nothing before that. */
  lemma ReportedClaimsAreBounded(accounts: seq<Address>, ref: RoundRef, events: seq<RoundEvent>, rakeTaken: nat)
    requires Covers(accounts, ref, events)
    requires RoundOf(ref, events).Some?
    requires
      var r := RoundOf(ref, events).value;
      r.rakeTaken.GetOr(0) == rakeTaken <= r.upPool + r.downPool
    ensures
      var r := RoundOf(ref, events).value;
      var ps := PositionsOf(accounts, ref, events);
      var all := Parimutuel.TotalClaimable(ps, r.status, r.winner, r.upPool, r.downPool, rakeTaken)
               + Parimutuel.TotalPaid(ps, r.status, r.winner, r.upPool, r.downPool, rakeTaken);
      && (r.status.Resolved? ==>
            && all <= r.upPool + r.downPool - rakeTaken
            && (Parimutuel.Winners(ps, r.winner) > 0 ==>
                  r.upPool + r.downPool - rakeTaken - all < Parimutuel.Winners(ps, r.winner)))
      && (!r.status.Resolved? ==> all == if r.status.Void? then r.upPool + r.downPool else 0)
  {
    var r := RoundOf(ref, events).value;
    var ps := PositionsOf(accounts, ref, events);
    PositionsAddUpToPools(accounts, ref, events);
    if r.status.Resolved? {
      Parimutuel.PayoutsConserveThePool(ps, r.winner, r.upPool, r.downPool, rakeTaken);
    } else {
      Parimutuel.VoidRefundsThePool(ps, r.status, r.winner, r.upPool, r.downPool, rakeTaken);
    }
  }
}
