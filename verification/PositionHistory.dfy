/** What an account's position in a round is, in terms of the events that name it and of the logs they were
    decoded from: stakes, claims and leverage, whatever else is stored and in whatever order
    (ledger/rounds.go, indexer/rounds.go). */
module PositionHistory {
  import opened FixedPoint
  import opened Ledger
  import opened Decimal
  import opened Chain
  import opened Decoder
  import opened Sorting
  import opened Projection
  import opened ProjectionLaws
  import opened RoundHistory

  // ---- Sums over events ------------------------------------------------------------------------------

  function SumOver(f: RoundEvent -> nat, events: seq<RoundEvent>): nat {
    if events == [] then 0 else f(events[0]) + SumOver(f, events[1..])
  }

  lemma {:induction false} SumJoins(f: RoundEvent -> nat, a: seq<RoundEvent>, b: seq<RoundEvent>)
    ensures SumOver(f, a + b) == SumOver(f, a) + SumOver(f, b)
  {
    if a == [] {
      assert a + b == b;
    } else {
      assert (a + b)[1..] == a[1..] + b;
      SumJoins(f, a[1..], b);
    }
  }

  lemma SumWithout(f: RoundEvent -> nat, b: seq<RoundEvent>, i: nat)
    requires i < |b|
    ensures SumOver(f, b) == f(b[i]) + SumOver(f, b[..i] + b[i + 1..])
  {
    assert b == b[..i] + b[i..] && b[i..][1..] == b[i + 1..];
    SumJoins(f, b[..i], b[i..]);
    SumJoins(f, b[..i], b[i + 1..]);
  }

  lemma BagWithout(b: seq<RoundEvent>, i: nat)
    requires i < |b|
    ensures multiset(b[..i] + b[i + 1..]) == multiset(b) - multiset{b[i]}
  {
    assert b == b[..i] + [b[i]] + b[i + 1..];
  }

  /** A sum does not depend on the order. */
  lemma {:induction false} SumPermutes(f: RoundEvent -> nat, a: seq<RoundEvent>, b: seq<RoundEvent>)
    requires multiset(a) == multiset(b)
    ensures SumOver(f, a) == SumOver(f, b)
    decreases |a|
  {
    hide SumOver;
    if a == [] {
      assert |multiset(b)| == 0;
    } else {
      assert a[0] in multiset(b);
      var i :| 0 <= i < |b| && b[i] == a[0];
      SumWithout(f, a, 0);
      SumWithout(f, b, i);
      BagWithout(a, 0);
      BagWithout(b, i);
      SumPermutes(f, a[..0] + a[1..], b[..i] + b[i + 1..]);
    }
  }

  /** Nor on events that add nothing. */
  lemma {:induction false} SumFilters(f: RoundEvent -> nat, p: RoundEvent -> bool, events: seq<RoundEvent>)
    requires forall e :: !p(e) ==> f(e) == 0
    ensures SumOver(f, Filter(p, events)) == SumOver(f, events)
  {
    if events != [] {
      assert events == [events[0]] + events[1..];
      FilterCons(p, events[0], events[1..]);
      SumFilters(f, p, events[1..]);
    }
  }

  // ---- What one event says of a position -------------------------------------------------------------

  predicate Names(e: RoundEvent, account: Address, ref: RoundRef) {
    e.body.account == account && RefOf(e) == ref
  }

  predicate Stakes(e: RoundEvent, account: Address, ref: RoundRef) {
    Names(e, account, ref) && e.prov.eventName.PositionTaken? && e.body.amount.Some?
  }

  predicate Claims(e: RoundEvent, account: Address, ref: RoundRef) {
    Names(e, account, ref) && e.prov.eventName.Claimed?
  }

  /** Somebody else paid for it. */
  predicate Borrowed(e: RoundEvent, account: Address, ref: RoundRef) {
    Stakes(e, account, ref) && Text(e.body.data, Funder) !in {"", account}
  }

  function StakeOnSide(side: Side, account: Address, ref: RoundRef): RoundEvent -> nat {
    (e: RoundEvent) => if Stakes(e, account, ref) && e.body.side == side then e.body.amount.value else 0
  }

  function ClaimBy(account: Address, ref: RoundRef): RoundEvent -> nat {
    (e: RoundEvent) => if Claims(e, account, ref) then e.body.amount.GetOr(0) else 0
  }

  predicate Staker(events: seq<RoundEvent>, account: Address, ref: RoundRef) {
    exists e :: e in events && Stakes(e, account, ref)
  }

  predicate Claimer(events: seq<RoundEvent>, account: Address, ref: RoundRef) {
    exists e :: e in events && Claims(e, account, ref)
  }

  predicate Borrower(events: seq<RoundEvent>, account: Address, ref: RoundRef) {
    exists e :: e in events && Borrowed(e, account, ref)
  }

  /** The position reports exactly what the events say: how much, on which side, who paid, and what was
      claimed. */
  predicate Tells(p: AccountPosition, account: Address, ref: RoundRef, events: seq<RoundEvent>) {
    && p.account == account && p.market == ref.market && p.roundID == ref.roundID
    && p.upStake == SumOver(StakeOnSide(Up, account, ref), events)
    && p.downStake == SumOver(StakeOnSide(Down, account, ref), events)
    && (p.claimed <==> Claimer(events, account, ref))
    && p.claimedAmount == SumOver(ClaimBy(account, ref), events)
    && (p.leveraged <==> Borrower(events, account, ref))
  }

  /** As far as the fold has got. */
  predicate Folded(i: Option<Involvement>, account: Address, ref: RoundRef, events: seq<RoundEvent>) {
    && (i.None? <==> forall e :: e in events ==> !Names(e, account, ref))
    && (i.Some? ==> (i.value.staked <==> Staker(events, account, ref)) && Tells(i.value.position, account, ref, events))
  }

  lemma TouchTells(i: Option<Involvement>, account: Address, ref: RoundRef, events: seq<RoundEvent>, e: RoundEvent)
    requires Folded(i, account, ref, events) && Names(e, account, ref)
    ensures Folded(Some(Touch(i, account, e)), account, ref, events + [e])
  {
    Snoc(account, ref, events, e);
    if i.None? { NothingToTell(i, account, ref, events); }
  }

  lemma NothingToTell(i: Option<Involvement>, account: Address, ref: RoundRef, events: seq<RoundEvent>)
    requires Folded(i, account, ref, events) && i.None?
    ensures !Staker(events, account, ref) && !Claimer(events, account, ref) && !Borrower(events, account, ref)
    ensures SumOver(StakeOnSide(Up, account, ref), events) == 0 && SumOver(StakeOnSide(Down, account, ref), events) == 0
    ensures SumOver(ClaimBy(account, ref), events) == 0
  {
    NothingAdds(StakeOnSide(Up, account, ref), events);
    NothingAdds(StakeOnSide(Down, account, ref), events);
    NothingAdds(ClaimBy(account, ref), events);
  }

  lemma {:induction false} NothingAdds(f: RoundEvent -> nat, events: seq<RoundEvent>)
    requires forall e :: e in events ==> f(e) == 0
    ensures SumOver(f, events) == 0
  {
    if events != [] { NothingAdds(f, events[1..]); }
  }

  lemma Snoc(account: Address, ref: RoundRef, events: seq<RoundEvent>, e: RoundEvent)
    ensures
      var more := events + [e];
      && (Staker(more, account, ref) <==> Staker(events, account, ref) || Stakes(e, account, ref))
      && (Claimer(more, account, ref) <==> Claimer(events, account, ref) || Claims(e, account, ref))
      && (Borrower(more, account, ref) <==> Borrower(events, account, ref) || Borrowed(e, account, ref))
      && (forall side :: SumOver(StakeOnSide(side, account, ref), more)
            == SumOver(StakeOnSide(side, account, ref), events) + StakeOnSide(side, account, ref)(e))
      && SumOver(ClaimBy(account, ref), more) == SumOver(ClaimBy(account, ref), events) + ClaimBy(account, ref)(e)
  {
    var more := events + [e];
    assert e in more && (forall x :: x in more <==> x in events || x == e);
    forall side ensures SumOver(StakeOnSide(side, account, ref), more)
      == SumOver(StakeOnSide(side, account, ref), events) + StakeOnSide(side, account, ref)(e)
    {
      SumJoins(StakeOnSide(side, account, ref), events, [e]);
    }
    SumJoins(ClaimBy(account, ref), events, [e]);
  }

  // ---- Over all the events -------------------------------------------------------------------------

  predicate AllName(mine: seq<RoundEvent>, account: Address, ref: RoundRef) {
    forall e :: e in mine ==> Names(e, account, ref)
  }

  lemma {:induction false} FoldSnoc(i: Option<Involvement>, account: Address, ref: RoundRef, mine: seq<RoundEvent>,
                                    e: RoundEvent)
    requires RefOf(e) == ref
    ensures FoldPosition(i, account, ref, mine + [e]) == Some(Touch(FoldPosition(i, account, ref, mine), account, e))
    decreases |mine|
  {
    if mine == [] {
      assert (mine + [e])[1..] == [];
    } else {
      assert (mine + [e])[1..] == mine[1..] + [e];
      FoldSnoc(if RefOf(mine[0]) == ref then Some(Touch(i, account, mine[0])) else i, account, ref, mine[1..], e);
    }
  }

  /** It was opened at the first event, last touched at the last, and knows the highest block. */
  predicate Timed(p: AccountPosition, mine: seq<RoundEvent>) {
    && mine != []
    && p.openedAt == mine[0].prov.blockTime && p.lastTime == mine[|mine| - 1].prov.blockTime
    && (forall e :: e in mine ==> e.prov.blockNumber <= p.lastBlock)
    && (p.lastBlock == 0 || exists e :: e in mine && e.prov.blockNumber == p.lastBlock)
  }

  lemma TouchIsTimed(i: Option<Involvement>, account: Address, mine: seq<RoundEvent>, e: RoundEvent)
    requires if mine == [] then i.None? else i.Some? && Timed(i.value.position, mine)
    ensures Timed(Touch(i, account, e).position, mine + [e])
  {
    var more := mine + [e];
    assert e in more && (forall x :: x in more <==> x in mine || x == e);
    assert mine != [] ==> more[0] == mine[0];
  }

  lemma {:induction false} FoldTells(account: Address, ref: RoundRef, mine: seq<RoundEvent>)
    requires AllName(mine, account, ref)
    ensures Folded(FoldPosition(None, account, ref, mine), account, ref, mine)
    ensures mine == [] <==> FoldPosition(None, account, ref, mine).None?
    ensures mine != [] ==> Timed(FoldPosition(None, account, ref, mine).value.position, mine)
    decreases |mine|
  {
    hide Folded, Timed, Touch;
    if mine == [] {
      assert Folded(None, account, ref, []) by { NothingFolded(account, ref); }
    } else {
      var before, e := mine[..|mine| - 1], mine[|mine| - 1];
      assert mine == before + [e] && e in mine;
      assert AllName(before, account, ref) by { forall x | x in before ensures x in mine {} }
      FoldTells(account, ref, before);
      FoldSnoc(None, account, ref, before, e);
      var i := FoldPosition(None, account, ref, before);
      TouchTells(i, account, ref, before, e);
      TouchIsTimed(i, account, before, e);
    }
  }

  lemma NothingFolded(account: Address, ref: RoundRef)
    ensures Folded(None, account, ref, [])
  {}

  /** The events naming an account in a round, in log order. */
  function Mine(account: Address, ref: RoundRef, events: seq<RoundEvent>): seq<RoundEvent> {
    Filter(OfRound(ref), Sort(LogCoord, Filter(Naming(account), events)))
  }

  lemma MineAreNaming(account: Address, ref: RoundRef, events: seq<RoundEvent>)
    requires account != ""
    ensures AllName(Mine(account, ref, events), account, ref)
    ensures forall e :: e in Mine(account, ref, events) <==> e in events && Names(e, account, ref)
  {
    var named := Filter(Naming(account), events);
    forall e ensures e in Mine(account, ref, events) <==> e in events && Names(e, account, ref) {
      FilterMember(OfRound(ref), Sort(LogCoord, named), e);
      SortMembers(LogCoord, named);
      FilterMember(Naming(account), events, e);
    }
  }

  lemma SumOfMine(f: RoundEvent -> nat, account: Address, ref: RoundRef, events: seq<RoundEvent>)
    requires account != "" && forall e :: !Names(e, account, ref) ==> f(e) == 0
    ensures SumOver(f, Mine(account, ref, events)) == SumOver(f, events)
  {
    var named := Filter(Naming(account), events);
    SortSorts(LogCoord, named);
    SumFilters(f, OfRound(ref), Sort(LogCoord, named));
    SumPermutes(f, Sort(LogCoord, named), named);
    SumFilters(f, Naming(account), events);
  }

  /** It was opened at the account's first event in the round and last touched at its last. */
  ghost predicate Dated(p: AccountPosition, account: Address, ref: RoundRef, events: seq<RoundEvent>) {
    exists first, last :: Spans(first, last, account, ref, events)
      && p.openedAt == first.prov.blockTime && p.lastTime == last.prov.blockTime
      && p.lastBlock == last.prov.blockNumber
  }

  ghost predicate Spans(first: RoundEvent, last: RoundEvent, account: Address, ref: RoundRef, events: seq<RoundEvent>) {
    && first in events && last in events && Names(first, account, ref) && Names(last, account, ref)
    && forall e :: e in events && Names(e, account, ref) ==>
         !Before(LogCoord(e), LogCoord(first)) && !Before(LogCoord(last), LogCoord(e))
  }

  lemma {:induction false} NothingAfterTheLast(s: seq<RoundEvent>)
    requires Sorted(LogCoord, s) && s != []
    ensures forall e :: e in s ==> !Before(LogCoord(s[|s| - 1]), LogCoord(e)) && !Before(LogCoord(e), LogCoord(s[0]))
  {
    if |s| > 1 {
      NothingAfterTheLast(s[1..]);
      assert s == [s[0]] + s[1..] && s[1..][|s| - 2] == s[|s| - 1] && s[|s| - 1] in s[1..];
    }
  }

  lemma MineAreInOrder(account: Address, ref: RoundRef, events: seq<RoundEvent>)
    ensures Sorted(LogCoord, Mine(account, ref, events))
  {
    FilterSort(LogCoord, OfRound(ref), Filter(Naming(account), events));
    SortSorts(LogCoord, Filter(OfRound(ref), Filter(Naming(account), events)));
  }

  lemma TimedIsDated(p: AccountPosition, account: Address, ref: RoundRef, events: seq<RoundEvent>)
    requires account != "" && Timed(p, Mine(account, ref, events))
    ensures Dated(p, account, ref, events)
  {
    hide Mine;
    var mine := Mine(account, ref, events);
    MineAreNaming(account, ref, events);
    MineAreInOrder(account, ref, events);
    NothingAfterTheLast(mine);
    var first, last := mine[0], mine[|mine| - 1];
    assert first in mine && last in mine;
    assert Spans(first, last, account, ref, events);
    assert p.lastBlock >= last.prov.blockNumber;
    if p.lastBlock > 0 {
      var e :| e in mine && e.prov.blockNumber == p.lastBlock;
      assert !Before(LogCoord(last), LogCoord(e));
    }
  }

  /** For any events in any order, an account has a position in a round exactly when it staked there; and the
      position says exactly what those events say, from its first event to its last. */
  lemma APositionIsWhatTheEventsSay(account: Address, ref: RoundRef, events: seq<RoundEvent>)
    requires account != ""
    ensures PositionOf(account, ref, events).Some? <==> Staker(events, account, ref)
    ensures PositionOf(account, ref, events).Some? ==>
      && Tells(PositionOf(account, ref, events).value, account, ref, events)
      && Dated(PositionOf(account, ref, events).value, account, ref, events)
  {
    hide Tells, Timed, Dated, FoldPosition, Sort, Filter;
    var mine := Mine(account, ref, events);
    FoldPositionIsLocal(None, account, ref, Sort(LogCoord, Filter(Naming(account), events)));
    MineAreNaming(account, ref, events);
    FoldTells(account, ref, mine);
    MineSaySo(account, ref, events);
    if PositionOf(account, ref, events).Some? {
      TimedIsDated(PositionOf(account, ref, events).value, account, ref, events);
    }
  }

  /** The events that name somebody else, or another round, say nothing. */
  lemma MineSaySo(account: Address, ref: RoundRef, events: seq<RoundEvent>)
    requires account != ""
    ensures
      var mine := Mine(account, ref, events);
      && (Staker(mine, account, ref) <==> Staker(events, account, ref))
      && forall p :: Tells(p, account, ref, mine) <==> Tells(p, account, ref, events)
  {
    MineAreNaming(account, ref, events);
    SumOfMine(StakeOnSide(Up, account, ref), account, ref, events);
    SumOfMine(StakeOnSide(Down, account, ref), account, ref, events);
    SumOfMine(ClaimBy(account, ref), account, ref, events);
    hide Mine, SumOver;
    var mine := Mine(account, ref, events);
    assert Claimer(mine, account, ref) <==> Claimer(events, account, ref);
    assert Borrower(mine, account, ref) <==> Borrower(events, account, ref);
  }

  // ---- From the logs themselves --------------------------------------------------------------------

  /** One log's stake on a side of the contract's numbering, by one user. */
  function StakeBy(user: Address, side: nat): Emitted -> nat {
    (em: Emitted) =>
      if em.event.PositionTakenLog? && em.event.user == user && em.event.side == side then em.event.amount else 0
  }

  function ClaimOf(user: Address): Emitted -> nat {
    (em: Emitted) => if em.event.ClaimedLog? && em.event.user == user then em.event.amount else 0
  }

  predicate Took(em: Emitted, user: Address) {
    em.event.PositionTakenLog? && em.event.user == user
  }

  predicate Collected(em: Emitted, user: Address) {
    em.event.ClaimedLog? && em.event.user == user
  }

  predicate WasFunded(em: Emitted, user: Address) {
    Took(em, user) && em.event.funder !in {"", user}
  }

  /** What the logs of a round say of one user. */
  predicate FollowsTheLogs(p: AccountPosition, user: Address, raw: seq<Emitted>) {
    && p.upStake == Total(StakeBy(user, 0), raw) && p.downStake == Total(StakeBy(user, 1), raw)
    && (p.claimed <==> exists em :: em in raw && Collected(em, user))
    && p.claimedAmount == Total(ClaimOf(user), raw)
    && (p.leveraged <==> exists em :: em in raw && WasFunded(em, user))
  }

  lemma RowSaysWhatTheLogSays(em: Emitted, row: RoundEvent, ref: RoundRef, user: Address)
    requires DecodesTo(em, row, ref)
    ensures StakeOnSide(Up, user, ref)(row) == StakeBy(user, 0)(em)
    ensures StakeOnSide(Down, user, ref)(row) == StakeBy(user, 1)(em)
    ensures ClaimBy(user, ref)(row) == ClaimOf(user)(em)
    ensures Stakes(row, user, ref) <==> Took(em, user)
    ensures Claims(row, user, ref) <==> Collected(em, user)
    ensures Borrowed(row, user, ref) <==> WasFunded(em, user)
  {
    hide Format;
  }

  lemma {:induction false} SumIsTotal(f: RoundEvent -> nat, g: Emitted -> nat, raw: seq<Emitted>, rows: seq<RoundEvent>)
    requires |raw| == |rows| && forall i :: 0 <= i < |raw| ==> f(rows[i]) == g(raw[i])
    ensures SumOver(f, rows) == Total(g, raw)
    decreases |raw|
  {
    if raw != [] {
      var n := |raw| - 1;
      SumIsTotal(f, g, raw[..n], rows[..n]);
      assert rows == rows[..n] + [rows[n]];
      SumJoins(f, rows[..n], [rows[n]]);
    }
  }

  lemma SumsOfRows(raw: seq<Emitted>, rows: seq<RoundEvent>, ref: RoundRef, user: Address)
    requires History(raw, rows, ref)
    ensures SumOver(StakeOnSide(Up, user, ref), rows) == Total(StakeBy(user, 0), raw)
    ensures SumOver(StakeOnSide(Down, user, ref), rows) == Total(StakeBy(user, 1), raw)
    ensures SumOver(ClaimBy(user, ref), rows) == Total(ClaimOf(user), raw)
  {
    hide DecodesTo, StakeOnSide, StakeBy, ClaimBy, ClaimOf;
    forall i | 0 <= i < |raw|
      ensures StakeOnSide(Up, user, ref)(rows[i]) == StakeBy(user, 0)(raw[i])
      ensures StakeOnSide(Down, user, ref)(rows[i]) == StakeBy(user, 1)(raw[i])
      ensures ClaimBy(user, ref)(rows[i]) == ClaimOf(user)(raw[i])
    {
      RowSaysWhatTheLogSays(raw[i], rows[i], ref, user);
    }
    SumIsTotal(StakeOnSide(Up, user, ref), StakeBy(user, 0), raw, rows);
    SumIsTotal(StakeOnSide(Down, user, ref), StakeBy(user, 1), raw, rows);
    SumIsTotal(ClaimBy(user, ref), ClaimOf(user), raw, rows);
  }

  lemma StoredRows(stored: seq<RoundEvent>, rows: seq<RoundEvent>, ref: RoundRef, e: RoundEvent)
    requires multiset(Filter(OfRound(ref), stored)) == multiset(rows)
    ensures e in rows <==> e in stored && RefOf(e) == ref
  {
    FilterMember(OfRound(ref), stored, e);
    assert e in rows <==> e in multiset(rows);
    assert e in Filter(OfRound(ref), stored) <==> e in multiset(Filter(OfRound(ref), stored));
  }

  lemma StoredSum(f: RoundEvent -> nat, stored: seq<RoundEvent>, rows: seq<RoundEvent>, ref: RoundRef)
    requires multiset(Filter(OfRound(ref), stored)) == multiset(rows)
    requires forall e :: RefOf(e) != ref ==> f(e) == 0
    ensures SumOver(f, stored) == SumOver(f, rows)
  {
    SumFilters(f, OfRound(ref), stored);
    SumPermutes(f, Filter(OfRound(ref), stored), rows);
  }

  /** Something said by a stored row of the round is said by its log, and conversely. */
  lemma StoredSay(says: RoundEvent -> bool, told: Emitted -> bool, raw: seq<Emitted>, rows: seq<RoundEvent>,
                  stored: seq<RoundEvent>, ref: RoundRef)
    requires |raw| == |rows| && multiset(Filter(OfRound(ref), stored)) == multiset(rows)
    requires forall i :: 0 <= i < |raw| ==> (says(rows[i]) <==> told(raw[i]))
    requires forall e :: says(e) ==> RefOf(e) == ref
    ensures (exists e :: e in stored && says(e)) <==> (exists em :: em in raw && told(em))
  {
    hide Filter;
    if e :| e in stored && says(e) {
      StoredRows(stored, rows, ref, e);
      var i :| 0 <= i < |rows| && rows[i] == e;
      assert raw[i] in raw && told(raw[i]);
    }
    if em :| em in raw && told(em) {
      var i :| 0 <= i < |raw| && raw[i] == em;
      StoredRows(stored, rows, ref, rows[i]);
      assert rows[i] in stored && says(rows[i]);
    }
  }

  lemma StoredSaySo(raw: seq<Emitted>, rows: seq<RoundEvent>, stored: seq<RoundEvent>, ref: RoundRef, user: Address)
    requires History(raw, rows, ref) && multiset(Filter(OfRound(ref), stored)) == multiset(rows)
    ensures Staker(stored, user, ref) <==> exists em :: em in raw && Took(em, user)
    ensures Claimer(stored, user, ref) <==> exists em :: em in raw && Collected(em, user)
    ensures Borrower(stored, user, ref) <==> exists em :: em in raw && WasFunded(em, user)
  {
    hide DecodesTo, Stakes, Claims, Borrowed, Took, Collected, WasFunded, Filter;
    forall i | 0 <= i < |raw|
      ensures Stakes(rows[i], user, ref) <==> Took(raw[i], user)
      ensures Claims(rows[i], user, ref) <==> Collected(raw[i], user)
      ensures Borrowed(rows[i], user, ref) <==> WasFunded(raw[i], user)
    {
      RowSaysWhatTheLogSays(raw[i], rows[i], ref, user);
    }
    forall e | Stakes(e, user, ref) || Claims(e, user, ref) || Borrowed(e, user, ref) ensures RefOf(e) == ref {
      StakersAreNamed(e, user, ref);
    }
    StoredSay((e: RoundEvent) => Stakes(e, user, ref), (em: Emitted) => Took(em, user), raw, rows, stored, ref);
    StoredSay((e: RoundEvent) => Claims(e, user, ref), (em: Emitted) => Collected(em, user), raw, rows, stored, ref);
    StoredSay((e: RoundEvent) => Borrowed(e, user, ref), (em: Emitted) => WasFunded(em, user), raw, rows, stored, ref);
  }

  lemma StakersAreNamed(e: RoundEvent, user: Address, ref: RoundRef)
    requires Stakes(e, user, ref) || Claims(e, user, ref) || Borrowed(e, user, ref)
    ensures RefOf(e) == ref
  {}

  /** Through decoding, storing in any order among other rounds, filtering, sorting and folding: a user has a
      position exactly when a log of the round's market took one, with the stakes on the contract's sides 0
      and 1, the claims and the leverage those logs add up to. */
  lemma APositionFollowsTheLogs(raw: seq<Emitted>, rows: seq<RoundEvent>, stored: seq<RoundEvent>, ref: RoundRef,
                                user: Address)
    requires History(raw, rows, ref) && multiset(Filter(OfRound(ref), stored)) == multiset(rows) && user != ""
    ensures PositionOf(user, ref, stored).Some? <==> exists em :: em in raw && Took(em, user)
    ensures PositionOf(user, ref, stored).Some? ==> FollowsTheLogs(PositionOf(user, ref, stored).value, user, raw)
  {
    hide PositionOf, History, Filter, Took, Collected, WasFunded, Staker, Claimer, Borrower, Dated;
    APositionIsWhatTheEventsSay(user, ref, stored);
    StoredSaySo(raw, rows, stored, ref, user);
    StoredSum(StakeOnSide(Up, user, ref), stored, rows, ref);
    StoredSum(StakeOnSide(Down, user, ref), stored, rows, ref);
    StoredSum(ClaimBy(user, ref), stored, rows, ref);
    SumsOfRows(raw, rows, ref, user);
  }
}
