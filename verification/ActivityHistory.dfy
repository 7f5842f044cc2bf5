/** What reading an account's history to its end shows: one item for each flow and each round event of the
    account, field by field, newest first, and nothing else (store/activity.go). */
module ActivityHistory {
  import opened FixedPoint
  import opened Ledger
  import opened Chain
  import opened Decoder
  import opened Rows
  import opened Sorting
  import opened Activity
  import opened ActivityRows

  /** An item shows an entry: nominal amount, signed, in its book, with the other party. */
  predicate ShowsEntry(a: Activity, e: Entry) {
    && a.prov == e.prov && a.source.SourceLedger? && a.book == Some(e.body.book) && a.amount == e.body.delta
    && a.counterparty == e.body.counterparty && a.market == "" && a.roundID == 0 && a.side.NoSide? && a.data == map[]
  }

  /** An item shows a round event, with no book, and a zero where it has no amount. */
  predicate ShowsRound(a: Activity, e: RoundEvent) {
    && a.prov == e.prov && a.source.SourceRound? && a.book.None? && a.counterparty == ""
    && (e.body.amount.Some? ==> a.amount == e.body.amount.value) && (e.body.amount.None? ==> a.amount == 0)
    && a.market == e.body.market && a.roundID == e.body.roundID && a.side == e.body.side && a.data == e.body.data
  }

  /** How many of the account's flows an item shows. Balances are not history. */
  function FlowsShown(account: Address, entries: seq<Entry>, a: Activity): nat {
    if entries == [] then 0
    else
      var e := entries[0];
      (if e.body.account == account && e.body.kind == Flow && ShowsEntry(a, e) then 1 else 0)
      + FlowsShown(account, entries[1..], a)
  }

  function RoundsShown(account: Address, rounds: seq<RoundEvent>, a: Activity): nat {
    if rounds == [] then 0
    else
      (if rounds[0].body.account == account && ShowsRound(a, rounds[0]) then 1 else 0)
      + RoundsShown(account, rounds[1..], a)
  }

  lemma {:induction false} FlowsAreShown(account: Address, entries: seq<Entry>, a: Activity)
    ensures multiset(FlowsOf(account, entries))[a] == FlowsShown(account, entries, a)
  {
    if entries != [] {
      var e := entries[0];
      var first := if e.body.account == account && e.body.kind.Flow? then [FromEntry(e)] else [];
      FlowsAreShown(account, entries[1..], a);
      assert FlowsOf(account, entries) == first + FlowsOf(account, entries[1..]);
    }
  }

  lemma {:induction false} RoundsAreShown(account: Address, rounds: seq<RoundEvent>, a: Activity)
    ensures multiset(RoundsOf(account, rounds))[a] == RoundsShown(account, rounds, a)
  {
    if rounds != [] {
      var first := if rounds[0].body.account == account then [FromRound(rounds[0])] else [];
      RoundsAreShown(account, rounds[1..], a);
      assert RoundsOf(account, rounds) == first + RoundsOf(account, rounds[1..]);
    }
  }

  /** Later in the log: a higher block, or further down the block, or further on in one log's records. */
  predicate LaterInTheLog(p: Provenance, q: Provenance) {
    || p.blockNumber > q.blockNumber
    || (p.blockNumber == q.blockNumber && p.logIndex > q.logIndex)
    || (p.blockNumber == q.blockNumber && p.logIndex == q.logIndex && p.recordIndex > q.recordIndex)
  }

  predicate NewestFirst(items: seq<Activity>) {
    forall i, j :: 0 <= i < j < |items| ==> LaterInTheLog(items[i].prov, items[j].prov)
  }

  lemma DescendingIsNewestFirst(items: seq<Activity>)
    requires StrictlyDescending(items)
    ensures NewestFirst(items)
  {
    forall i, j | 0 <= i < j < |items| ensures LaterInTheLog(items[i].prov, items[j].prov) {
      assert Before(CursorOf(items[j]), CursorOf(items[i]));
    }
  }

  lemma {:induction false} NothingIsOlderThanAll(s: seq<Activity>)
    ensures Filter(Older(None), s) == s
  {
    if s != [] { NothingIsOlderThanAll(s[1..]); }
  }

  /** Following cursors from the first page to the last, while newer rows may arrive: every item appears as
      often as rows of the account are shown by it, flows and round events together, newest first. */
  lemma HistoryIsComplete(account: Address, entries: seq<Entry>, rounds: seq<RoundEvent>, later: seq<seq<Activity>>,
                          limit: nat, a: Activity)
    requires limit > 0
    requires
      var snapshots := [Merged(account, entries, rounds)] + later;
      && (forall i :: 0 <= i < |snapshots| ==> DistinctKeys(CursorOf, snapshots[i]))
      && OnlyNewerRowsArrive(snapshots, None, limit)
      && |entries| + |rounds| <= |snapshots| * limit
    ensures
      var (items, done) := Walk([Merged(account, entries, rounds)] + later, None, limit);
      && done && NewestFirst(items)
      && multiset(items)[a] == FlowsShown(account, entries, a) + RoundsShown(account, rounds, a)
  {
    hide FlowsOf, RoundsOf, Filter, Walk, OnlyNewerRowsArrive, DistinctKeys, Descending, StrictlyDescending;
    var merged := Merged(account, entries, rounds);
    var snapshots := [merged] + later;
    NothingIsOlderThanAll(merged);
    NotMoreThanRows(account, entries, rounds);
    assert snapshots[0] == merged;
    PagingIsExact(snapshots, None, limit);
    DescendingIsStrict(merged);
    DescendingIsNewestFirst(Descending(merged));
    FlowsAreShown(account, entries, a);
    RoundsAreShown(account, rounds, a);
    assert multiset(merged) == multiset(FlowsOf(account, entries)) + multiset(RoundsOf(account, rounds));
  }

  lemma NotMoreThanRows(account: Address, entries: seq<Entry>, rounds: seq<RoundEvent>)
    ensures |Merged(account, entries, rounds)| <= |entries| + |rounds|
  {
    FewerFlows(account, entries);
    FewerRounds(account, rounds);
  }

  lemma {:induction false} FewerFlows(account: Address, entries: seq<Entry>)
    ensures |FlowsOf(account, entries)| <= |entries|
  {
    if entries != [] { FewerFlows(account, entries[1..]); }
  }

  lemma {:induction false} FewerRounds(account: Address, rounds: seq<RoundEvent>)
    ensures |RoundsOf(account, rounds)| <= |rounds|
  {
    if rounds != [] { FewerRounds(account, rounds[1..]); }
  }

  /** So over the rows of any span of one chain, whoever reads at whatever page size. */
  lemma HistoryOfAChain(contracts: seq<ContractSpec>, chain: Blocks, lo: nat, hi: nat, account: Address, limit: nat,
                        pages: nat, a: Activity)
    requires Deployed(contracts) && UniqueLogs(chain) && UniqueIndices(chain) && lo <= hi <= |chain|
    requires
      var entries, rounds := SpanRows(EntrySource(contracts), chain, lo, hi), SpanRows(RoundSource(contracts), chain,
                                                                                       lo, hi);
      limit > 0 && pages > 0 && |entries| + |rounds| <= pages * limit
    ensures
      var entries, rounds := SpanRows(EntrySource(contracts), chain, lo, hi), SpanRows(RoundSource(contracts), chain,
                                                                                       lo, hi);
      var (items, done) := Walk(seq(pages, _ => Merged(account, entries, rounds)), None, limit);
      && done && NewestFirst(items)
      && multiset(items)[a] == FlowsShown(account, entries, a) + RoundsShown(account, rounds, a)
  {
    hide EntrySource, RoundSource, SpanRows, UniqueIndices, UniqueLogs, Merged, Walk, DistinctKeys, NewestFirst;
    var entries, rounds := SpanRows(EntrySource(contracts), chain, lo, hi), SpanRows(RoundSource(contracts), chain, lo,
                                                                                     hi);
    var merged := Merged(account, entries, rounds);
    var later := seq(pages - 1, _ => merged);
    CoordinatesAreUnique(contracts, chain, lo, hi, account);
    NothingArrives(merged, pages, None, limit);
    assert [merged] + later == seq(pages, _ => merged);
    HistoryIsComplete(account, entries, rounds, later, limit, a);
  }

  lemma {:induction false} NothingArrives(merged: seq<Activity>, pages: nat, after: Option<Coord>, limit: nat)
    requires limit > 0
    ensures OnlyNewerRowsArrive(seq(pages, _ => merged), after, limit)
    decreases pages
  {
    hide PageOf, Descending, Filter;
    if pages > 1 {
      assert seq(pages, _ => merged)[1..] == seq(pages - 1, _ => merged);
      var next := PageOf(Descending(Filter(Older(after), merged)), limit).next;
      NothingArrives(merged, pages - 1, next, limit);
    }
  }
}
