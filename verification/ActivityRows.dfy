/** Over both tables of one chain the paging coordinates are unique, so a page boundary never falls
    on a tie (store/activity.go, indexer/events.go). */
module ActivityRows {
  import opened FixedPoint
  import opened Ledger
  import opened Chain
  import opened Decoder
  import opened Rows
  import opened Sorting
  import opened Activity
  import Tables
  import Books

  function CoordOf<T>(r: Record<T>): Coord {
    Coord(r.prov.blockNumber, r.prov.logIndex, r.prov.recordIndex)
  }

  predicate SameIndex(chain: Blocks, h: nat, j: nat, j': nat) {
    h < |chain| && j < |chain[h].logs| && j' < |chain[h].logs| && chain[h].logs[j].index == chain[h].logs[j'].index
  }

  /** Log indices number the logs of a block. */
  ghost predicate UniqueIndices(chain: Blocks) {
    forall h: nat, j: nat, j': nat :: SameIndex(chain, h, j, j') ==> j == j'
  }

  /** Two rows at the same coordinates came from the same log, whichever table they are in. */
  lemma SameCoordSameLog<T, U>(f: RowSource<T>, g: RowSource<U>, chain: Blocks, lo: nat, hi: nat, r: Record<T>,
                               s: Record<U>)
    returns (h: nat, j: nat, i: nat)
    requires Stamped(f) && Stamped(g) && UniqueIndices(chain) && hi <= |chain|
    requires r in SpanRows(f, chain, lo, hi) && s in SpanRows(g, chain, lo, hi)
    requires CoordOf(r) == CoordOf(s)
    ensures RowAt(f, chain, h, j, i, r) && RowAt(g, chain, h, j, i, s)
  {
    hide SpanRows;
    SpanMember(f, chain, lo, hi, r);
    SpanMember(g, chain, lo, hi, s);
    h, j, i :| lo <= h < hi && RowAt(f, chain, h, j, i, r);
    var h': nat, j': nat, i': nat :| lo <= h' < hi && RowAt(g, chain, h', j', i', s);
    assert SameIndex(chain, h, j, j');
  }

  lemma KeysDiffer<T>(rows: seq<Record<T>>, i: nat, j: nat)
    requires Books.DistinctRowKeys(rows) && i < |rows| && j < |rows| && i != j
    ensures Tables.KeyOf(rows[i]) != Tables.KeyOf(rows[j])
  {}

  lemma OneTable<T>(f: RowSource<T>, chain: Blocks, lo: nat, hi: nat)
    requires Stamped(f) && UniqueLogs(chain) && UniqueIndices(chain) && lo <= hi <= |chain|
    ensures DistinctKeys<Record<T>>(CoordOf, SpanRows(f, chain, lo, hi))
  {
    hide SpanRows, UniqueIndices, UniqueLogs;
    var rows := SpanRows(f, chain, lo, hi);
    Books.SpanRowsDistinct(f, chain, lo, hi);
    forall i, j | 0 <= i < |rows| && 0 <= j < |rows| && i != j ensures CoordOf(rows[i]) != CoordOf(rows[j]) {
      KeysDiffer(rows, i, j);
      if CoordOf(rows[i]) == CoordOf(rows[j]) {
        var a, b, c := SameCoordSameLog(f, f, chain, lo, hi, rows[i], rows[j]);
      }
    }
  }

  lemma {:induction false} FlowComesFromRow(account: Address, entries: seq<Entry>, a: Activity)
    requires a in FlowsOf(account, entries)
    ensures exists e :: e in entries && CoordOf(e) == CursorOf(a)
  {
    if a !in FlowsOf(account, entries[1..]) {
      assert CoordOf(entries[0]) == CursorOf(a);
    } else {
      FlowComesFromRow(account, entries[1..], a);
    }
  }

  lemma {:induction false} RoundComesFromRow(account: Address, rounds: seq<RoundEvent>, a: Activity)
    requires a in RoundsOf(account, rounds)
    ensures exists e :: e in rounds && CoordOf(e) == CursorOf(a)
  {
    if a !in RoundsOf(account, rounds[1..]) {
      assert CoordOf(rounds[0]) == CursorOf(a);
    } else {
      RoundComesFromRow(account, rounds[1..], a);
    }
  }

  lemma TailIsDistinct<T>(key: T -> Coord, s: seq<T>)
    requires s != [] && DistinctKeys(key, s)
    ensures DistinctKeys(key, s[1..])
    ensures forall x :: x in s[1..] ==> key(x) != key(s[0])
  {}

  lemma PrependIsDistinct<T>(key: T -> Coord, x: T, s: seq<T>)
    requires DistinctKeys(key, s)
    requires forall y :: y in s ==> key(y) != key(x)
    ensures DistinctKeys(key, [x] + s)
  {}

  lemma {:induction false} FlowsAreDistinct(account: Address, entries: seq<Entry>)
    requires DistinctKeys<Entry>(CoordOf, entries)
    ensures DistinctKeys(CursorOf, FlowsOf(account, entries))
  {
    if entries != [] {
      var rest := FlowsOf(account, entries[1..]);
      TailIsDistinct<Entry>(CoordOf, entries);
      FlowsAreDistinct(account, entries[1..]);
      forall a | a in rest ensures CursorOf(a) != CoordOf(entries[0]) {
        FlowComesFromRow(account, entries[1..], a);
      }
      PrependIsDistinct(CursorOf, FromEntry(entries[0]), rest);
      assert [] + rest == rest;
    }
  }

  lemma {:induction false} RoundsAreDistinct(account: Address, rounds: seq<RoundEvent>)
    requires DistinctKeys<RoundEvent>(CoordOf, rounds)
    ensures DistinctKeys(CursorOf, RoundsOf(account, rounds))
  {
    if rounds != [] {
      var rest := RoundsOf(account, rounds[1..]);
      TailIsDistinct<RoundEvent>(CoordOf, rounds);
      RoundsAreDistinct(account, rounds[1..]);
      forall a | a in rest ensures CursorOf(a) != CoordOf(rounds[0]) {
        RoundComesFromRow(account, rounds[1..], a);
      }
      PrependIsDistinct(CursorOf, FromRound(rounds[0]), rest);
      assert [] + rest == rest;
    }
  }

  /** No log has a row in both tables. */
  lemma NeverInBothTables(contracts: seq<ContractSpec>, chain: Blocks, h: nat, j: nat, i: nat, e: Entry, r: RoundEvent)
    requires Deployed(contracts)
    requires RowAt(EntrySource(contracts), chain, h, j, i, e)
    ensures !RowAt(RoundSource(contracts), chain, h, j, i, r)
  {
    OneKindPerLog(contracts, Located(h, chain[h].hash, chain[h].logs[j]), chain[h].time);
  }

  /** The coordinates a page is keyed on are unique over both tables of one chain, for every account
      and every span. */
  lemma CoordinatesAreUnique(contracts: seq<ContractSpec>, chain: Blocks, lo: nat, hi: nat, account: Address)
    requires Deployed(contracts) && UniqueLogs(chain) && UniqueIndices(chain) && lo <= hi <= |chain|
    ensures DistinctKeys(CursorOf, Merged(account, SpanRows(EntrySource(contracts), chain, lo, hi),
                                                   SpanRows(RoundSource(contracts), chain, lo, hi)))
  {
    hide EntrySource, RoundSource, SpanRows, UniqueIndices, UniqueLogs, FlowsOf, RoundsOf;
    var f, g := EntrySource(contracts), RoundSource(contracts);
    var entries, rounds := SpanRows(f, chain, lo, hi), SpanRows(g, chain, lo, hi);
    SourcesAreStamped(contracts);
    OneTable(f, chain, lo, hi);
    OneTable(g, chain, lo, hi);
    FlowsAreDistinct(account, entries);
    RoundsAreDistinct(account, rounds);
    var a, b := FlowsOf(account, entries), RoundsOf(account, rounds);
    forall x, y | x in a && y in b ensures CursorOf(x) != CursorOf(y) {
      FlowComesFromRow(account, entries, x);
      RoundComesFromRow(account, rounds, y);
      if CursorOf(x) == CursorOf(y) {
        var e :| e in entries && CoordOf(e) == CursorOf(x);
        var r :| r in rounds && CoordOf(r) == CursorOf(y);
        var h, j, i := SameCoordSameLog(f, g, chain, lo, hi, e, r);
        NeverInBothTables(contracts, chain, h, j, i, e, r);
        assert false;
      }
    }
    JoinIsDistinct(CursorOf, a, b);
  }

  lemma JoinIsDistinct<T>(key: T -> Coord, a: seq<T>, b: seq<T>)
    requires DistinctKeys(key, a) && DistinctKeys(key, b)
    requires forall x, y :: x in a && y in b ==> key(x) != key(y)
    ensures DistinctKeys(key, a + b)
  {}
}
