/** The rows a chain decodes to, and what it means for a table to hold exactly those of a range. */
module Rows {
  import opened FixedPoint
  import opened Ledger
  import opened Tables
  import opened Chain
  import opened Decoder

  /** The rows of one log of one block, for one of the two tables. */
  type RowSource<T> = (nat, Block, Log) -> seq<Record<T>>

  function Decoded(contracts: seq<ContractSpec>, height: nat, b: Block, l: Log): Batch {
    match DecodeOne(contracts, Located(height, b.hash, l), b.time)
    case Ok(batch) => batch
    case Err => EMPTY_BATCH
  }

  function EntrySource(contracts: seq<ContractSpec>): RowSource<EntryBody> {
    (height: nat, b: Block, l: Log) => Decoded(contracts, height, b, l).entries
  }

  function RoundSource(contracts: seq<ContractSpec>): RowSource<RoundBody> {
    (height: nat, b: Block, l: Log) => Decoded(contracts, height, b, l).rounds
  }

  function BlockRows<T>(f: RowSource<T>, height: nat, b: Block, logs: seq<Log>): seq<Record<T>> {
    if logs == [] then [] else f(height, b, logs[0]) + BlockRows(f, height, b, logs[1..])
  }

  /** The rows of blocks lo <= h < hi, in log order. */
  function SpanRows<T>(f: RowSource<T>, chain: Blocks, lo: nat, hi: nat): seq<Record<T>>
    decreases hi - lo
  {
    if lo >= hi || lo >= |chain| then []
    else BlockRows(f, lo, chain[lo], chain[lo].logs) + SpanRows(f, chain, lo + 1, hi)
  }

  /** Rows carry their log's coordinates, numbered within the log. */
  ghost predicate Stamped<T>(f: RowSource<T>) {
    forall h, b, l, i :: 0 <= i < |f(h, b, l)| ==>
      f(h, b, l)[i].prov.blockNumber == h && KeyOf(f(h, b, l)[i]) == Key(l.txHash, l.index, i)
  }

  predicate SameLogKey(chain: Blocks, h: nat, j: nat, h': nat, j': nat) {
    && h < |chain| && j < |chain[h].logs| && h' < |chain| && j' < |chain[h'].logs|
    && chain[h].logs[j].txHash == chain[h'].logs[j'].txHash
    && chain[h].logs[j].index == chain[h'].logs[j'].index
  }

  /** A log's transaction hash and index identify it on one chain. */
  ghost predicate UniqueLogs(chain: Blocks) {
    forall h: nat, j: nat, h': nat, j': nat :: SameLogKey(chain, h, j, h', j') ==> h == h' && j == j'
  }

  ghost predicate RowAt<T>(f: RowSource<T>, chain: Blocks, h: nat, j: nat, i: nat, r: Record<T>) {
    && h < |chain| && j < |chain[h].logs|
    && i < |f(h, chain[h], chain[h].logs[j])| && r == f(h, chain[h], chain[h].logs[j])[i]
  }

  lemma EntriesAreStamped(contracts: seq<ContractSpec>)
    ensures Stamped(EntrySource(contracts))
  {}

  lemma RoundsAreStamped(contracts: seq<ContractSpec>)
    ensures Stamped(RoundSource(contracts))
  {}

  lemma SourcesAreStamped(contracts: seq<ContractSpec>)
    ensures Stamped(EntrySource(contracts)) && Stamped(RoundSource(contracts))
  {}

  lemma {:induction false} BlockMember<T>(f: RowSource<T>, h: nat, b: Block, logs: seq<Log>, r: Record<T>)
    ensures r in BlockRows(f, h, b, logs) <==>
      exists j: nat, i: nat :: j < |logs| && i < |f(h, b, logs[j])| && f(h, b, logs[j])[i] == r
  {
    if logs != [] {
      var rest := logs[1..];
      BlockMember(f, h, b, rest, r);
      if r in f(h, b, logs[0]) {
        var i: nat :| i < |f(h, b, logs[0])| && f(h, b, logs[0])[i] == r;
      }
      if r in BlockRows(f, h, b, rest) {
        var j: nat, i: nat :| j < |rest| && i < |f(h, b, rest[j])| && f(h, b, rest[j])[i] == r;
        assert logs[j + 1] == rest[j];
      }
      if j: nat, i: nat :| j < |logs| && i < |f(h, b, logs[j])| && f(h, b, logs[j])[i] == r {
        if j > 0 { assert logs[j] == rest[j - 1]; }
      }
    }
  }

  /** A row is in a span exactly when some log of some block of the span produced it. */
  lemma {:induction false} SpanMember<T>(f: RowSource<T>, chain: Blocks, lo: nat, hi: nat, r: Record<T>)
    requires hi <= |chain|
    ensures r in SpanRows(f, chain, lo, hi) <==>
      exists h: nat, j: nat, i: nat :: lo <= h < hi && RowAt(f, chain, h, j, i, r)
    decreases hi - lo
  {
    if lo < hi {
      SpanMember(f, chain, lo + 1, hi, r);
      FirstBlockMember(f, chain, lo, r);
      if r in SpanRows(f, chain, lo, hi) {
        if r in BlockRows(f, lo, chain[lo], chain[lo].logs) {
          var j: nat, i: nat :| RowAt(f, chain, lo, j, i, r);
        }
      } else {
        forall h: nat, j: nat, i: nat | lo <= h < hi ensures !RowAt(f, chain, h, j, i, r) {
          assert h > lo ==> lo + 1 <= h < hi;
        }
      }
    }
  }

  lemma FirstBlockMember<T>(f: RowSource<T>, chain: Blocks, h: nat, r: Record<T>)
    requires h < |chain|
    ensures r in BlockRows(f, h, chain[h], chain[h].logs) <==> exists j: nat, i: nat :: RowAt(f, chain, h, j, i, r)
  {
    hide BlockRows;
    BlockMember(f, h, chain[h], chain[h].logs, r);
    if r in BlockRows(f, h, chain[h], chain[h].logs) {
      var j: nat, i: nat :| j < |chain[h].logs| && i < |f(h, chain[h], chain[h].logs[j])|
                         && f(h, chain[h], chain[h].logs[j])[i] == r;
      assert RowAt(f, chain, h, j, i, r);
    }
  }

  lemma {:induction false} SpanJoin<T>(f: RowSource<T>, chain: Blocks, lo: nat, mid: nat, hi: nat)
    requires lo <= mid <= hi <= |chain|
    ensures SpanRows(f, chain, lo, mid) + SpanRows(f, chain, mid, hi) == SpanRows(f, chain, lo, hi)
    decreases mid - lo
  {
    if lo < mid { SpanJoin(f, chain, lo + 1, mid, hi); }
  }

  /** Only the blocks of the span matter. */
  lemma {:induction false} SpanAgrees<T>(f: RowSource<T>, a: Blocks, b: Blocks, lo: nat, hi: nat)
    requires hi <= |a| && hi <= |b|
    requires forall h :: lo <= h < hi ==> a[h] == b[h]
    ensures SpanRows(f, a, lo, hi) == SpanRows(f, b, lo, hi)
    decreases hi - lo
  {
    if lo < hi { SpanAgrees(f, a, b, lo + 1, hi); }
  }

  lemma SpanHeight<T>(f: RowSource<T>, chain: Blocks, lo: nat, hi: nat, lo': nat, hi': nat, r: Record<T>)
    requires Stamped(f) && hi <= |chain| && hi' <= |chain|
    requires r in SpanRows(f, chain, lo, hi)
    ensures lo <= r.prov.blockNumber < hi
    ensures lo' <= r.prov.blockNumber < hi' ==> r in SpanRows(f, chain, lo', hi')
  {
    SpanMember(f, chain, lo, hi, r);
    SpanMember(f, chain, lo', hi', r);
    var h: nat, j: nat, i: nat :| lo <= h < hi && RowAt(f, chain, h, j, i, r);
  }

  /** On one chain a key names one row. */
  lemma KeysAreUnique<T>(f: RowSource<T>, chain: Blocks, lo: nat, hi: nat, r: Record<T>, s: Record<T>)
    requires Stamped(f) && UniqueLogs(chain) && hi <= |chain|
    requires r in SpanRows(f, chain, lo, hi) && s in SpanRows(f, chain, lo, hi)
    requires KeyOf(r) == KeyOf(s)
    ensures r == s
  {
    SpanMember(f, chain, lo, hi, r);
    SpanMember(f, chain, lo, hi, s);
    var h: nat, j: nat, i: nat :| lo <= h < hi && RowAt(f, chain, h, j, i, r);
    var h': nat, j': nat, i': nat :| lo <= h' < hi && RowAt(f, chain, h', j', i', s);
    assert SameLogKey(chain, h, j, h', j');
  }

  /** The table is exactly the rows of the span, each under its own key. */
  ghost predicate Holds<T>(t: Table<T>, f: RowSource<T>, chain: Blocks, lo: nat, hi: nat) {
    && (forall r :: r in SpanRows(f, chain, lo, hi) ==> KeyOf(r) in t && t[KeyOf(r)] == r)
    && (forall k :: k in t ==> t[k] in SpanRows(f, chain, lo, hi) && KeyOf(t[k]) == k)
  }

  /** One straight read of the span into an empty table. */
  function StraightRead<T>(f: RowSource<T>, chain: Blocks, lo: nat, hi: nat): Table<T> {
    InsertAll(map[], SpanRows(f, chain, lo, hi))
  }

  lemma HoldsAfterInsert<T>(t: Table<T>, f: RowSource<T>, chain: Blocks, lo: nat, mid: nat, hi: nat)
    requires lo <= mid <= hi <= |chain|
    requires Stamped(f) && UniqueLogs(chain)
    requires Holds(t, f, chain, lo, mid)
    ensures Holds(InsertAll(t, SpanRows(f, chain, mid, hi)), f, chain, lo, hi)
  {
    var rows := SpanRows(f, chain, mid, hi);
    var u := InsertAll(t, rows);
    InsertContents(t, rows);
    SpanJoin(f, chain, lo, mid, hi);
    forall r | r in SpanRows(f, chain, lo, hi)
      ensures KeyOf(r) in u && u[KeyOf(r)] == r
    {
      assert KeyOf(r) in u by {
        if r in SpanRows(f, chain, lo, mid) { assert KeyOf(r) in t; } else { assert r in rows; }
      }
      var s := u[KeyOf(r)];
      assert s in SpanRows(f, chain, lo, hi) && KeyOf(s) == KeyOf(r);
      KeysAreUnique(f, chain, lo, hi, r, s);
    }
  }

  lemma HoldsAfterDelete<T>(t: Table<T>, f: RowSource<T>, chain: Blocks, lo: nat, hi: nat, fromBlock: nat)
    requires hi <= |chain| && fromBlock <= hi
    requires Stamped(f)
    requires Holds(t, f, chain, lo, hi)
    ensures Holds(DeleteFrom(t, fromBlock), f, chain, lo, fromBlock)
  {
    var u := DeleteFrom(t, fromBlock);
    forall r | r in SpanRows(f, chain, lo, fromBlock)
      ensures KeyOf(r) in u && u[KeyOf(r)] == r
    {
      SpanHeight(f, chain, lo, fromBlock, lo, hi, r);
    }
    forall k | k in u
      ensures u[k] in SpanRows(f, chain, lo, fromBlock) && KeyOf(u[k]) == k
    {
      SpanHeight(f, chain, lo, hi, lo, fromBlock, t[k]);
    }
  }

  lemma HoldsIsStraightRead<T>(t: Table<T>, f: RowSource<T>, chain: Blocks, lo: nat, hi: nat)
    requires lo <= hi <= |chain|
    requires Stamped(f) && UniqueLogs(chain)
    requires Holds(t, f, chain, lo, hi)
    ensures t == StraightRead(f, chain, lo, hi)
  {
    var u := StraightRead(f, chain, lo, hi);
    HoldsAfterInsert(map[], f, chain, lo, lo, hi);
    forall k ensures k in t <==> k in u {
      if k in t { assert t[k] in SpanRows(f, chain, lo, hi); }
      if k in u { assert u[k] in SpanRows(f, chain, lo, hi); }
    }
    forall k | k in t ensures t[k] == u[k] {
      assert t[k] in SpanRows(f, chain, lo, hi);
    }
  }

  /** A straight read holds what it read. */
  lemma StraightReadHolds<T>(f: RowSource<T>, chain: Blocks, lo: nat, hi: nat)
    requires lo <= hi <= |chain|
    requires Stamped(f) && UniqueLogs(chain)
    ensures Holds(StraightRead(f, chain, lo, hi), f, chain, lo, hi)
  {
    HoldsAfterInsert(map[], f, chain, lo, lo, hi);
  }
}
