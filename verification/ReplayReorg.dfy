/** Where the replay and the reorg check miss each other: during a replay rows sit above the cursor, and
    the check only looks at the cursor. What that leaves behind, and exactly when the tables come right
    all the same (indexer/indexer.go). */
module ReplayReorg {
  import opened FixedPoint
  import opened Ledger
  import opened Tables
  import opened Chain
  import opened Decoder
  import opened Rows
  import opened LedgerStore
  import opened IndexerSpec
  import opened Convergence
  import opened Reading
  import opened Progress
  import opened Replay

  /** The cursor stands on a block of the chain, or on none it has verified: the check sees nothing. */
  predicate OnChain(db: Db, chain: Blocks) {
    db.cursor.Some? && db.cursor.value.lastHash.Some? ==>
      && db.cursor.value.lastBlock < |chain|
      && db.cursor.value.lastHash == Some(chain[db.cursor.value.lastBlock].hash)
  }

  // ---- What the check does not see stays -----------------------------------------------------------

  lemma AppendKeepsRows(db: Db, batch: Batch, next: LedgerStore.Cursor)
    ensures Untouched(db, Appended(db, batch, next))
  {
    InsertContents(db.entries, batch.entries);
    InsertContents(db.rounds, batch.rounds);
  }

  /** From such a cursor no cycle deletes anything, and the next cursor is one too. */
  lemma CycleKeepsEveryRow(cfg: Config, net: Endpoint, db: Db)
    requires OnChain(db, net.chain)
    ensures Untouched(db, IndexerSpec.Step(cfg, net, db).0) && OnChain(IndexerSpec.Step(cfg, net, db).0, net.chain)
  {
    hide RangeServed, DecodeAll, FilterLogs;
    var (db', outcome) := IndexerSpec.Step(cfg, net, db);
    assert Checked(cfg, net, db).0 == db;
    UntouchedIsTransitive(db, db, db);
    StepShape(cfg, net, db);
    if outcome.Indexed? {
      CommitKeepsRows(cfg, net, db, outcome.fromBlock, outcome.toBlock, |net.chain| - 1);
    }
  }

  lemma CommitKeepsRows(cfg: Config, net: Endpoint, db: Db, from: nat, upTo: nat, head: nat)
    requires ReadRange(cfg, net, db, from, upTo, head).1.Indexed?
    ensures
      var db' := ReadRange(cfg, net, db, from, upTo, head).0;
      Untouched(db, db') && OnChain(db', net.chain)
  {
    hide RangeServed, DecodeAll, FilterLogs;
    var batch := DecodeAll(cfg.contracts, net, FilterLogs(net, Watched(cfg.contracts), from, upTo).value).value;
    AppendKeepsRows(db, batch, Cursor(upTo, Some(net.chain[upTo].hash), cfg.version));
  }

  lemma {:induction false} CyclesKeepEveryRow(cfg: Config, chain: Blocks, db: Db, nets: seq<Endpoint>)
    requires OnChain(db, chain) && forall net :: net in nets ==> net.chain == chain
    ensures Untouched(db, CyclesAt(cfg, nets, db))
    decreases |nets|
  {
    hide OnChain, Untouched, IndexerSpec.Step;
    UntouchedIsTransitive(db, db, db);
    if nets != [] {
      var db' := IndexerSpec.Step(cfg, nets[0], db).0;
      CycleKeepsEveryRow(cfg, nets[0], db);
      CyclesKeepEveryRow(cfg, chain, db', nets[1..]);
      UntouchedIsTransitive(db, db', CyclesAt(cfg, nets, db));
    }
  }

  /** Every held row, under its own key, is one the chain decodes to below hi. */
  ghost predicate OnlyOf<T>(t: Table<T>, f: RowSource<T>, chain: Blocks, lo: nat, hi: nat) {
    forall k :: k in t ==> t[k] in SpanRows(f, chain, lo, hi) && KeyOf(t[k]) == k
  }

  ghost predicate AllOnChain(cfg: Config, db: Db, chain: Blocks, hi: nat) {
    && OnlyOf(db.entries, EntrySource(cfg.contracts), chain, cfg.startBlock, hi)
    && OnlyOf(db.rounds, RoundSource(cfg.contracts), chain, cfg.startBlock, hi)
  }

  /** A straight read holds nothing else. */
  lemma ReadsAreOnChain(cfg: Config, db: Db, chain: Blocks, lastBlock: nat)
    requires UniqueLogs(chain) && cfg.startBlock <= lastBlock < |chain| && IsStraightRead(cfg, db, chain, lastBlock)
    ensures AllOnChain(cfg, db, chain, lastBlock + 1)
  {
    hide SpanRows, EntrySource, RoundSource, StraightRead, UniqueLogs, Stamped;
    SourcesAreStamped(cfg.contracts);
    StraightReadHolds(EntrySource(cfg.contracts), chain, cfg.startBlock, lastBlock + 1);
    StraightReadHolds(RoundSource(cfg.contracts), chain, cfg.startBlock, lastBlock + 1);
  }

  lemma OnlyOfMore<T>(t: Table<T>, f: RowSource<T>, chain: Blocks, lo: nat, mid: nat, hi: nat)
    requires OnlyOf(t, f, chain, lo, mid) && lo <= mid <= hi <= |chain|
    ensures OnlyOf(t, f, chain, lo, hi)
  {
    hide SpanRows;
    SpanJoin(f, chain, lo, mid, hi);
  }

  lemma KeptIsOnlyOf<T>(t: Table<T>, t': Table<T>, f: RowSource<T>, chain: Blocks, lo: nat, hi: nat)
    requires Kept(t, t') && OnlyOf(t', f, chain, lo, hi)
    ensures OnlyOf(t, f, chain, lo, hi)
  {}

  lemma StraightHistory(cfg: Config, db: Db, after: Db, chain: Blocks, height: nat)
    requires Untouched(db, after) && AllOnChain(cfg, after, chain, height + 1) && cfg.startBlock <= height < |chain|
    ensures AllOnChain(cfg, db, chain, |chain|)
  {
    hide SpanRows, EntrySource, RoundSource, OnlyOf, Kept;
    var f, g := EntrySource(cfg.contracts), RoundSource(cfg.contracts);
    KeptIsOnlyOf(db.entries, after.entries, f, chain, cfg.startBlock, height + 1);
    KeptIsOnlyOf(db.rounds, after.rounds, g, chain, cfg.startBlock, height + 1);
    OnlyOfMore(db.entries, f, chain, cfg.startBlock, height + 1, |chain|);
    OnlyOfMore(db.rounds, g, chain, cfg.startBlock, height + 1, |chain|);
  }

  /** A reorg that leaves the cursor's block alone, or comes while the cursor is verified against none, is
      not seen. If it dropped a row of either table that was held (the chain as it is now decodes to no
      such row), that row stays for good: however many cycles follow, and whatever fails in them, the
      tables are no straight read of the chain, at any height. */
  lemma WhatTheCheckMissesStays(cfg: Config, chain: Blocks, db: Db, nets: seq<Endpoint>, height: nat)
    requires OnChain(db, chain) && forall net :: net in nets ==> net.chain == chain
    requires UniqueLogs(chain) && cfg.startBlock <= height < |chain|
    requires !AllOnChain(cfg, db, chain, |chain|)
    ensures
      var after := CyclesAt(cfg, nets, db);
      Untouched(db, after) && !IsStraightRead(cfg, after, chain, height)
  {
    hide SpanRows, EntrySource, RoundSource, OnChain, StraightRead, UniqueLogs, OnlyOf, Kept;
    CyclesKeepEveryRow(cfg, chain, db, nets);
    var after := CyclesAt(cfg, nets, db);
    if IsStraightRead(cfg, after, chain, height) {
      ReadsAreOnChain(cfg, after, chain, height);
      StraightHistory(cfg, db, after, chain, height);
    }
  }

  // ---- Exactly when the tables come right ------------------------------------------------------------

  lemma {:induction false} InsertsJoin<T>(t: Table<T>, a: seq<Record<T>>, b: seq<Record<T>>)
    ensures InsertAll(InsertAll(t, a), b) == InsertAll(t, a + b)
    decreases |a|
  {
    if a == [] {
      assert a + b == b;
    } else {
      assert (a + b)[1..] == a[1..] + b;
      InsertsJoin(if KeyOf(a[0]) in t then t else t[KeyOf(a[0]) := a[0]], a[1..], b);
    }
  }

  /** The rows of a span, put into both tables at once. */
  function Filled(cfg: Config, chain: Blocks, db: Db, from: nat, hi: nat): (Table<EntryBody>, Table<RoundBody>) {
    (InsertAll(db.entries, SpanRows(EntrySource(cfg.contracts), chain, from, hi)),
     InsertAll(db.rounds, SpanRows(RoundSource(cfg.contracts), chain, from, hi)))
  }

  lemma NothingToFill(cfg: Config, chain: Blocks, db: Db, from: nat, hi: nat)
    requires from >= hi
    ensures Filled(cfg, chain, db, from, hi) == (db.entries, db.rounds)
  {}

  lemma FilledInTwo(cfg: Config, chain: Blocks, db: Db, db': Db, from: nat, mid: nat, hi: nat)
    requires from <= mid <= hi <= |chain| && (db'.entries, db'.rounds) == Filled(cfg, chain, db, from, mid)
    ensures Filled(cfg, chain, db', mid, hi) == Filled(cfg, chain, db, from, hi)
  {
    hide SpanRows, InsertAll, EntrySource, RoundSource;
    var f, g := EntrySource(cfg.contracts), RoundSource(cfg.contracts);
    SpanJoin(f, chain, from, mid, hi);
    SpanJoin(g, chain, from, mid, hi);
    InsertsJoin(db.entries, SpanRows(f, chain, from, mid), SpanRows(f, chain, mid, hi));
    InsertsJoin(db.rounds, SpanRows(g, chain, from, mid), SpanRows(g, chain, mid, hi));
  }

  /** One answered cycle whose check sees nothing. */
  lemma AnsweredStep(cfg: Config, chain: Blocks, db: Db, safeHead: nat)
    requires Sound(cfg, chain) && OnChain(db, chain) && safeHead + cfg.confirmations == |chain| - 1
    ensures
      var n, db' := ReadsFrom(cfg, chain, db), IndexerSpec.Step(cfg, Answering(chain), db).0;
      && OnChain(db', chain)
      && (n > safeHead ==> db' == db)
      && (n <= safeHead ==>
            && db'.cursor == Some(Cursor(WindowEnd(cfg, n, safeHead), Some(chain[WindowEnd(cfg, n, safeHead)].hash),
                                         cfg.version))
            && ReadsFrom(cfg, chain, db') == WindowEnd(cfg, n, safeHead) + 1
            && (db'.entries, db'.rounds) == Filled(cfg, chain, db, n, WindowEnd(cfg, n, safeHead) + 1))
  {
    hide SpanRows, EntrySource, RoundSource, Sound, InsertAll, RangeServed, DecodeAll, FilterLogs;
    var n := ReadsFrom(cfg, chain, db);
    assert Checked(cfg, Answering(chain), db) == (db, Result.Ok(db.cursor.GetOr(FreshCursor(cfg))));
    if n <= safeHead {
      var upTo := WindowEnd(cfg, n, safeHead);
      RangeIsRead(cfg, chain, db, n, upTo, |chain| - 1);
      CommittedRange(cfg, Answering(chain), db, n, upTo, |chain| - 1);
    }
  }

  /** So enough of them put in everything from where they start to the confirmed head. */
  lemma {:induction false} CyclesFill(cfg: Config, chain: Blocks, db: Db, safeHead: nat, k: nat)
    requires Sound(cfg, chain) && OnChain(db, chain) && safeHead + cfg.confirmations == |chain| - 1
    requires Enough(cfg, ReadsFrom(cfg, chain, db), k, safeHead)
    ensures
      var after := Cycles(cfg, chain, db, k);
      (after.entries, after.rounds) == Filled(cfg, chain, db, ReadsFrom(cfg, chain, db), safeHead + 1)
    decreases k
  {
    hide IndexerSpec.Step, Sound, OnChain, Filled, ReadsFrom;
    var n := ReadsFrom(cfg, chain, db);
    if n > safeHead { NothingToFill(cfg, chain, db, n, safeHead + 1); }
    if k > 0 {
      var db' := IndexerSpec.Step(cfg, Answering(chain), db).0;
      AnsweredStep(cfg, chain, db, safeHead);
      if n <= safeHead {
        OneWindowLess(cfg, n, safeHead, k);
        FilledInTwo(cfg, chain, db, db', n, WindowEnd(cfg, n, safeHead) + 1, safeHead + 1);
      }
      CyclesFill(cfg, chain, db', safeHead, k - 1);
    }
  }

  /** What the check does, it does before the first read. */
  lemma CheckedFirst(cfg: Config, chain: Blocks, db: Db, k: nat)
    requires MayGoOn(cfg, chain, db) && k > 0 && cfg.confirmations < |chain|
    ensures
      var now := Checked(cfg, Answering(chain), db).0;
      && OnChain(now, chain) && ReadsFrom(cfg, chain, now) == ReadsFrom(cfg, chain, db)
      && Cycles(cfg, chain, db, k) == Cycles(cfg, chain, now, k)
  {
    hide ReadRange, StillServed, MayGoOn;
    CheckedCursor(cfg, chain, db);
    CheckPassesExactlyWhen(cfg, chain, db);
    var now := Checked(cfg, Answering(chain), db).0;
    assert IndexerSpec.Step(cfg, Answering(chain), db).0 == IndexerSpec.Step(cfg, Answering(chain), now).0;
  }

  /** The chain's rows below n are held, each at least under its key. */
  ghost predicate HeldBelow<T>(t: Table<T>, f: RowSource<T>, chain: Blocks, lo: nat, n: nat) {
    forall r :: r in SpanRows(f, chain, lo, n) ==> KeyOf(r) in t
  }

  ghost predicate AllHeld(cfg: Config, db: Db, chain: Blocks, n: nat) {
    && HeldBelow(db.entries, EntrySource(cfg.contracts), chain, cfg.startBlock, n)
    && HeldBelow(db.rounds, RoundSource(cfg.contracts), chain, cfg.startBlock, n)
  }

  function Least(a: nat, b: nat): nat {
    if a < b then a else b
  }

  /** A table filled from n up is a straight read exactly when it held nothing else, and everything below. */
  lemma FilledExactly<T>(t: Table<T>, f: RowSource<T>, chain: Blocks, lo: nat, n: nat, hi: nat)
    requires Stamped(f) && UniqueLogs(chain) && lo <= hi <= |chain|
    requires n < lo ==> SpanRows(f, chain, n, lo) == []
    ensures InsertAll(t, SpanRows(f, chain, n, hi)) == StraightRead(f, chain, lo, hi)
       <==> OnlyOf(t, f, chain, lo, hi) && HeldBelow(t, f, chain, lo, Least(n, hi))
  {
    hide SpanRows, UniqueLogs, Stamped, InsertAll;
    var rows := SpanRows(f, chain, n, hi);
    var u := InsertAll(t, rows);
    InsertContents(t, rows);
    StraightReadHolds(f, chain, lo, hi);
    RowsFromThere(f, chain, lo, n, hi);
    if OnlyOf(t, f, chain, lo, hi) && HeldBelow(t, f, chain, lo, Least(n, hi)) {
      forall r | r in SpanRows(f, chain, lo, hi) ensures KeyOf(r) in u && u[KeyOf(r)] == r {
        KeysAreUnique(f, chain, lo, hi, r, u[KeyOf(r)]);
      }
      HoldsIsStraightRead(u, f, chain, lo, hi);
    }
    if u == StraightRead(f, chain, lo, hi) {
      forall r | r in SpanRows(f, chain, lo, Least(n, hi)) ensures KeyOf(r) in t {
        assert u[KeyOf(r)] == r;
      }
    }
  }

  /** The rows of a span above lo are those of its two parts, which have none in common. */
  lemma RowsFromThere<T>(f: RowSource<T>, chain: Blocks, lo: nat, n: nat, hi: nat)
    requires Stamped(f) && lo <= hi <= |chain| && (n < lo ==> SpanRows(f, chain, n, lo) == [])
    ensures forall r :: r in SpanRows(f, chain, lo, hi) <==>
      r in SpanRows(f, chain, n, hi) || r in SpanRows(f, chain, lo, Least(n, hi))
    ensures forall r :: r in SpanRows(f, chain, lo, Least(n, hi)) ==> r !in SpanRows(f, chain, n, hi)
  {
    hide Stamped;
    if n < lo {
      SpanJoin(f, chain, n, lo, hi);
    } else if n <= hi {
      SpanJoin(f, chain, lo, n, hi);
    }
    forall r | r in SpanRows(f, chain, lo, Least(n, hi)) ensures r !in SpanRows(f, chain, n, hi) {
      if r in SpanRows(f, chain, n, hi) {
        SpanHeight(f, chain, lo, Least(n, hi), lo, hi, r);
        SpanHeight(f, chain, n, hi, lo, hi, r);
      }
    }
  }

  /** Below the start block there is nothing to fill. */
  lemma LowFilledExactly(cfg: Config, chain: Blocks, db: Db, after: Db, n: nat, safeHead: nat)
    requires safeHead < |chain| && safeHead < cfg.startBlock && (n < cfg.startBlock ==> QuietBelow(cfg, chain))
    requires (after.entries, after.rounds) == Filled(cfg, chain, db, n, safeHead + 1)
    ensures TablesEmpty(after)
       <==> AllOnChain(cfg, db, chain, safeHead + 1) && AllHeld(cfg, db, chain, Least(n, safeHead + 1))
  {
    hide EntrySource, RoundSource, QuietBelow, BlockRows;
    var f, g, lo := EntrySource(cfg.contracts), RoundSource(cfg.contracts), cfg.startBlock;
    if n <= safeHead { QuietSpan(cfg, chain, n, safeHead + 1); }
    assert SpanRows(f, chain, n, safeHead + 1) == [] && SpanRows(g, chain, n, safeHead + 1) == [];
    assert SpanRows(f, chain, lo, safeHead + 1) == [] && SpanRows(g, chain, lo, safeHead + 1) == [];
    assert SpanRows(f, chain, lo, Least(n, safeHead + 1)) == [] && SpanRows(g, chain, lo, Least(n, safeHead + 1)) == [];
    assert after.entries == db.entries && after.rounds == db.rounds;
  }

  lemma HighFilledExactly(cfg: Config, chain: Blocks, db: Db, after: Db, n: nat, safeHead: nat)
    requires UniqueLogs(chain) && cfg.startBlock <= safeHead < |chain|
    requires n < cfg.startBlock ==> QuietBelow(cfg, chain)
    requires (after.entries, after.rounds) == Filled(cfg, chain, db, n, safeHead + 1)
    ensures IsStraightRead(cfg, after, chain, safeHead)
       <==> AllOnChain(cfg, db, chain, safeHead + 1) && AllHeld(cfg, db, chain, Least(n, safeHead + 1))
  {
    hide EntrySource, RoundSource, UniqueLogs, Stamped, InsertAll, QuietBelow, SpanRows, StraightRead, OnlyOf,
         HeldBelow, Least;
    var lo := cfg.startBlock;
    if n < lo { QuietSpan(cfg, chain, n, lo); }
    SourcesAreStamped(cfg.contracts);
    FilledExactly(db.entries, EntrySource(cfg.contracts), chain, lo, n, safeHead + 1);
    FilledExactly(db.rounds, RoundSource(cfg.contracts), chain, lo, n, safeHead + 1);
  }

  lemma TablesFilledExactly(cfg: Config, chain: Blocks, db: Db, after: Db, n: nat, safeHead: nat)
    requires UniqueLogs(chain) && safeHead < |chain| && (n < cfg.startBlock ==> QuietBelow(cfg, chain))
    requires (after.entries, after.rounds) == Filled(cfg, chain, db, n, safeHead + 1)
    ensures IsStraightRead(cfg, after, chain, safeHead)
       <==> AllOnChain(cfg, db, chain, safeHead + 1) && AllHeld(cfg, db, chain, Least(n, safeHead + 1))
  {
    hide UniqueLogs, QuietBelow, Filled, AllOnChain, AllHeld, Least, StraightRead;
    if safeHead < cfg.startBlock {
      LowFilledExactly(cfg, chain, db, after, n, safeHead);
    } else {
      HighFilledExactly(cfg, chain, db, after, n, safeHead);
    }
  }

  /** From any database whatever, on a chain the reorg check lets it read: enough answered cycles end in one
      straight read of the chain if and only if the check left nothing but the chain's rows up to the
      confirmed head, and none of those below the first block to be read was missing. */
  lemma ComesRightExactlyWhen(cfg: Config, chain: Blocks, db: Db, safeHead: nat, k: nat)
    requires UniqueLogs(chain) && Sound(cfg, chain) && safeHead + cfg.confirmations == |chain| - 1
    requires ReadsFrom(cfg, chain, db) < cfg.startBlock ==> QuietBelow(cfg, chain)
    requires MayGoOn(cfg, chain, db) && k > 0 && Enough(cfg, ReadsFrom(cfg, chain, db), k, safeHead)
    ensures
      var now := Checked(cfg, Answering(chain), db).0;
      var n := Least(ReadsFrom(cfg, chain, db), safeHead + 1);
      IsStraightRead(cfg, Cycles(cfg, chain, db, k), chain, safeHead)
      <==> AllOnChain(cfg, now, chain, safeHead + 1) && AllHeld(cfg, now, chain, n)
  {
    hide UniqueLogs, QuietBelow, Sound, MayGoOn, Enough, Checked, ReadsFrom, Cycles, OnChain, AllOnChain, AllHeld,
         Filled, IsStraightRead;
    var now := Checked(cfg, Answering(chain), db).0;
    CheckedFirst(cfg, chain, db, k);
    CyclesFill(cfg, chain, now, safeHead, k);
    TablesFilledExactly(cfg, chain, now, Cycles(cfg, chain, db, k), ReadsFrom(cfg, chain, db), safeHead);
  }

  // ---- Right after the rewind ------------------------------------------------------------------------

  /** A rewound cursor is verified against no block, so it stands on whatever the chain becomes. */
  lemma RewoundStandsAnywhere(cfg: Config, net: Endpoint, db: Db, chain: Blocks)
    requires ReplayForNewDecoders(cfg, net, db).1.Rewound?
    ensures
      var db' := ReplayForNewDecoders(cfg, net, db).0;
      && OnChain(db', chain) && MayGoOn(cfg, chain, db') && ReadsFrom(cfg, chain, db') == cfg.startBlock
      && Checked(cfg, Answering(chain), db').0 == db'
      && db'.entries == db.entries && db'.rounds == db.rounds
  {}

  /** A reorg between the rewind and the first block read again is never seen, whatever it drops. */
  lemma AReorgRightAfterTheRewindIsNotSeen(cfg: Config, net: Endpoint, db: Db, chain: Blocks, nets: seq<Endpoint>,
                                           height: nat)
    requires ReplayForNewDecoders(cfg, net, db).1.Rewound?
    requires UniqueLogs(chain) && cfg.startBlock <= height < |chain|
    requires !AllOnChain(cfg, db, chain, |chain|) && forall net :: net in nets ==> net.chain == chain
    ensures
      var after := CyclesAt(cfg, nets, ReplayForNewDecoders(cfg, net, db).0);
      Untouched(db, after) && !IsStraightRead(cfg, after, chain, height)
  {
    hide SpanRows, EntrySource, RoundSource, ReplayForNewDecoders, OnChain, StraightRead, UniqueLogs;
    RewoundStandsAnywhere(cfg, net, db, chain);
    WhatTheCheckMissesStays(cfg, chain, ReplayForNewDecoders(cfg, net, db).0, nets, height);
  }

  /** The replay comes out right, on the chain it is given once rewound, exactly when that chain still
      decodes to every row that was held. */
  lemma ReplayIsRightExactlyWhen(cfg: Config, net: Endpoint, db: Db, chain: Blocks, safeHead: nat, k: nat)
    requires ReplayForNewDecoders(cfg, net, db).1.Rewound?
    requires UniqueLogs(chain) && Sound(cfg, chain) && safeHead + cfg.confirmations == |chain| - 1
    requires cfg.startBlock <= safeHead && Enough(cfg, cfg.startBlock, k, safeHead)
    ensures
      var after := Cycles(cfg, chain, ReplayForNewDecoders(cfg, net, db).0, k);
      IsStraightRead(cfg, after, chain, safeHead) <==> AllOnChain(cfg, db, chain, safeHead + 1)
  {
    hide ReplayForNewDecoders, OnChain, IsStraightRead, UniqueLogs, Sound, EntrySource, RoundSource, MayGoOn,
         QuietBelow;
    var rewound := ReplayForNewDecoders(cfg, net, db).0;
    RewoundStandsAnywhere(cfg, net, db, chain);
    ComesRightExactlyWhen(cfg, chain, rewound, safeHead, k);
    assert AllHeld(cfg, rewound, chain, cfg.startBlock);
  }
}
