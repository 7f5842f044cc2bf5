/** Four inputs, over reorgs of no more than the newest indexed blocks: an indexer that stalls, a decoder
    replay that keeps a row of a block that is gone, one that sheds it, and one that loses a row for good
    (indexer/indexer.go). */
module ReorgExamples {
  import opened FixedPoint
  import opened Ledger
  import opened Tables
  import opened Chain
  import opened Decoder
  import opened LedgerStore
  import opened IndexerSpec
  import opened Rows
  import opened Convergence
  import opened RereadGuard
  import opened Progress
  import opened Replay
  import opened ReplayReorg

  const VAULT := ContractSpec("CollateralVault", "vault", DecodeVault, "")

  function Deposit(txHash: Hash): Log {
    Log("vault", txHash, 0, false, DepositedLog("user", 5))
  }

  function Quiet(hash: Hash): Block {
    Block(hash, 0, false, [])
  }

  /** A block with one deposit. */
  function Busy(hash: Hash, txHash: Hash): Block {
    Block(hash, 0, false, [Deposit(txHash)])
  }

  function Settings1(version: Version, batchSize: nat): Config
    requires batchSize > 0
  {
    Settings([VAULT], 1, 1, batchSize, false, version)
  }

  /** One deposit a block at most, no two in one transaction. */
  predicate Simple(chain: Blocks) {
    && |chain| >= 3 && |chain| <= 9 && chain[0].logs == []
    && (forall h :: 0 <= h < |chain| ==> !chain[h].bloom && (chain[h].logs == [] || IsBusy(chain[h])))
    && (forall h, h' :: 0 <= h < |chain| && 0 <= h' < |chain| && SameTx(chain[h], chain[h']) ==> h == h')
  }

  predicate IsBusy(b: Block) {
    |b.logs| == 1 && b.logs[0] == Deposit(b.logs[0].txHash)
  }

  predicate SameTx(b: Block, c: Block) {
    IsBusy(b) && IsBusy(c) && b.logs[0].txHash == c.logs[0].txHash
  }

  predicate Names(chain: Blocks, b: Block) {
    exists h :: 0 <= h < |chain| && SameTx(chain[h], b)
  }

  lemma DepositDecodes(height: nat, hash: Hash, time: int, txHash: Hash)
    ensures
      var batch := DecodeOne([VAULT], Located(height, hash, Deposit(txHash)), time);
      batch.Ok? && |batch.value.entries| == 1
  {
    assert SpecFor([VAULT], "vault") == Some(VAULT);
    assert VAULT.decode(Deposit(txHash).event) == EntriesOnly([FlowEntry("user", Deposits, 5)]);
  }

  lemma SimpleIsSound(version: Version, batchSize: nat, chain: Blocks)
    requires batchSize > 0 && Simple(chain)
    ensures Sound(Settings1(version, batchSize), chain) && UniqueLogs(chain)
    ensures QuietBelow(Settings1(version, batchSize), chain)
  {
    forall h, j | 0 <= h < |chain| && 0 <= j < |chain[h].logs|
      ensures DecodeOne([VAULT], Located(h, chain[h].hash, chain[h].logs[j]), chain[h].time).Ok?
    {
      DepositDecodes(h, chain[h].hash, chain[h].time, chain[h].logs[0].txHash);
    }
    forall h: nat, j: nat, h': nat, j': nat | SameLogKey(chain, h, j, h', j') ensures h == h' && j == j' {
      assert SameTx(chain[h], chain[h']);
    }
  }

  /** The row of a block's deposit. */
  function RowOf(chain: Blocks, h: nat): Entry
    requires h < |chain| && IsBusy(chain[h])
  {
    DepositDecodes(h, chain[h].hash, chain[h].time, chain[h].logs[0].txHash);
    EntrySource([VAULT])(h, chain[h], chain[h].logs[0])[0]
  }

  lemma RowIsThere(chain: Blocks, h: nat, lo: nat, hi: nat)
    requires lo <= h < hi <= |chain| && IsBusy(chain[h])
    ensures RowOf(chain, h) in SpanRows(EntrySource([VAULT]), chain, lo, hi)
    ensures KeyOf(RowOf(chain, h)) == Key(chain[h].logs[0].txHash, 0, 0) && RowOf(chain, h).prov.blockNumber == h
  {
    DepositDecodes(h, chain[h].hash, chain[h].time, chain[h].logs[0].txHash);
    assert RowAt(EntrySource([VAULT]), chain, h, 0, 0, RowOf(chain, h));
    SpanMember(EntrySource([VAULT]), chain, lo, hi, RowOf(chain, h));
    EntriesAreStamped([VAULT]);
  }

  /** A row names the transaction of one of the blocks it can come from. */
  lemma RowsNameTheirBlocks(chain: Blocks, lo: nat, hi: nat, r: Entry) returns (h: nat)
    requires hi <= |chain| && Simple(chain) && r in SpanRows(EntrySource([VAULT]), chain, lo, hi)
    ensures lo <= h < hi && IsBusy(chain[h]) && KeyOf(r).txHash == chain[h].logs[0].txHash
  {
    hide EntrySource, SpanRows;
    SpanMember(EntrySource([VAULT]), chain, lo, hi, r);
    EntriesAreStamped([VAULT]);
    var j: nat, i: nat;
    h, j, i :| lo <= h < hi && RowAt(EntrySource([VAULT]), chain, h, j, i, r);
  }

  // ---- Indexing, and going back -----------------------------------------------------------------------

  /** What one cycle against a chain indexes. */
  function IndexedOnce(version: Version, chain: Blocks): Db {
    Cycles(Settings1(version, 10), chain, EMPTY_DB, 1)
  }

  lemma OneCycleIndexes(version: Version, chain: Blocks)
    requires Simple(chain)
    ensures
      var db, top := IndexedOnce(version, chain), |chain| - 2;
      && db.cursor == Some(Cursor(top, Some(chain[top].hash), version))
      && Rows.Holds(db.entries, EntrySource([VAULT]), chain, 1, top + 1)
      && Rows.Holds(db.rounds, RoundSource([VAULT]), chain, 1, top + 1)
  {
    hide Inv, Family, Sound, Cycles, EntrySource, RoundSource, StraightRead, SpanRows, UniqueLogs, Stamped;
    var cfg, start := Settings1(version, 10), World(EMPTY_DB, chain, 0);
    SimpleIsSound(version, 10, chain);
    assert Family(cfg, {chain}) by { OneChain(cfg, chain); }
    EmptyDatabaseHasInv(cfg, {chain}, chain);
    CyclesConverge(cfg, {chain}, start, |chain| - 2, 1);
    SourcesAreStamped([VAULT]);
    StraightReadHolds(EntrySource([VAULT]), chain, 1, |chain| - 1);
    StraightReadHolds(RoundSource([VAULT]), chain, 1, |chain| - 1);
  }

  lemma OneChain(cfg: Config, chain: Blocks)
    requires UniqueLogs(chain) && QuietBelow(cfg, chain)
    ensures Family(cfg, {chain})
  {}

  /** The boot of a new version takes the cursor back and leaves the rows. */
  lemma NewDecodersRewind(chain: Blocks, batchSize: nat)
    requires Simple(chain) && batchSize > 0
    ensures
      var db := IndexedOnce("old", chain);
      var (rewound, outcome) := ReplayForNewDecoders(Settings1("new", batchSize), Answering(chain), db);
      outcome.Rewound? && rewound == db.(cursor := Some(Cursor(0, None, "old")))
  {
    var u := Upgrade([VAULT], Settings1("new", batchSize), chain, |chain| - 2);
    OneCycleIndexes("old", chain);
    SimpleIsSound("new", batchSize, chain);
    ExtendsItself(EntrySource([VAULT]));
    ExtendsItself(RoundSource([VAULT]));
    hide Cycles, EntrySource, RoundSource, SpanRows, UniqueLogs, Extends;
    HonestBootRewinds(u, IndexedOnce("old", chain));
  }

  lemma ExtendsItself<T>(f: RowSource<T>)
    ensures Extends(f, f)
  {}

  // ---- What the check sees ------------------------------------------------------------------------------

  lemma {:induction false} BusyBlocksServe(chain: Blocks, lo: nat, h: nat, hi: nat)
    requires lo <= h <= hi < |chain| && IsBusy(chain[h])
    ensures LogsBetween(Watched([VAULT]), chain, lo, hi) != []
    decreases h - lo
  {
    if lo < h {
      BusyBlocksServe(chain, lo + 1, h, hi);
    } else {
      assert [VAULT][0].address in Watched([VAULT]);
      assert LogsOf(Watched([VAULT]), h, chain[h].hash, chain[h].logs) != [];
    }
  }

  lemma FirstWindowIsHeld(cfg: Config, db: Db, k: Key, from: nat, upTo: nat)
    requires k in db.entries && from <= db.entries[k].prov.blockNumber <= WindowEnd(cfg, from, upTo) && from <= upTo
    ensures LowestHeld(cfg, db, from, upTo) == Some(from)
  {
    assert HeldIn(db.entries, k, from, WindowEnd(cfg, from, upTo));
  }

  /** The cursor's block changed, a row is held in the first window to be read again, and the chain has a
      log there: the check rolls back. */
  lemma CheckRollsBack(cfg: Config, chain: Blocks, db: Db, k: Key, h: nat)
    requires db.cursor.Some? && db.cursor.value.lastHash.Some? && db.cursor.value.lastBlock < |chain|
    requires cfg.contracts == [VAULT] && !OnChain(db, chain) && k in db.entries
    requires
      var from, upTo := RewindTarget(cfg, db.cursor.value.lastBlock), db.cursor.value.lastBlock;
      && from <= db.entries[k].prov.blockNumber <= WindowEnd(cfg, from, upTo)
      && from <= h <= WindowEnd(cfg, from, upTo) && from <= upTo && IsBusy(chain[h])
    ensures MayGoOn(cfg, chain, db)
    ensures Checked(cfg, Answering(chain), db).0 == RolledBack(db, RewindTarget(cfg, db.cursor.value.lastBlock))
    ensures ReadsFrom(cfg, chain, db) == RewindTarget(cfg, db.cursor.value.lastBlock)
  {
    hide LowestHeld, LogsBetween, StillServed, IsBusy;
    var from, upTo := RewindTarget(cfg, db.cursor.value.lastBlock), db.cursor.value.lastBlock;
    FirstWindowIsHeld(cfg, db, k, from, upTo);
    BusyBlocksServe(chain, from, h, WindowEnd(cfg, from, upTo));
    CheckPassesExactlyWhen(cfg, chain, db);
  }

  lemma IndexedRow(version: Version, chain: Blocks, h: nat)
    requires Simple(chain) && 1 <= h < |chain| - 1 && IsBusy(chain[h])
    ensures
      var db, k := IndexedOnce(version, chain), Key(chain[h].logs[0].txHash, 0, 0);
      && k in db.entries && db.entries[k] == RowOf(chain, h)
      && KeyOf(RowOf(chain, h)) == k && RowOf(chain, h).prov.blockNumber == h
  {
    hide EntrySource, RoundSource, Cycles, SpanRows, Simple, RowOf;
    OneCycleIndexes(version, chain);
    RowIsThere(chain, h, 1, |chain| - 1);
  }

  /** An indexed row of a block the other chain does not name is none of that chain's. */
  lemma DroppedRow(version: Version, chain: Blocks, other: Blocks, h: nat, hi: nat)
    requires Simple(chain) && Simple(other) && 1 <= h < |chain| - 1 && IsBusy(chain[h])
    requires !Names(other, chain[h]) && hi <= |other|
    ensures
      var db, k := IndexedOnce(version, chain), Key(chain[h].logs[0].txHash, 0, 0);
      && k in db.entries && db.entries[k].prov.blockNumber == h
      && !OnlyOf(db.entries, EntrySource([VAULT]), other, 1, hi)
  {
    hide EntrySource, RoundSource, Cycles, SpanRows, Simple, RowOf, IndexedOnce;
    IndexedRow(version, chain, h);
    var r := RowOf(chain, h);
    if r in SpanRows(EntrySource([VAULT]), other, 1, hi) {
      var h' := RowsNameTheirBlocks(other, 1, hi, r);
      assert false;
    }
  }

  // ---- A stall ------------------------------------------------------------------------------------------

  /** Two chains that part at block 1, which has a deposit on the first and nothing on the second. */
  predicate DropsADeposit(before: Blocks, after: Blocks) {
    && Simple(before) && Simple(after) && |before| == 3 && |after| == 3 && before[0] == after[0]
    && before[1].hash != after[1].hash && before[2].hash != after[2].hash
    && IsBusy(before[1]) && !Names(after, before[1]) && after[1].logs == []
  }

  const BEFORE: Blocks := [Quiet(1), Busy(2, 7), Quiet(3)]
  const AFTER: Blocks := [Quiet(1), Quiet(20), Quiet(30)]

  lemma ADepositIsDropped()
    ensures DropsADeposit(BEFORE, AFTER)
  {}

  lemma BothAreChains(cfg: Config, before: Blocks, after: Blocks)
    requires DropsADeposit(before, after) && cfg == Settings1(cfg.version, 10)
    ensures Family(cfg, {before, after})
  {
    SimpleIsSound(cfg.version, 10, before);
    SimpleIsSound(cfg.version, 10, after);
    hide UniqueLogs, QuietBelow, Simple, Names;
    forall c, d | c in {before, after} && d in {before, after} ensures Commits(c, d) {
      assert before[..1] == after[..1];
    }
  }

  lemma NothingLeftToServe(version: Version, before: Blocks, after: Blocks)
    requires DropsADeposit(before, after)
    ensures !MayGoOn(Settings1(version, 10), after, IndexedOnce(version, before))
  {
    var cfg, db := Settings1(version, 10), IndexedOnce(version, before);
    var k := Key(before[1].logs[0].txHash, 0, 0);
    OneCycleIndexes(version, before);
    DroppedRow(version, before, after, 1, 2);
    hide Cycles, EntrySource, RoundSource, StraightRead, SpanRows, Simple, Names, LowestHeld;
    FirstWindowIsHeld(cfg, db, k, 1, 1);
    assert LogsBetween(Watched(cfg.contracts), after, 1, 1) == [];
  }

  lemma TheRunOf(version: Version, before: Blocks, after: Blocks)
    requires DropsADeposit(before, after)
    ensures
      var cfg, start := Settings1(version, 10), World(EMPTY_DB, before, 0);
      && AllAllowed(cfg, {before, after}, start, [Cycle({}), Moves(after)])
      && Convergence.Run(cfg, start, [Cycle({}), Moves(after)]) == World(IndexedOnce(version, before), after, 1)
  {
    hide EntrySource, RoundSource, StraightRead, SpanRows, Simple, Names;
    var cfg, start := Settings1(version, 10), World(EMPTY_DB, before, 0);
    OneCycleIndexes(version, before);
    var events := [Cycle({}), Moves(after)];
    var (db, outcome) := IndexerSpec.Step(cfg, Answering(before), EMPTY_DB);
    assert db == IndexedOnce(version, before);
    StepShape(cfg, Answering(before), EMPTY_DB);
    var middle := Convergence.Next(cfg, start, events[0]);
    assert middle == World(db, before, 1);
    var last: seq<Convergence.Event> := [Moves(after)];
    assert events[1..] == last && last[1..] == [];
    assert Convergence.Next(cfg, middle, last[0]) == World(db, after, 1);
    assert Convergence.Run(cfg, middle, last) == World(db, after, 1);
    assert AllAllowed(cfg, {before, after}, middle, last);
  }

  lemma Stalls(version: Version, before: Blocks, after: Blocks, nets: seq<Endpoint>)
    requires DropsADeposit(before, after) && forall net :: net in nets ==> after <= net.chain
    ensures
      var cfg, db := Settings1(version, 10), IndexedOnce(version, before);
      CyclesAt(cfg, nets, db) == db && !IsStraightRead(cfg, db, after, 1)
  {
    var cfg, db := Settings1(version, 10), IndexedOnce(version, before);
    OneCycleIndexes(version, before);
    NothingLeftToServe(version, before, after);
    DroppedRow(version, before, after, 1, 2);
    SimpleIsSound(version, 10, after);
    hide Cycles, EntrySource, RoundSource, StraightRead, SpanRows, Simple, Names, MayGoOn, OnlyOf, UniqueLogs;
    RefusedCyclesStall(cfg, after, db, nets);
    if IsStraightRead(cfg, db, after, 1) { ReadsAreOnChain(cfg, db, after, 1); }
  }

  /** A stall: the reorg drops the only watched log of the range to be re-read, the check takes that for an
      endpoint that has stopped serving logs, and refuses on every cycle from then on, though every call
      be answered, and however far the chain goes on. */
  lemma AReorgCanStallTheIndexer(version: Version, nets: seq<Endpoint>)
    requires forall net :: net in nets ==> AFTER <= net.chain
    ensures
      var cfg, start := Settings1(version, 10), World(EMPTY_DB, BEFORE, 0);
      var events := [Cycle({}), Moves(AFTER)];
      var w := Convergence.Run(cfg, start, events);
      && Family(cfg, {BEFORE, AFTER}) && AllAllowed(cfg, {BEFORE, AFTER}, start, events)
      && w == World(IndexedOnce(version, BEFORE), AFTER, 1)
      && CyclesAt(cfg, nets, w.db) == w.db && !IsStraightRead(cfg, w.db, AFTER, 1)
  {
    ADepositIsDropped();
    hide DropsADeposit, IndexedOnce, Family, AllAllowed, Convergence.Run, CyclesAt, IsStraightRead;
    BothAreChains(Settings1(version, 10), BEFORE, AFTER);
    TheRunOf(version, BEFORE, AFTER);
    Stalls(version, BEFORE, AFTER, nets);
  }

  // ---- A replay that keeps a dropped row ----------------------------------------------------------------

  lemma Spoils(before: Blocks, after: Blocks, nets: seq<Endpoint>, height: nat)
    requires DropsADeposit(before, after) && 1 <= height < 3 && forall net :: net in nets ==> net.chain == after
    ensures
      var cfg, db := Settings1("new", 10), IndexedOnce("old", before);
      var (rewound, outcome) := ReplayForNewDecoders(cfg, Answering(before), db);
      && Allowed(cfg, {before, after}, World(rewound, before, 1), Moves(after))
      && outcome.Rewound?
      && Untouched(db, CyclesAt(cfg, nets, rewound))
      && !IsStraightRead(cfg, CyclesAt(cfg, nets, rewound), after, height)
  {
    var cfg, db := Settings1("new", 10), IndexedOnce("old", before);
    DroppedRow("old", before, after, 1, 3);
    SimpleIsSound("new", 10, after);
    NewDecodersRewind(before, 10);
    hide Cycles, EntrySource, RoundSource, IsStraightRead, SpanRows, ReplayForNewDecoders, UniqueLogs, OnlyOf, Simple,
         Names, CyclesAt, Kept;
    AReorgRightAfterTheRewindIsNotSeen(cfg, Answering(before), db, after, nets, height);
  }

  /** The boot rewinds, the same reorg follows, and however many cycles follow, whatever fails in them, the
      dropped deposit is still there. */
  lemma AReorgCanSpoilAReplay(nets: seq<Endpoint>, height: nat)
    requires 1 <= height < 3 && forall net :: net in nets ==> net.chain == AFTER
    ensures
      var cfg, db := Settings1("new", 10), IndexedOnce("old", BEFORE);
      var (rewound, outcome) := ReplayForNewDecoders(cfg, Answering(BEFORE), db);
      && Allowed(cfg, {BEFORE, AFTER}, World(rewound, BEFORE, 1), Moves(AFTER))
      && outcome.Rewound?
      && Untouched(db, CyclesAt(cfg, nets, rewound))
      && !IsStraightRead(cfg, CyclesAt(cfg, nets, rewound), AFTER, height)
  {
    ADepositIsDropped();
    hide DropsADeposit, IndexedOnce, ReplayForNewDecoders, Allowed, CyclesAt, IsStraightRead, Untouched;
    Spoils(BEFORE, AFTER, nets, height);
  }

  // ---- A replay that sheds dropped rows -----------------------------------------------------------------

  /** Deposits in blocks 1 and 2; then other blocks from 1 on, the first with a deposit, the second's gone. */
  predicate DropsTheSecond(long: Blocks, other: Blocks) {
    && Simple(long) && Simple(other) && |long| == 4 && |other| == 4 && long[0] == other[0]
    && long[1].hash != other[1].hash && IsBusy(long[1]) && IsBusy(long[2]) && IsBusy(other[1])
    && !Names(other, long[2])
  }

  const LONG: Blocks := [Quiet(1), Busy(2, 7), Busy(3, 8), Quiet(4)]
  const OTHER: Blocks := [Quiet(1), Busy(20, 9), Quiet(30), Quiet(40)]

  lemma TheSecondIsDropped()
    ensures DropsTheSecond(LONG, OTHER)
  {}

  /** One cycle into the replay the cursor stands on block 1, and every row is still there. */
  lemma OneBlockReplayed(long: Blocks)
    requires Simple(long) && |long| == 4
    ensures
      var cfg, db := Settings1("new", 1), IndexedOnce("old", long);
      var rewound := ReplayForNewDecoders(cfg, Answering(long), db).0;
      IndexerSpec.Step(cfg, Answering(long), rewound).0 == db.(cursor := Some(Cursor(1, Some(long[1].hash), "new")))
  {
    var cfg, db := Settings1("new", 1), IndexedOnce("old", long);
    OneCycleIndexes("old", long);
    NewDecodersRewind(long, 1);
    SimpleIsSound("new", 1, long);
    hide Cycles, EntrySource, RoundSource, SpanRows, ReplayForNewDecoders, Sound, IndexerSpec.Step, InsertAll, Simple,
         UniqueLogs, QuietBelow, Rows.Holds;
    var rewound := ReplayForNewDecoders(cfg, Answering(long), db).0;
    AnsweredStep(cfg, long, rewound, 2);
    HeldAlready(db.entries, EntrySource([VAULT]), long, 1, 2, 3);
    HeldAlready(db.rounds, RoundSource([VAULT]), long, 1, 2, 3);
  }

  lemma HeldAlready<T>(t: Table<T>, f: RowSource<T>, chain: Blocks, lo: nat, mid: nat, hi: nat)
    requires lo <= mid <= hi <= |chain| && Rows.Holds(t, f, chain, lo, hi)
    ensures InsertAll(t, SpanRows(f, chain, lo, mid)) == t
  {
    hide SpanRows, InsertAll;
    SpanJoin(f, chain, lo, mid, hi);
    InsertIsIdempotent(t, SpanRows(f, chain, lo, mid));
  }

  lemma NothingBelowTheStart<T>(t: Table<T>, f: RowSource<T>, chain: Blocks, lo: nat, hi: nat)
    requires Stamped(f) && hi <= |chain| && Rows.Holds(t, f, chain, lo, hi)
    ensures DeleteFrom(t, lo) == map[]
  {
    hide SpanRows, Stamped;
    forall k | k in t ensures t[k].prov.blockNumber >= lo { SpanHeight(f, chain, lo, hi, lo, hi, t[k]); }
  }

  lemma NothingBelowBlockOne(version: Version, chain: Blocks)
    requires Simple(chain)
    ensures DeleteFrom(IndexedOnce(version, chain).entries, 1) == map[]
    ensures DeleteFrom(IndexedOnce(version, chain).rounds, 1) == map[]
  {
    hide EntrySource, RoundSource, Stamped, DeleteFrom, IndexedOnce, Rows.Holds;
    OneCycleIndexes(version, chain);
    SourcesAreStamped([VAULT]);
    NothingBelowTheStart(IndexedOnce(version, chain).entries, EntrySource([VAULT]), chain, 1, |chain| - 1);
    NothingBelowTheStart(IndexedOnce(version, chain).rounds, RoundSource([VAULT]), chain, 1, |chain| - 1);
  }

  /** Nothing held is nothing wrong. */
  lemma EmptyIsRight(cfg: Config, db: Db, chain: Blocks, hi: nat)
    requires TablesEmpty(db)
    ensures AllOnChain(cfg, db, chain, hi) && AllHeld(cfg, db, chain, cfg.startBlock)
  {}

  /** A cursor on block 1, which has changed and still has a log, over rows of nothing below. */
  lemma RolledBackIsRight(cfg: Config, other: Blocks, db: Db, key: Key, hash: Hash, k: nat)
    requires cfg == Settings1("new", 1) && Simple(other) && |other| == 4 && IsBusy(other[1]) && k > 1
    requires db.cursor == Some(Cursor(1, Some(hash), "new")) && hash != other[1].hash
    requires key in db.entries && db.entries[key].prov.blockNumber == 1
    requires DeleteFrom(db.entries, 1) == map[] && DeleteFrom(db.rounds, 1) == map[]
    ensures IsStraightRead(cfg, Cycles(cfg, other, db, k), other, 2)
  {
    hide StillServed, LowestHeld;
    SimpleIsSound("new", 1, other);
    CheckRollsBack(cfg, other, db, key, 1);
    hide Cycles, IsStraightRead, UniqueLogs, Sound, QuietBelow, Simple, IsBusy, AllOnChain, AllHeld, DeleteFrom,
         MayGoOn, Checked, ReadsFrom;
    EmptyIsRight(cfg, RolledBack(db, 1), other, 3);
    ComesRightExactlyWhen(cfg, other, db, 2, k);
  }

  lemma OnlyTheTopMoves(long: Blocks, other: Blocks, db: Db)
    requires DropsTheSecond(long, other)
    ensures Allowed(Settings1("new", 1), {long, other}, World(db, long, 2), Moves(other))
  {}

  lemma Heals(long: Blocks, other: Blocks, k: nat)
    requires DropsTheSecond(long, other) && k > 1
    ensures
      var cfg, db := Settings1("new", 1), IndexedOnce("old", long);
      var partway := db.(cursor := Some(Cursor(1, Some(long[1].hash), "new")));
      && Allowed(cfg, {long, other}, World(partway, long, 2), Moves(other))
      && !AllOnChain(cfg, partway, other, 4)
      && IsStraightRead(cfg, Cycles(cfg, other, partway, k), other, 2)
  {
    var cfg, db := Settings1("new", 1), IndexedOnce("old", long);
    var partway := db.(cursor := Some(Cursor(1, Some(long[1].hash), "new")));
    OnlyTheTopMoves(long, other, partway);
    hide Cycles, EntrySource, RoundSource, SpanRows, IsStraightRead, Stamped, Simple, Names, RowOf, OnlyOf, DeleteFrom,
         IndexedOnce, Rows.Holds, Allowed, IsBusy;
    DroppedRow("old", long, other, 2, 4);
    IndexedRow("old", long, 1);
    NothingBelowBlockOne("old", long);
    RolledBackIsRight(cfg, other, partway, Key(long[1].logs[0].txHash, 0, 0), long[1].hash, k);
  }

  /** Once the replay has read a block again, a reorg of it is seen: the rollback takes the rows above the
      cursor with it, the dropped ones among them, and the replay ends right. */
  lemma AReorgCanHealAReplay(k: nat)
    requires k > 1
    ensures
      var cfg, db := Settings1("new", 1), IndexedOnce("old", LONG);
      var rewound := ReplayForNewDecoders(cfg, Answering(LONG), db).0;
      var partway := IndexerSpec.Step(cfg, Answering(LONG), rewound).0;
      && Allowed(cfg, {LONG, OTHER}, World(partway, LONG, 2), Moves(OTHER))
      && !AllOnChain(cfg, partway, OTHER, 4)
      && IsStraightRead(cfg, Cycles(cfg, OTHER, partway, k), OTHER, 2)
  {
    TheSecondIsDropped();
    assert Simple(LONG) && |LONG| == 4;
    hide DropsTheSecond, Simple, IndexedOnce, ReplayForNewDecoders, IndexerSpec.Step, Allowed, AllOnChain, Cycles,
         IsStraightRead;
    OneBlockReplayed(LONG);
    Heals(LONG, OTHER, k);
  }

  // ---- A replay that loses a row ------------------------------------------------------------------------

  /** A deposit in block 2; then in block 1, with another in block 2; then block 3 changes. */
  predicate MovesADeposit(first: Blocks, moved: Blocks, last: Blocks) {
    && Simple(first) && Simple(moved) && Simple(last) && |first| == 4 && |moved| == 5 && |last| == 5
    && first[0] == moved[0] && moved[..3] == last[..3] && moved[3].hash != last[3].hash && last[3].logs == []
    && IsBusy(first[2]) && IsBusy(moved[1]) && SameTx(moved[1], first[2]) && IsBusy(moved[2])
  }

  const FIRST: Blocks := [Quiet(1), Quiet(2), Busy(3, 7), Quiet(4)]
  const MOVED: Blocks := [Quiet(1), Busy(20, 7), Busy(30, 8), Quiet(40), Quiet(50)]
  const LAST: Blocks := [Quiet(1), Busy(20, 7), Busy(30, 8), Quiet(41), Quiet(51)]

  lemma FirstIsSimple()
    ensures Simple(FIRST)
  {}

  lemma MovedIsSimple()
    ensures Simple(MOVED)
  {}

  lemma LastIsSimple()
    ensures Simple(LAST)
  {}

  lemma ADepositIsMoved()
    ensures MovesADeposit(FIRST, MOVED, LAST)
  {
    hide Simple;
    FirstIsSimple();
    MovedIsSimple();
    LastIsSimple();
  }

  /** The first reorg comes right after the rewind, and one cycle reads blocks 1 to 3; the row that moved is
      not taken, its key being held. */
  lemma TheRowIsNotTaken(first: Blocks, moved: Blocks, last: Blocks)
    requires MovesADeposit(first, moved, last)
    ensures
      var cfg, db := Settings1("new", 10), IndexedOnce("old", first);
      var rewound := ReplayForNewDecoders(cfg, Answering(first), db).0;
      var after, k := IndexerSpec.Step(cfg, Answering(moved), rewound).0, Key(first[2].logs[0].txHash, 0, 0);
      && after.cursor == Some(Cursor(3, Some(moved[3].hash), "new"))
      && k in after.entries && after.entries[k].prov.blockNumber == 2
  {
    var cfg, db := Settings1("new", 10), IndexedOnce("old", first);
    OneCycleIndexes("old", first);
    NewDecodersRewind(first, 10);
    SimpleIsSound("new", 10, moved);
    RowIsThere(first, 2, 1, 3);
    hide Cycles, EntrySource, RoundSource, SpanRows, ReplayForNewDecoders, Sound, IndexerSpec.Step, InsertAll, Simple,
         UniqueLogs, QuietBelow, RowOf;
    var rewound := ReplayForNewDecoders(cfg, Answering(first), db).0;
    AnsweredStep(cfg, moved, rewound, 3);
    InsertContents(rewound.entries, SpanRows(EntrySource([VAULT]), moved, 1, 4));
  }

  lemma Loses(first: Blocks, moved: Blocks, last: Blocks, db: Db, k: nat)
    requires MovesADeposit(first, moved, last) && k > 0
    requires db.cursor == Some(Cursor(3, Some(moved[3].hash), "new"))
    requires
      var key := Key(first[2].logs[0].txHash, 0, 0);
      key in db.entries && db.entries[key].prov.blockNumber == 2
    ensures RowOf(last, 1) in SpanRows(EntrySource([VAULT]), last, 1, 2)
    ensures KeyOf(RowOf(last, 1)) !in Cycles(Settings1("new", 10), last, db, k).entries
  {
    var cfg, key := Settings1("new", 10), Key(first[2].logs[0].txHash, 0, 0);
    assert last[1] == moved[..3][1] && last[2] == moved[..3][2];
    SimpleIsSound("new", 10, last);
    RowIsThere(last, 1, 1, 2);
    hide Cycles, EntrySource, RoundSource, SpanRows, Sound, InsertAll, UniqueLogs, QuietBelow, RowOf, MayGoOn, Checked;
    CheckRollsBack(cfg, last, db, key, 2);
    CheckedFirst(cfg, last, db, k);
    var now := Checked(cfg, Answering(last), db).0;
    assert key !in now.entries;
    CyclesFill(cfg, last, now, 3, k);
    InsertContents(now.entries, SpanRows(EntrySource([VAULT]), last, 2, 4));
    if key in Cycles(cfg, last, db, k).entries {
      var h := RowsNameTheirBlocks(last, 2, 4, Cycles(cfg, last, db, k).entries[key]);
      assert false;
    }
  }

  /** Losing a row: a reorg right after the rewind moves a deposit one block down, the replay leaves it out
      because the old row holds its key, and a second reorg deletes that row with the blocks above. The
      deposit is in a block of the chain below the cursor, and in no table ever after. */
  lemma AReorgCanLoseARow(k: nat)
    requires k > 0
    ensures
      var cfg, db := Settings1("new", 10), IndexedOnce("old", FIRST);
      var rewound := ReplayForNewDecoders(cfg, Answering(FIRST), db).0;
      var replayed := IndexerSpec.Step(cfg, Answering(MOVED), rewound).0;
      && Allowed(cfg, {FIRST, MOVED, LAST}, World(rewound, FIRST, 2), Moves(MOVED))
      && Allowed(cfg, {FIRST, MOVED, LAST}, World(replayed, MOVED, 3), Moves(LAST))
      && IsBusy(LAST[1]) && RowOf(LAST, 1) in SpanRows(EntrySource([VAULT]), LAST, 1, 2)
      && KeyOf(RowOf(LAST, 1)) !in Cycles(cfg, LAST, replayed, k).entries
  {
    var cfg, db := Settings1("new", 10), IndexedOnce("old", FIRST);
    var rewound := ReplayForNewDecoders(cfg, Answering(FIRST), db).0;
    var replayed := IndexerSpec.Step(cfg, Answering(MOVED), rewound).0;
    ADepositIsMoved();
    BothMayMove(rewound, replayed);
    hide MovesADeposit, IndexedOnce, ReplayForNewDecoders, IndexerSpec.Step, Allowed, Cycles, SpanRows, RowOf;
    TheRowIsNotTaken(FIRST, MOVED, LAST);
    Loses(FIRST, MOVED, LAST, replayed, k);
  }

  lemma BothMayMove(rewound: Db, replayed: Db)
    ensures Allowed(Settings1("new", 10), {FIRST, MOVED, LAST}, World(rewound, FIRST, 2), Moves(MOVED))
    ensures Allowed(Settings1("new", 10), {FIRST, MOVED, LAST}, World(replayed, MOVED, 3), Moves(LAST))
    ensures IsBusy(LAST[1])
  {}
}
