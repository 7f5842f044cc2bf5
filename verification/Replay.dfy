/** Re-reading the indexed range after a decoder change (indexer.go, replayForNewDecoders): it ends
    with exactly the tables a fresh index would build, touches no row there was, and is asked for
    at most once a version. The chain only grows meanwhile: a replay leaves rows above the cursor,
    where the reorg check does not look. */
module Replay {
  import opened FixedPoint
  import opened Ledger
  import opened Tables
  import opened Chain
  import opened Decoder
  import opened LedgerStore
  import opened IndexerSpec
  import opened Rows
  import opened Reading
  import opened Convergence
  import opened Progress
  import opened RereadGuard

  // ---- Decoders that only append ---------------------------------------------------------------

  /** g's records of a log begin with f's. */
  ghost predicate Extends<T>(f: RowSource<T>, g: RowSource<T>) {
    forall h, b, l :: BeginsAlike(f, g, h, b, l)
  }

  ghost predicate BeginsAlike<T>(f: RowSource<T>, g: RowSource<T>, h: nat, b: Block, l: Log) {
    f(h, b, l) <= g(h, b, l)
  }

  lemma OldRowsAreNewRows<T>(f: RowSource<T>, g: RowSource<T>, chain: Blocks, lo: nat, hi: nat, r: Record<T>)
    requires Extends(f, g) && hi <= |chain| && r in SpanRows(f, chain, lo, hi)
    ensures r in SpanRows(g, chain, lo, hi)
  {
    SpanMember(f, chain, lo, hi, r);
    var h: nat, j: nat, i: nat :| lo <= h < hi && RowAt(f, chain, h, j, i, r);
    assert BeginsAlike(f, g, h, chain[h], chain[h].logs[j]);
    assert RowAt(g, chain, h, j, i, r);
    SpanMember(g, chain, lo, hi, r);
  }

  // ---- A table part-way through a replay ---------------------------------------------------------

  /** New rows up to n, old rows up to top, and nothing else. */
  ghost predicate Partway<T>(t: Table<T>, f: RowSource<T>, g: RowSource<T>, chain: Blocks, lo: nat, n: nat, top: nat) {
    && (forall r :: r in SpanRows(g, chain, lo, n) ==> KeyOf(r) in t && t[KeyOf(r)] == r)
    && (forall r :: r in SpanRows(f, chain, lo, top) ==> KeyOf(r) in t && t[KeyOf(r)] == r)
    && (forall k :: k in t ==>
          (t[k] in SpanRows(g, chain, lo, n) || t[k] in SpanRows(f, chain, lo, top)) && KeyOf(t[k]) == k)
  }

  lemma PartwayRowsAreNew<T>(t: Table<T>, f: RowSource<T>, g: RowSource<T>, chain: Blocks, lo: nat, n: nat, top: nat,
                             k: Key)
    requires Extends(f, g) && lo <= n <= |chain| && lo <= top <= |chain| && Partway(t, f, g, chain, lo, n, top)
      && k in t
    ensures t[k] in SpanRows(g, chain, lo, |chain|)
  {
    if t[k] in SpanRows(g, chain, lo, n) {
      SpanJoin(g, chain, lo, n, |chain|);
    } else {
      OldRowsAreNewRows(f, g, chain, lo, top, t[k]);
      SpanJoin(g, chain, lo, top, |chain|);
    }
  }

  /** Reading the next range adds its new records and leaves every old row as it was. */
  lemma PartwayAdvances<T>(t: Table<T>, f: RowSource<T>, g: RowSource<T>, chain: Blocks, lo: nat, n: nat, n': nat,
                           top: nat)
    requires Stamped(g) && Extends(f, g) && UniqueLogs(chain)
    requires lo <= n <= n' <= |chain| && lo <= top <= |chain|
    requires Partway(t, f, g, chain, lo, n, top)
    ensures Partway(InsertAll(t, SpanRows(g, chain, n, n')), f, g, chain, lo, n', top)
    ensures Kept(t, InsertAll(t, SpanRows(g, chain, n, n')))
  {
    var rows := SpanRows(g, chain, n, n');
    var u := InsertAll(t, rows);
    InsertContents(t, rows);
    SpanJoin(g, chain, lo, n, n');
    SpanJoin(g, chain, lo, n', |chain|);
    forall r | r in SpanRows(g, chain, lo, n')
      ensures KeyOf(r) in u && u[KeyOf(r)] == r
    {
      assert KeyOf(r) in u by {
        if r in SpanRows(g, chain, lo, n) { assert KeyOf(r) in t; } else { assert r in rows; }
      }
      NewRowOf(t, f, g, chain, lo, n, n', top, u, KeyOf(r));
      KeysAreUnique(g, chain, lo, |chain|, r, u[KeyOf(r)]);
    }
  }

  lemma NewRowOf<T>(t: Table<T>, f: RowSource<T>, g: RowSource<T>, chain: Blocks, lo: nat, n: nat, n': nat, top: nat,
                    u: Table<T>, k: Key)
    requires Extends(f, g) && lo <= n <= n' <= |chain| && lo <= top <= |chain|
    requires Partway(t, f, g, chain, lo, n, top)
    requires u == InsertAll(t, SpanRows(g, chain, n, n')) && k in u
    ensures u[k] in SpanRows(g, chain, lo, |chain|) && KeyOf(u[k]) == k
  {
    InsertContents(t, SpanRows(g, chain, n, n'));
    if k in t {
      PartwayRowsAreNew(t, f, g, chain, lo, n, top, k);
    } else {
      SpanJoin(g, chain, lo, n, n');
      SpanJoin(g, chain, lo, n', |chain|);
    }
  }

  /** Once past where it started, a replay has built the fresh table. */
  lemma PartwayIsFresh<T>(t: Table<T>, f: RowSource<T>, g: RowSource<T>, chain: Blocks, lo: nat, n: nat, top: nat)
    requires Stamped(g) && Extends(f, g) && UniqueLogs(chain)
    requires lo <= top <= n <= |chain|
    requires Partway(t, f, g, chain, lo, n, top)
    ensures t == StraightRead(g, chain, lo, n)
  {
    forall k | k in t ensures t[k] in SpanRows(g, chain, lo, n) {
      if t[k] !in SpanRows(g, chain, lo, n) {
        OldRowsAreNewRows(f, g, chain, lo, top, t[k]);
        SpanJoin(g, chain, lo, top, n);
      }
    }
    HoldsIsStraightRead(t, g, chain, lo, n);
  }

  // ---- The replay itself -------------------------------------------------------------------------

  /** What the previous decoders had indexed: `previous` watches the same contracts. The chain is the one
      there is in the end; until then an endpoint may show less of it. */
  datatype Upgrade = Upgrade(previous: seq<ContractSpec>, cfg: Config, chain: Blocks, top: nat)

  ghost predicate Upgradable(u: Upgrade) {
    && !u.cfg.skipDecoderReplay
    && UniqueLogs(u.chain)
    && u.cfg.startBlock <= u.top < |u.chain|
    && Watched(u.previous) == Watched(u.cfg.contracts)
    && Extends(EntrySource(u.previous), EntrySource(u.cfg.contracts))
    && Extends(RoundSource(u.previous), RoundSource(u.cfg.contracts))
  }

  /** Before the upgrade: the old decoders' rows up to `top`, stamped with another version. */
  ghost predicate IndexedByOld(u: Upgrade, db: Db) {
    && db.cursor.Some? && db.cursor.value.lastBlock == u.top && db.cursor.value.decoders != u.cfg.version
    && Holds(db.entries, EntrySource(u.previous), u.chain, u.cfg.startBlock, u.top + 1)
    && Holds(db.rounds, RoundSource(u.previous), u.chain, u.cfg.startBlock, u.top + 1)
  }

  /** During and after: the cursor stands on the chain, below it the new rows, above it the old. */
  ghost predicate Replaying(u: Upgrade, db: Db) {
    && db.cursor.Some? && u.cfg.startBlock <= db.cursor.value.lastBlock + 1 <= |u.chain|
    && db.cursor.value.lastHash in {None, Some(u.chain[db.cursor.value.lastBlock].hash)}
    && (db.cursor.value.decoders == u.cfg.version || db.cursor.value.lastBlock < u.cfg.startBlock)
    && TablesPartway(u, db, db.cursor.value.lastBlock + 1)
  }

  ghost predicate TablesPartway(u: Upgrade, db: Db, n: nat) {
    EntriesPartway(u, db.entries, n) && RoundsPartway(u, db.rounds, n)
  }

  ghost predicate EntriesPartway(u: Upgrade, t: Table<EntryBody>, n: nat) {
    Partway(t, EntrySource(u.previous), EntrySource(u.cfg.contracts), u.chain, u.cfg.startBlock, n, u.top + 1)
  }

  ghost predicate RoundsPartway(u: Upgrade, t: Table<RoundBody>, n: nat) {
    Partway(t, RoundSource(u.previous), RoundSource(u.cfg.contracts), u.chain, u.cfg.startBlock, n, u.top + 1)
  }

  ghost predicate Kept<T>(t: Table<T>, t': Table<T>) {
    forall k :: k in t ==> k in t' && t'[k] == t[k]
  }

  /** Every row of `before` is still there, unchanged. */
  ghost predicate Untouched(before: Db, after: Db) {
    Kept(before.entries, after.entries) && Kept(before.rounds, after.rounds)
  }

  lemma UntouchedIsTransitive(a: Db, b: Db, c: Db)
    ensures Untouched(a, a)
    ensures Untouched(a, b) && Untouched(b, c) ==> Untouched(a, c)
  {}

  lemma RewindStarts(u: Upgrade, db: Db, net: Endpoint)
    requires Upgradable(u) && IndexedByOld(u, db)
    requires ReplayForNewDecoders(u.cfg, net, db).1.Rewound?
    ensures Replaying(u, ReplayForNewDecoders(u.cfg, net, db).0)
    ensures Untouched(db, ReplayForNewDecoders(u.cfg, net, db).0)
  {
    var db' := ReplayForNewDecoders(u.cfg, net, db).0;
    assert db' == Replayed(db, u.cfg.startBlock);
    assert SpanRows(EntrySource(u.cfg.contracts), u.chain, u.cfg.startBlock, u.cfg.startBlock) == [];
    assert SpanRows(RoundSource(u.cfg.contracts), u.chain, u.cfg.startBlock, u.cfg.startBlock) == [];
  }

  /** The boot does rewind when the endpoint answers. */
  lemma HonestBootRewinds(u: Upgrade, db: Db)
    requires Upgradable(u) && IndexedByOld(u, db)
    ensures ReplayForNewDecoders(u.cfg, Answering(u.chain), db).1.Rewound?
  {
    hide SpanRows, EntrySource, RoundSource;
    forall k | k in db.entries && HeldIn(db.entries, k, u.cfg.startBlock, u.top)
      ensures db.entries[k] in SpanRows(EntrySource(u.cfg.contracts), u.chain, u.cfg.startBlock, u.top + 1)
    {
      OldRowsAreNewRows(EntrySource(u.previous), EntrySource(u.cfg.contracts), u.chain, u.cfg.startBlock, u.top + 1,
                        db.entries[k]);
    }
    forall k | k in db.rounds && HeldIn(db.rounds, k, u.cfg.startBlock, u.top)
      ensures db.rounds[k] in SpanRows(RoundSource(u.cfg.contracts), u.chain, u.cfg.startBlock, u.top + 1)
    {
      OldRowsAreNewRows(RoundSource(u.previous), RoundSource(u.cfg.contracts), u.chain, u.cfg.startBlock, u.top + 1,
                        db.rounds[k]);
    }
    HonestEndpointsPass(u.cfg, Answering(u.chain), db, u.cfg.startBlock, u.top);
  }

  lemma ReplayDoesNotRollBack(u: Upgrade, db: Db, net: Endpoint)
    requires Upgradable(u) && Replaying(u, db) && net.chain <= u.chain
    ensures Checked(u.cfg, net, db).0 == db
    ensures Checked(u.cfg, net, db).1 in {Err, Ok(db.cursor.value)}
  {}

  lemma ReadKeepsReplaying(u: Upgrade, db: Db, net: Endpoint, n: nat, upTo: nat, head: nat)
    requires Upgradable(u) && net.chain <= u.chain && Truthful(net)
    requires u.cfg.startBlock <= n <= upTo < |net.chain| && TablesPartway(u, db, n)
    requires ReadRange(u.cfg, net, db, n, upTo, head).1.Indexed?
    ensures
      var db' := ReadRange(u.cfg, net, db, n, upTo, head).0;
      Replaying(u, db') && Untouched(db, db') && db'.cursor.value.lastBlock == upTo
  {
    hide SpanRows, EntrySource, RoundSource;
    CommittedRange(u.cfg, net, db, n, upTo, head);
    SpanAgrees(EntrySource(u.cfg.contracts), net.chain, u.chain, n, upTo + 1);
    SpanAgrees(RoundSource(u.cfg.contracts), net.chain, u.chain, n, upTo + 1);
    CommitKeepsReplaying(u, db, n, upTo, Cursor(upTo, Some(u.chain[upTo].hash), u.cfg.version));
  }

  lemma CommitKeepsReplaying(u: Upgrade, db: Db, n: nat, upTo: nat, next: Cursor)
    requires Upgradable(u) && u.cfg.startBlock <= n <= upTo < |u.chain| && TablesPartway(u, db, n)
    requires next == Cursor(upTo, Some(u.chain[upTo].hash), u.cfg.version)
    ensures
      var batch := Batch(SpanRows(EntrySource(u.cfg.contracts), u.chain, n, upTo + 1),
                         SpanRows(RoundSource(u.cfg.contracts), u.chain, n, upTo + 1));
      Replaying(u, Appended(db, batch, next)) && Untouched(db, Appended(db, batch, next))
  {
    hide SpanRows, EntrySource, RoundSource;
    EntriesAdvance(u, db.entries, n, upTo + 1);
    RoundsAdvance(u, db.rounds, n, upTo + 1);
  }

  lemma EntriesAdvance(u: Upgrade, t: Table<EntryBody>, n: nat, n': nat)
    requires UniqueLogs(u.chain) && Extends(EntrySource(u.previous), EntrySource(u.cfg.contracts))
    requires u.cfg.startBlock <= u.top < |u.chain| && u.cfg.startBlock <= n <= n' <= |u.chain|
      && EntriesPartway(u, t, n)
    ensures
      var t' := InsertAll(t, SpanRows(EntrySource(u.cfg.contracts), u.chain, n, n'));
      EntriesPartway(u, t', n') && Kept(t, t')
  {
    hide SpanRows, EntrySource, RoundSource;
    EntriesAreStamped(u.cfg.contracts);
    PartwayAdvances(t, EntrySource(u.previous), EntrySource(u.cfg.contracts), u.chain, u.cfg.startBlock, n, n',
                    u.top + 1);
  }

  lemma RoundsAdvance(u: Upgrade, t: Table<RoundBody>, n: nat, n': nat)
    requires UniqueLogs(u.chain) && Extends(RoundSource(u.previous), RoundSource(u.cfg.contracts))
    requires u.cfg.startBlock <= u.top < |u.chain| && u.cfg.startBlock <= n <= n' <= |u.chain| && RoundsPartway(u, t, n)
    ensures
      var t' := InsertAll(t, SpanRows(RoundSource(u.cfg.contracts), u.chain, n, n'));
      RoundsPartway(u, t', n') && Kept(t, t')
  {
    hide SpanRows, EntrySource, RoundSource;
    RoundsAreStamped(u.cfg.contracts);
    PartwayAdvances(t, RoundSource(u.previous), RoundSource(u.cfg.contracts), u.chain, u.cfg.startBlock, n, n',
                    u.top + 1);
  }

  lemma CycleKeepsReplaying(u: Upgrade, db: Db, net: Endpoint)
    requires Upgradable(u) && Replaying(u, db) && net.chain <= u.chain && Truthful(net)
    ensures Replaying(u, Step(u.cfg, net, db).0) && Untouched(db, Step(u.cfg, net, db).0)
  {
    hide SpanRows, EntrySource, RoundSource;
    StepShape(u.cfg, net, db);
    ReplayDoesNotRollBack(u, db, net);
    ShapeKeepsReplaying(u, db, net, Step(u.cfg, net, db), |net.chain| - 1);
  }

  lemma ShapeKeepsReplaying(u: Upgrade, db: Db, net: Endpoint, after: (Db, Outcome), head: int)
    requires Upgradable(u) && Replaying(u, db) && net.chain <= u.chain && Truthful(net) && head == |net.chain| - 1
    requires after.1.Indexed? ==>
      && after.1.fromBlock == db.cursor.value.lastBlock + 1 <= after.1.toBlock <= head
      && after == ReadRange(u.cfg, net, db, after.1.fromBlock, after.1.toBlock, head)
    requires !after.1.Indexed? ==> after.0 == db
    ensures Replaying(u, after.0) && Untouched(db, after.0)
  {
    hide SpanRows, EntrySource, RoundSource;
    if after.1.Indexed? {
      ReadKeepsReplaying(u, db, net, after.1.fromBlock, after.1.toBlock, head);
    }
  }

  /** A process booting, polling or dying; or the chain growing. It polls only once its boot has gone
      through. */
  datatype Moment = Boots(down: set<Call>) | Polls(down: set<Call>) | Crash | Grows(height: nat)

  /** `height` is how much of the chain there is so far. */
  datatype Process = Process(db: Db, running: bool, height: nat)

  function SoFar(u: Upgrade, p: Process): Blocks
    requires p.height <= |u.chain|
  {
    u.chain[..p.height]
  }

  function Next(u: Upgrade, p: Process, e: Moment): (p': Process)
    requires p.height <= |u.chain|
    ensures p'.height <= |u.chain|
  {
    match e
    case Boots(down) =>
      var (db, outcome) := ReplayForNewDecoders(u.cfg, Endpoint(SoFar(u, p), down, {}), p.db);
      p.(db := db, running := !outcome.Failed?)
    case Polls(down) =>
      if p.running then p.(db := Step(u.cfg, Endpoint(SoFar(u, p), down, {}), p.db).0) else p
    case Crash => p.(running := false)
    case Grows(height) => if p.height <= height <= |u.chain| then p.(height := height) else p
  }

  function Run(u: Upgrade, p: Process, events: seq<Moment>): Process
    requires p.height <= |u.chain|
    decreases |events|
  {
    if events == [] then p else Run(u, Next(u, p, events[0]), events[1..])
  }

  ghost predicate Underway(u: Upgrade, db0: Db, p: Process) {
    Untouched(db0, p.db) && (Replaying(u, p.db) || (p.db == db0 && !p.running))
  }

  lemma BootKeepsUnderway(u: Upgrade, db0: Db, p: Process, down: set<Call>)
    requires Upgradable(u) && IndexedByOld(u, db0) && Underway(u, db0, p) && p.height <= |u.chain|
    ensures Underway(u, db0, Next(u, p, Boots(down)))
  {
    hide SpanRows, EntrySource, RoundSource;
    var net := Endpoint(SoFar(u, p), down, {});
    if Replaying(u, p.db) {
      assert ReplayForNewDecoders(u.cfg, net, p.db).0 == p.db;
    } else if ReplayForNewDecoders(u.cfg, net, p.db).1.Rewound? {
      RewindStarts(u, p.db, net);
    }
  }

  /** Whatever boots, cycles, failures and crashes follow an upgrade, and however the chain grows
      meanwhile, no row indexed before it is lost or changed, and once the cursor is back where it was
      both tables are exactly what a fresh index with the new decoders would hold there. */
  lemma {:induction false} ReplayEqualsFreshIndex(u: Upgrade, db0: Db, p: Process, events: seq<Moment>)
    requires Upgradable(u) && IndexedByOld(u, db0) && Underway(u, db0, p) && p.height <= |u.chain|
    ensures
      var p' := Run(u, p, events);
      && Untouched(db0, p'.db)
      && (p'.db != db0 ==>
            && p'.db.cursor.Some? && p'.db.cursor.value.lastBlock < |u.chain|
            && (p'.db.cursor.value.lastBlock >= u.top ==>
                  IsStraightRead(u.cfg, p'.db, u.chain, p'.db.cursor.value.lastBlock)))
    decreases |events|
  {
    hide SpanRows, EntrySource, RoundSource;
    if events == [] {
      if p.db != db0 && p.db.cursor.value.lastBlock >= u.top { ReplayIsComplete(u, p.db); }
    } else {
      var e := events[0];
      match e {
        case Boots(down) => BootKeepsUnderway(u, db0, p, down);
        case Polls(down) => if p.running { CycleKeepsReplaying(u, p.db, Endpoint(SoFar(u, p), down, {})); }
        case Crash =>
        case Grows(_) =>
      }
      ReplayEqualsFreshIndex(u, db0, Next(u, p, e), events[1..]);
    }
  }

  lemma ReplayIsComplete(u: Upgrade, db: Db)
    requires Upgradable(u) && Replaying(u, db) && db.cursor.value.lastBlock >= u.top
    ensures IsStraightRead(u.cfg, db, u.chain, db.cursor.value.lastBlock)
  {
    hide SpanRows, EntrySource, RoundSource;
    EntriesAreFresh(u, db, db.cursor.value.lastBlock + 1);
    RoundsAreFresh(u, db, db.cursor.value.lastBlock + 1);
  }

  lemma EntriesAreFresh(u: Upgrade, db: Db, n: nat)
    requires UniqueLogs(u.chain) && Extends(EntrySource(u.previous), EntrySource(u.cfg.contracts))
    requires u.cfg.startBlock <= u.top < n <= |u.chain| && EntriesPartway(u, db.entries, n)
    ensures db.entries == StraightRead(EntrySource(u.cfg.contracts), u.chain, u.cfg.startBlock, n)
  {
    hide SpanRows, EntrySource, RoundSource;
    EntriesAreStamped(u.cfg.contracts);
    PartwayIsFresh(db.entries, EntrySource(u.previous), EntrySource(u.cfg.contracts), u.chain, u.cfg.startBlock, n,
                   u.top + 1);
  }

  lemma RoundsAreFresh(u: Upgrade, db: Db, n: nat)
    requires UniqueLogs(u.chain) && Extends(RoundSource(u.previous), RoundSource(u.cfg.contracts))
    requires u.cfg.startBlock <= u.top < n <= |u.chain| && RoundsPartway(u, db.rounds, n)
    ensures db.rounds == StraightRead(RoundSource(u.cfg.contracts), u.chain, u.cfg.startBlock, n)
  {
    hide SpanRows, EntrySource, RoundSource;
    RoundsAreStamped(u.cfg.contracts);
    PartwayIsFresh(db.rounds, RoundSource(u.previous), RoundSource(u.cfg.contracts), u.chain, u.cfg.startBlock, n,
                   u.top + 1);
  }

  // ---- It finishes -------------------------------------------------------------------------------

  lemma {:induction false} ReplayCyclesReach(u: Upgrade, db: Db, safeHead: nat, k: nat)
    requires Upgradable(u) && Sound(u.cfg, u.chain) && Replaying(u, db)
    requires safeHead + u.cfg.confirmations == |u.chain| - 1
    requires db.cursor.value.lastBlock <= safeHead && Enough(u.cfg, db.cursor.value.lastBlock + 1, k, safeHead)
    ensures
      var db' := Cycles(u.cfg, u.chain, db, k);
      Replaying(u, db') && Untouched(db, db') && db'.cursor.value.lastBlock == safeHead
    decreases k
  {
    hide SpanRows, EntrySource, RoundSource, Step, Enough, Upgradable, TablesPartway, WindowEnd, Kept;
    OneWindowLess(u.cfg, db.cursor.value.lastBlock + 1, safeHead, k);
    if k == 0 {
      UntouchedIsTransitive(db, db, db);
    } else {
      AnsweredCycle(u, db, safeHead);
      ReplayCyclesReach(u, Step(u.cfg, Answering(u.chain), db).0, safeHead, k - 1);
      UntouchedIsTransitive(db, Step(u.cfg, Answering(u.chain), db).0, Cycles(u.cfg, u.chain, db, k));
    }
  }

  lemma AnsweredCycle(u: Upgrade, db: Db, safeHead: nat)
    requires Upgradable(u) && Sound(u.cfg, u.chain) && Replaying(u, db)
    requires safeHead + u.cfg.confirmations == |u.chain| - 1 && db.cursor.value.lastBlock <= safeHead
    ensures
      var n := db.cursor.value.lastBlock + 1;
      var db' := Step(u.cfg, Answering(u.chain), db).0;
      && Replaying(u, db') && Untouched(db, db')
      && db'.cursor.value.lastBlock == if n <= safeHead then WindowEnd(u.cfg, n, safeHead) else n - 1
  {
    hide SpanRows, EntrySource, RoundSource;
    CycleKeepsReplaying(u, db, Answering(u.chain));
    AnsweredCursor(u, db, safeHead, db.cursor.value);
  }

  lemma AnsweredCursor(u: Upgrade, db: Db, safeHead: nat, c: Cursor)
    requires Sound(u.cfg, u.chain) && db.cursor == Some(c)
    requires safeHead + u.cfg.confirmations == |u.chain| - 1 && c.lastBlock <= safeHead
    requires c.lastHash in {None, Some(u.chain[c.lastBlock].hash)}
    ensures
      var db' := Step(u.cfg, Answering(u.chain), db).0;
      && db'.cursor.Some?
      && db'.cursor.value.lastBlock
      == if c.lastBlock + 1 <= safeHead then WindowEnd(u.cfg, c.lastBlock + 1, safeHead) else c.lastBlock
  {
    hide SpanRows, EntrySource, RoundSource;
    var n := c.lastBlock + 1;
    assert Checked(u.cfg, Answering(u.chain), db) == (db, Ok(c));
    if n <= safeHead {
      RangeIsRead(u.cfg, u.chain, db, n, WindowEnd(u.cfg, n, safeHead), |u.chain| - 1);
      IndexedCursor(u.cfg, Answering(u.chain), db, n, WindowEnd(u.cfg, n, safeHead), |u.chain| - 1);
    }
  }

  /** One boot and enough cycles of an endpoint that answers complete the replay: both tables are
      one straight read by the new decoders, with every old row in place. */
  lemma UpgradeConverges(u: Upgrade, db0: Db, safeHead: nat, k: nat)
    requires Upgradable(u) && IndexedByOld(u, db0) && Sound(u.cfg, u.chain)
    requires safeHead + u.cfg.confirmations == |u.chain| - 1 && u.top <= safeHead
    requires Enough(u.cfg, u.cfg.startBlock, k, safeHead)
    ensures
      var rewound := ReplayForNewDecoders(u.cfg, Answering(u.chain), db0).0;
      var db := Cycles(u.cfg, u.chain, rewound, k);
      Untouched(db0, db) && IsStraightRead(u.cfg, db, u.chain, safeHead)
  {
    hide SpanRows, EntrySource, RoundSource;
    HonestBootRewinds(u, db0);
    RewindStarts(u, db0, Answering(u.chain));
    var rewound := ReplayForNewDecoders(u.cfg, Answering(u.chain), db0).0;
    ReplayCyclesReach(u, rewound, safeHead, k);
    ReplayIsComplete(u, Cycles(u.cfg, u.chain, rewound, k));
  }

  // ---- Once a version ----------------------------------------------------------------------------

  function Rewinds(cfg: Config, db: Db, polls: seq<Poll>): nat
    decreases |polls|
  {
    if polls == [] then 0
    else
      (if polls[0].Boot? && ReplayForNewDecoders(cfg, polls[0].net, db).1.Rewound? then 1 else 0)
      + Rewinds(cfg, Polled(cfg, db, polls[0]), polls[1..])
  }

  /** The version is stamped, or the cursor is still below the start block and unverified. */
  predicate Settled(cfg: Config, db: Db) {
    db.cursor.Some? && (db.cursor.value.decoders == cfg.version
                        || (db.cursor.value.lastBlock < cfg.startBlock && db.cursor.value.lastHash.None?))
  }

  lemma SettledStays(cfg: Config, db: Db, p: Poll)
    requires Settled(cfg, db)
    ensures Settled(cfg, Polled(cfg, db, p))
    ensures p.Boot? ==> !ReplayForNewDecoders(cfg, p.net, db).1.Rewound?
  {}

  lemma {:induction false} SettledNeverRewinds(cfg: Config, db: Db, polls: seq<Poll>)
    requires Settled(cfg, db)
    ensures Rewinds(cfg, db, polls) == 0
    decreases |polls|
  {
    if polls != [] {
      SettledStays(cfg, db, polls[0]);
      SettledNeverRewinds(cfg, Polled(cfg, db, polls[0]), polls[1..]);
    }
  }

  /** From any database, over any sequence of boots and cycles, endpoints, failures and reorgs, one
      version of the decoders rewinds the cursor at most once, and never where that is switched off. */
  lemma {:induction false} AtMostOneRewind(cfg: Config, db: Db, polls: seq<Poll>)
    ensures Rewinds(cfg, db, polls) <= 1
    ensures cfg.skipDecoderReplay ==> Rewinds(cfg, db, polls) == 0
    decreases |polls|
  {
    if polls != [] {
      var db' := Polled(cfg, db, polls[0]);
      if polls[0].Boot? && ReplayForNewDecoders(cfg, polls[0].net, db).1.Rewound? {
        assert Settled(cfg, db');
        SettledNeverRewinds(cfg, db', polls[1..]);
      } else {
        AtMostOneRewind(cfg, db', polls[1..]);
      }
    }
  }
}
