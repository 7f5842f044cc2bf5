/** Convergence of the index over every run of cycles, crashes and reorgs, with one decoder: the
    tables are always the decoding of one chain up to the cursor, and reach a straight read of
    the canonical one. */
module Convergence {
  import opened FixedPoint
  import opened Ledger
  import opened Tables
  import opened Chain
  import opened Decoder
  import opened LedgerStore
  import opened IndexerSpec
  import opened Rows
  import opened Reading

  // ---- The environment ---------------------------------------------------------------------

  /** A block's hash commits to the block and to everything below it. */
  ghost predicate Commits(a: Blocks, b: Blocks) {
    forall h :: 0 <= h < |a| && h < |b| && a[h].hash == b[h].hash ==> a[..h + 1] == b[..h + 1]
  }

  /** Watched contracts have no logs below the start block. */
  ghost predicate QuietBelow(cfg: Config, chain: Blocks) {
    forall h, j :: 0 <= h < |chain| && h < cfg.startBlock && 0 <= j < |chain[h].logs| ==>
      chain[h].logs[j].address !in Watched(cfg.contracts)
  }

  /** The chains a run may meet. */
  ghost predicate Family(cfg: Config, chains: set<Blocks>) {
    && (forall c :: c in chains ==> UniqueLogs(c) && QuietBelow(cfg, c))
    && (forall a, b :: a in chains && b in chains ==> Commits(a, b))
  }

  /** `high` is the highest block ever indexed. */
  datatype World = World(db: Db, chain: Blocks, high: nat)

  /** One poll cycle in which the calls in `down` fail; or the chain moving between cycles. */
  datatype Event = Cycle(down: set<Call>) | Moves(chain: Blocks)

  function Higher(high: nat, outcome: Outcome): nat {
    if outcome.Indexed? && outcome.toBlock > high then outcome.toBlock else high
  }

  function Next(cfg: Config, w: World, e: Event): World
  {
    match e
    case Cycle(down) =>
      var (db, outcome) := Step(cfg, Endpoint(w.chain, down, {}), w.db);
      World(db, w.chain, Higher(w.high, outcome))
    case Moves(chain) => w.(chain := chain)
  }

  /** Nothing deeper than Confirmations below the highest indexed block changes. */
  ghost predicate Allowed(cfg: Config, chains: set<Blocks>, w: World, e: Event) {
    e.Moves? ==>
      && e.chain in chains
      && forall h :: 0 <= h && h + cfg.confirmations < w.high && h < |w.chain| ==>
        h < |e.chain| && e.chain[h] == w.chain[h]
  }

  function Run(cfg: Config, w: World, events: seq<Event>): World
    decreases |events|
  {
    if events == [] then w else Run(cfg, Next(cfg, w, events[0]), events[1..])
  }

  ghost predicate AllAllowed(cfg: Config, chains: set<Blocks>, w: World, events: seq<Event>)
    decreases |events|
  {
    events != [] ==> Allowed(cfg, chains, w, events[0]) && AllAllowed(cfg, chains, Next(cfg, w, events[0]), events[1..])
  }

  // ---- The invariant -----------------------------------------------------------------------

  ghost predicate TablesHold(cfg: Config, db: Db, chain: Blocks, hi: nat) {
    && Holds(db.entries, EntrySource(cfg.contracts), chain, cfg.startBlock, hi)
    && Holds(db.rounds, RoundSource(cfg.contracts), chain, cfg.startBlock, hi)
  }

  predicate TablesEmpty(db: Db) {
    db.entries == map[] && db.rounds == map[]
  }

  /** The blocks the rows came from that can no longer change are still the chain's. */
  ghost predicate Settled(cfg: Config, seen: Blocks, w: World) {
    forall h :: 0 <= h < |seen| && h + cfg.confirmations < w.high ==> h < |w.chain| && w.chain[h] == seen[h]
  }

  /** `seen` is the chain the rows at or below the cursor were decoded from; the cursor's hash, if
      it has one, names it. Below the start block there is nothing to hold. */
  ghost predicate DecodedFrom(cfg: Config, chains: set<Blocks>, w: World, cursor: Cursor, seen: Blocks) {
    var n := cursor.lastBlock + 1;
    && |seen| == n && cursor.lastBlock <= w.high
    && (exists origin :: origin in chains && seen <= origin)
    && TablesHold(cfg, w.db, seen, n)
    && (cursor.lastHash.Some? ==> cursor.lastHash.value == seen[n - 1].hash)
    && (cursor.lastHash.None? ==> n + cfg.confirmations <= w.high)
    && Settled(cfg, seen, w)
  }

  ghost predicate Inv(cfg: Config, chains: set<Blocks>, w: World) {
    && w.chain in chains
    && w.high <= |w.chain| + cfg.confirmations
    && match w.db.cursor
       case None => TablesEmpty(w.db)
       case Some(c) =>
         && (c.lastBlock < cfg.startBlock ==> TablesEmpty(w.db))
         && (c.lastBlock >= cfg.startBlock ==> exists seen :: DecodedFrom(cfg, chains, w, c, seen))
  }

  // ---- Lemmas about spans ------------------------------------------------------------------

  lemma {:induction false} QuietSpan(cfg: Config, chain: Blocks, lo: nat, hi: nat)
    requires QuietBelow(cfg, chain) && hi <= |chain| && hi <= cfg.startBlock
    ensures SpanRows(EntrySource(cfg.contracts), chain, lo, hi) == []
    ensures SpanRows(RoundSource(cfg.contracts), chain, lo, hi) == []
    decreases hi - lo
  {
    hide EntrySource, RoundSource, Decoded, Watched;
    if lo < hi {
      hide BlockRows;
      QuietBlock(cfg, chain, lo, chain[lo].logs);
      QuietSpan(cfg, chain, lo + 1, hi);
    }
  }

  lemma {:induction false} QuietBlock(cfg: Config, chain: Blocks, h: nat, logs: seq<Log>)
    requires h < |chain|
    requires forall j :: 0 <= j < |logs| ==> logs[j].address !in Watched(cfg.contracts)
    ensures BlockRows(EntrySource(cfg.contracts), h, chain[h], logs) == []
    ensures BlockRows(RoundSource(cfg.contracts), h, chain[h], logs) == []
  {
    if logs != [] {
      UnwatchedLogsDecodeToNothing(cfg.contracts, h, chain[h], logs[0]);
      assert EntrySource(cfg.contracts)(h, chain[h], logs[0]) == Decoded(cfg.contracts, h, chain[h], logs[0]).entries;
      assert RoundSource(cfg.contracts)(h, chain[h], logs[0]) == Decoded(cfg.contracts, h, chain[h], logs[0]).rounds;
      QuietBlock(cfg, chain, h, logs[1..]);
    }
  }

  lemma TablesAgree(cfg: Config, db: Db, a: Blocks, b: Blocks, hi: nat)
    requires hi <= |a| && hi <= |b| && (forall h :: 0 <= h < hi ==> a[h] == b[h])
    requires TablesHold(cfg, db, a, hi)
    ensures TablesHold(cfg, db, b, hi)
  {
    SpanAgrees(EntrySource(cfg.contracts), a, b, cfg.startBlock, hi);
    SpanAgrees(RoundSource(cfg.contracts), a, b, cfg.startBlock, hi);
  }

  lemma EmptyTablesHold(cfg: Config, db: Db, chain: Blocks, hi: nat)
    requires hi <= |chain| && hi <= cfg.startBlock
    ensures TablesEmpty(db) <==> TablesHold(cfg, db, chain, hi)
  {
  }

  // ---- One cycle ---------------------------------------------------------------------------

  /** The tables are the rows of the current chain below `n`. */
  ghost predicate UpToDate(cfg: Config, db: Db, chain: Blocks, n: nat) {
    if n <= cfg.startBlock then TablesEmpty(db) else n <= |chain| && TablesHold(cfg, db, chain, n)
  }

  /** A matching hash means the rows are the current chain's. */
  lemma HashMatches(cfg: Config, chains: set<Blocks>, w: World, c: Cursor)
    requires Family(cfg, chains) && Inv(cfg, chains, w) && w.db.cursor == Some(c)
    requires c.lastHash.Some? && c.lastBlock < |w.chain| && w.chain[c.lastBlock].hash == c.lastHash.value
    ensures UpToDate(cfg, w.db, w.chain, c.lastBlock + 1)
  {
    hide SpanRows, EntrySource, RoundSource;
    if c.lastBlock >= cfg.startBlock {
      var seen :| DecodedFrom(cfg, chains, w, c, seen);
      SameHashSamePrefix(cfg, chains, w, c, seen, w.chain);
      SamePrefix(cfg, w.db, seen, w.chain, c.lastBlock + 1);
    }
  }

  lemma SameHashSamePrefix(cfg: Config, chains: set<Blocks>, w: World, c: Cursor, seen: Blocks, chain: Blocks)
    requires Family(cfg, chains) && chain in chains && DecodedFrom(cfg, chains, w, c, seen)
    requires c.lastHash.Some? && c.lastBlock < |chain| && chain[c.lastBlock].hash == c.lastHash.value
    ensures seen[..c.lastBlock + 1] == chain[..c.lastBlock + 1]
  {}

  /** A cleared hash means everything at or below the cursor is settled. */
  lemma ClearedIsSettled(cfg: Config, chains: set<Blocks>, w: World, c: Cursor)
    requires Family(cfg, chains) && Inv(cfg, chains, w) && w.db.cursor == Some(c) && c.lastHash.None?
    ensures UpToDate(cfg, w.db, w.chain, c.lastBlock + 1)
  {
    hide SpanRows, EntrySource, RoundSource;
    if c.lastBlock >= cfg.startBlock {
      var seen :| DecodedFrom(cfg, chains, w, c, seen);
      SettledPrefix(cfg, seen, w, c.lastBlock + 1);
      SamePrefix(cfg, w.db, seen, w.chain, c.lastBlock + 1);
    }
  }

  lemma RollbackHolds(cfg: Config, db: Db, seen: Blocks, target: nat)
    requires TablesHold(cfg, db, seen, |seen|) && 0 < target <= |seen|
    ensures TablesHold(cfg, RolledBack(db, target), seen, target)
  {
    hide SpanRows, EntrySource, RoundSource;
    SourcesAreStamped(cfg.contracts);
    HoldsAfterDelete(db.entries, EntrySource(cfg.contracts), seen, cfg.startBlock, |seen|, target);
    HoldsAfterDelete(db.rounds, RoundSource(cfg.contracts), seen, cfg.startBlock, |seen|, target);
  }

  /** Far enough below the highest indexed block, what was seen is what there is. */
  lemma SettledPrefix(cfg: Config, seen: Blocks, w: World, n: nat)
    requires Settled(cfg, seen, w) && 0 < n <= |seen| && n + cfg.confirmations <= w.high
    ensures n <= |w.chain| && seen[..n] == w.chain[..n]
  {
    forall h | 0 <= h < n
      ensures h < |w.chain| && w.chain[h] == seen[h]
    {
      var b := seen[h];
    }
    var tip := seen[n - 1];
  }

  lemma SamePrefix(cfg: Config, db: Db, a: Blocks, b: Blocks, n: nat)
    requires n <= |a| && n <= |b| && a[..n] == b[..n] && TablesHold(cfg, db, a, n)
    ensures TablesHold(cfg, db, b, n)
  {
    hide SpanRows, EntrySource, RoundSource;
    assert forall h :: 0 <= h < n ==> a[h] == a[..n][h] && b[h] == b[..n][h];
    TablesAgree(cfg, db, a, b, n);
  }

  /** Deleting from the rewind target leaves only rows of blocks that cannot have changed. */
  lemma RollbackIsSettled(cfg: Config, chains: set<Blocks>, w: World, c: Cursor)
    requires Inv(cfg, chains, w) && w.db.cursor == Some(c)
    ensures
      var target := RewindTarget(cfg, c.lastBlock);
      && UpToDate(cfg, RolledBack(w.db, target), w.chain, target)
      && (target > cfg.startBlock ==> target + cfg.confirmations <= w.high)
  {
    hide SpanRows, EntrySource, RoundSource;
    var target := RewindTarget(cfg, c.lastBlock);
    var db := RolledBack(w.db, target);
    if c.lastBlock < cfg.startBlock {
      assert TablesEmpty(db);
    } else {
      var seen :| DecodedFrom(cfg, chains, w, c, seen);
      RollbackHolds(cfg, w.db, seen, target);
      if target > cfg.startBlock {
        SettledPrefix(cfg, seen, w, target);
        SamePrefix(cfg, db, seen, w.chain, target);
      } else {
        EmptyTablesHold(cfg, db, seen, target);
      }
    }
  }

  /** Whatever the reorg check did, if it let the cycle go on then the tables are the current
      chain's up to the cursor in hand. */
  lemma CheckedTablesAreCurrent(cfg: Config, chains: set<Blocks>, w: World, net: Endpoint)
    requires Family(cfg, chains) && Inv(cfg, chains, w) && net.chain == w.chain
    requires Checked(cfg, net, w.db).1.Ok?
    ensures
      var (db, checked) := Checked(cfg, net, w.db);
      UpToDate(cfg, db, w.chain, checked.value.lastBlock + 1)
  {
    hide SpanRows, EntrySource, RoundSource;
    if w.db.cursor.Some? {
      var c := w.db.cursor.value;
      if c.lastHash.None? {
        ClearedIsSettled(cfg, chains, w, c);
      } else if Header(net, c.lastBlock).value.hash == c.lastHash.value {
        HashMatches(cfg, chains, w, c);
      } else {
        RollbackIsSettled(cfg, chains, w, c);
      }
    }
  }

  /** Tables below the start block are empty whatever else holds. */
  lemma LowCursorKeepsInv(cfg: Config, chains: set<Blocks>, w: World, db: Db)
    requires Inv(cfg, chains, w)
    requires TablesEmpty(db) && db.cursor.Some? && db.cursor.value.lastBlock < cfg.startBlock
    ensures Inv(cfg, chains, w.(db := db))
  {
  }

  /** The database the reorg check leaves behind keeps the invariant by itself: a crash right
      after the rollback loses nothing. */
  lemma RollbackKeepsInv(cfg: Config, chains: set<Blocks>, w: World, c: Cursor)
    requires Family(cfg, chains) && Inv(cfg, chains, w) && w.db.cursor == Some(c)
    ensures Inv(cfg, chains, w.(db := RolledBack(w.db, RewindTarget(cfg, c.lastBlock))))
  {
    hide SpanRows, EntrySource, RoundSource;
    var target := RewindTarget(cfg, c.lastBlock);
    RollbackIsSettled(cfg, chains, w, c);
    if target <= cfg.startBlock {
      LowCursorKeepsInv(cfg, chains, w, RolledBack(w.db, target));
    } else {
      SettledTablesKeepInv(cfg, chains, w, RolledBack(w.db, target), target);
    }
  }

  lemma SettledTablesKeepInv(cfg: Config, chains: set<Blocks>, w: World, db: Db, n: nat)
    requires w.chain in chains && w.high <= |w.chain| + cfg.confirmations
    requires cfg.startBlock < n <= |w.chain| && n + cfg.confirmations <= w.high
    requires TablesHold(cfg, db, w.chain, n)
    requires db.cursor.Some? && db.cursor.value.lastBlock == n - 1 && db.cursor.value.lastHash.None?
    ensures Inv(cfg, chains, w.(db := db))
  {
    hide SpanRows, EntrySource, RoundSource;
    var seen := w.chain[..n];
    SamePrefix(cfg, db, w.chain, seen, n);
    assert seen <= w.chain;
    assert Settled(cfg, seen, w.(db := db));
    assert DecodedFrom(cfg, chains, w.(db := db), db.cursor.value, seen);
  }

  lemma CheckReorgKeepsInv(cfg: Config, chains: set<Blocks>, w: World, net: Endpoint)
    requires Family(cfg, chains) && Inv(cfg, chains, w)
    ensures
      var db := Checked(cfg, net, w.db).0;
      Inv(cfg, chains, w.(db := db))
  {
    hide SpanRows, EntrySource, RoundSource;
    if Checked(cfg, net, w.db).0 != w.db {
      RollbackKeepsInv(cfg, chains, w, w.db.cursor.value);
    } else {
      assert w.(db := w.db) == w;
    }
  }

  /** Committing the next range of the current chain extends the rows to its last block. */
  lemma AppendExtends(cfg: Config, db: Db, chain: Blocks, from: nat, upTo: nat, batch: Batch, next: Cursor)
    requires QuietBelow(cfg, chain) && UniqueLogs(chain)
    requires from <= upTo < |chain| && UpToDate(cfg, db, chain, from)
    requires batch == Batch(SpanRows(EntrySource(cfg.contracts), chain, from, upTo + 1),
                            SpanRows(RoundSource(cfg.contracts), chain, from, upTo + 1))
    ensures UpToDate(cfg, Appended(db, batch, next), chain, upTo + 1)
  {
    hide SpanRows, EntrySource, RoundSource;
    if upTo + 1 <= cfg.startBlock {
      QuietSpan(cfg, chain, from, upTo + 1);
    } else {
      var mid := if from < cfg.startBlock then cfg.startBlock else from;
      if from <= cfg.startBlock { EmptyTablesHold(cfg, db, chain, cfg.startBlock); }
      if from < mid { SkipQuiet(cfg, chain, from, mid, upTo + 1); }
      InsertHolds(cfg, db, chain, mid, upTo + 1, batch, next);
    }
  }

  lemma SkipQuiet(cfg: Config, chain: Blocks, from: nat, mid: nat, hi: nat)
    requires QuietBelow(cfg, chain) && from <= mid <= hi <= |chain| && mid <= cfg.startBlock
    ensures SpanRows(EntrySource(cfg.contracts), chain, from, hi) ==
      SpanRows(EntrySource(cfg.contracts), chain, mid, hi)
    ensures SpanRows(RoundSource(cfg.contracts), chain, from, hi) ==
      SpanRows(RoundSource(cfg.contracts), chain, mid, hi)
  {
    hide SpanRows, EntrySource, RoundSource, QuietBelow;
    QuietSpan(cfg, chain, from, mid);
    SpanJoin(EntrySource(cfg.contracts), chain, from, mid, hi);
    SpanJoin(RoundSource(cfg.contracts), chain, from, mid, hi);
  }

  lemma InsertHolds(cfg: Config, db: Db, chain: Blocks, mid: nat, hi: nat, batch: Batch, next: Cursor)
    requires cfg.startBlock <= mid <= hi <= |chain| && UniqueLogs(chain) && TablesHold(cfg, db, chain, mid)
    requires batch == Batch(SpanRows(EntrySource(cfg.contracts), chain, mid, hi),
                            SpanRows(RoundSource(cfg.contracts), chain, mid, hi))
    ensures TablesHold(cfg, Appended(db, batch, next), chain, hi)
  {
    hide SpanRows, EntrySource, RoundSource;
    SourcesAreStamped(cfg.contracts);
    HoldsAfterInsert(db.entries, EntrySource(cfg.contracts), chain, cfg.startBlock, mid, hi);
    HoldsAfterInsert(db.rounds, RoundSource(cfg.contracts), chain, cfg.startBlock, mid, hi);
  }

  /** A world whose tables are the current chain's, and whose cursor carries its tip's hash. */
  lemma CurrentKeepsInv(cfg: Config, chains: set<Blocks>, w: World, c: Cursor)
    requires Family(cfg, chains) && w.chain in chains
    requires w.db.cursor == Some(c) && c.lastBlock < |w.chain| && c.lastBlock <= w.high
    requires w.high <= |w.chain| + cfg.confirmations
    requires c.lastHash == Some(w.chain[c.lastBlock].hash)
    requires UpToDate(cfg, w.db, w.chain, c.lastBlock + 1)
    ensures Inv(cfg, chains, w)
  {
    hide SpanRows, EntrySource, RoundSource;
    if c.lastBlock >= cfg.startBlock {
      var seen := w.chain[..c.lastBlock + 1];
      SamePrefix(cfg, w.db, w.chain, seen, c.lastBlock + 1);
      assert seen <= w.chain;
      assert DecodedFrom(cfg, chains, w, c, seen);
    }
  }

  /** One cycle, whatever fails in it, keeps the invariant. */
  lemma CycleKeepsInv(cfg: Config, chains: set<Blocks>, w: World, down: set<Call>)
    requires Family(cfg, chains) && Inv(cfg, chains, w)
    ensures Inv(cfg, chains, Next(cfg, w, Cycle(down)))
  {
    hide SpanRows, EntrySource, RoundSource;
    var net := Endpoint(w.chain, down, {});
    StepShape(cfg, net, w.db);
    CheckReorgKeepsInv(cfg, chains, w, net);
    if Checked(cfg, net, w.db).1.Ok? { CheckedTablesAreCurrent(cfg, chains, w, net); }
    ShapeKeepsInv(cfg, chains, w, net, Step(cfg, net, w.db), Checked(cfg, net, w.db));
  }

  lemma ShapeKeepsInv(cfg: Config, chains: set<Blocks>, w: World, net: Endpoint, after: (Db, Outcome),
                      checked: (Db, Result<Cursor>))
    requires Family(cfg, chains) && Inv(cfg, chains, w) && net.chain == w.chain && Truthful(net)
    requires Inv(cfg, chains, w.(db := checked.0))
    requires checked.1.Ok? ==> UpToDate(cfg, checked.0, w.chain, checked.1.value.lastBlock + 1)
    requires after.1.Indexed? ==>
      && checked.1.Ok? && after.1.fromBlock == checked.1.value.lastBlock + 1 <= after.1.toBlock && |net.chain| > 0
      && after == ReadRange(cfg, net, checked.0, after.1.fromBlock, after.1.toBlock, |net.chain| - 1)
    requires !after.1.Indexed? ==> after.0 == w.db || after.0 == checked.0
    ensures Inv(cfg, chains, World(after.0, w.chain, Higher(w.high, after.1)))
  {
    hide SpanRows, EntrySource, RoundSource;
    if after.1.Indexed? {
      IndexedKeepsInv(cfg, chains, w, net, checked.0, after.1.fromBlock, after.1.toBlock, |net.chain| - 1);
    } else {
      assert World(after.0, w.chain, Higher(w.high, after.1)) == w.(db := after.0);
      assert w.(db := w.db) == w;
    }
  }

  lemma IndexedKeepsInv(cfg: Config, chains: set<Blocks>, w: World, net: Endpoint, db: Db, from: nat, upTo: nat,
                        head: nat)
    requires Family(cfg, chains) && w.chain in chains && net.chain == w.chain && Truthful(net)
    requires w.high <= |w.chain| + cfg.confirmations
    requires from <= upTo && UpToDate(cfg, db, w.chain, from)
    requires ReadRange(cfg, net, db, from, upTo, head).1.Indexed?
    ensures
      var (db', outcome) := ReadRange(cfg, net, db, from, upTo, head);
      Inv(cfg, chains, World(db', w.chain, Higher(w.high, outcome)))
  {
    hide SpanRows, EntrySource, RoundSource;
    CommittedRange(cfg, net, db, from, upTo, head);
    var batch := Batch(SpanRows(EntrySource(cfg.contracts), w.chain, from, upTo + 1),
                       SpanRows(RoundSource(cfg.contracts), w.chain, from, upTo + 1));
    var next := Cursor(upTo, Some(w.chain[upTo].hash), cfg.version);
    CommittedKeepsInv(cfg, chains, w, db, from, upTo, batch, next);
  }

  lemma CommittedKeepsInv(cfg: Config, chains: set<Blocks>, w: World, db: Db, from: nat, upTo: nat, batch: Batch,
                          next: Cursor)
    requires Family(cfg, chains) && w.chain in chains && w.high <= |w.chain| + cfg.confirmations
    requires from <= upTo < |w.chain| && UpToDate(cfg, db, w.chain, from)
    requires batch == Batch(SpanRows(EntrySource(cfg.contracts), w.chain, from, upTo + 1),
                            SpanRows(RoundSource(cfg.contracts), w.chain, from, upTo + 1))
    requires next.lastBlock == upTo && next.lastHash == Some(w.chain[upTo].hash)
    ensures Inv(cfg, chains, World(Appended(db, batch, next), w.chain, Higher(w.high, Indexed(from, upTo))))
  {
    hide SpanRows, EntrySource, RoundSource;
    AppendExtends(cfg, db, w.chain, from, upTo, batch, next);
    CurrentKeepsInv(cfg, chains, World(Appended(db, batch, next), w.chain, Higher(w.high, Indexed(from, upTo))), next);
  }

  lemma MovesKeepInv(cfg: Config, chains: set<Blocks>, w: World, chain: Blocks)
    requires Inv(cfg, chains, w) && Allowed(cfg, chains, w, Moves(chain))
    ensures Inv(cfg, chains, w.(chain := chain))
  {
    hide SpanRows, EntrySource, RoundSource;
    var w' := w.(chain := chain);
    if w.high > cfg.confirmations {
      var h := w.high - cfg.confirmations - 1;
      var b := w.chain[h];
      assert h < |chain| && chain[h] == b;
    }
    if w.db.cursor.Some? && w.db.cursor.value.lastBlock >= cfg.startBlock {
      var c := w.db.cursor.value;
      var seen :| DecodedFrom(cfg, chains, w, c, seen);
      assert Settled(cfg, seen, w');
      assert DecodedFrom(cfg, chains, w', c, seen);
    }
  }

  // ---- Every run ---------------------------------------------------------------------------

  /** In every run of cycles, crashes and allowed reorgs, from an empty database, the rows are
      always exactly those of the chain the cursor's hash names, up to the cursor. */
  lemma {:induction false} EveryRunKeepsInv(cfg: Config, chains: set<Blocks>, w: World, events: seq<Event>)
    requires Family(cfg, chains) && Inv(cfg, chains, w)
    requires AllAllowed(cfg, chains, w, events)
    ensures Inv(cfg, chains, Run(cfg, w, events))
    decreases |events|
  {
    hide SpanRows, EntrySource, RoundSource;
    if events != [] {
      match events[0] {
        case Cycle(down) => CycleKeepsInv(cfg, chains, w, down);
        case Moves(chain) => MovesKeepInv(cfg, chains, w, chain);
      }
      EveryRunKeepsInv(cfg, chains, Next(cfg, w, events[0]), events[1..]);
    }
  }

  lemma EmptyDatabaseHasInv(cfg: Config, chains: set<Blocks>, chain: Blocks)
    requires chain in chains
    ensures Inv(cfg, chains, World(EMPTY_DB, chain, 0))
  {
  }

  /** Both tables as one straight read of a chain up to and including `lastBlock`. */
  ghost predicate IsStraightRead(cfg: Config, db: Db, chain: Blocks, lastBlock: nat) {
    if lastBlock < cfg.startBlock then TablesEmpty(db)
    else
      && db.entries == StraightRead(EntrySource(cfg.contracts), chain, cfg.startBlock, lastBlock + 1)
      && db.rounds == StraightRead(RoundSource(cfg.contracts), chain, cfg.startBlock, lastBlock + 1)
  }

  lemma UpToDateIsStraightRead(cfg: Config, db: Db, chain: Blocks, lastBlock: nat)
    requires lastBlock < |chain| && UniqueLogs(chain) && UpToDate(cfg, db, chain, lastBlock + 1)
    ensures IsStraightRead(cfg, db, chain, lastBlock)
  {
    hide SpanRows, EntrySource, RoundSource;
    if lastBlock >= cfg.startBlock {
      SourcesAreStamped(cfg.contracts);
      HoldsIsStraightRead(db.entries, EntrySource(cfg.contracts), chain, cfg.startBlock, lastBlock + 1);
      HoldsIsStraightRead(db.rounds, RoundSource(cfg.contracts), chain, cfg.startBlock, lastBlock + 1);
    }
  }

  /** Safety, said outright: after any run, if the cursor's hash is that of a block of any chain
      the run could meet, both tables equal one straight read of that chain up to that block,
      whatever the batches, crashes and reorgs were. */
  lemma TablesNameTheirChain(cfg: Config, chains: set<Blocks>, start: Blocks, events: seq<Event>, chain: Blocks)
    requires Family(cfg, chains) && start in chains && chain in chains
    requires AllAllowed(cfg, chains, World(EMPTY_DB, start, 0), events)
    requires
      var cursor := Run(cfg, World(EMPTY_DB, start, 0), events).db.cursor;
      && cursor.Some? && cursor.value.lastBlock < |chain|
      && cursor.value.lastHash == Some(chain[cursor.value.lastBlock].hash)
    ensures
      var db := Run(cfg, World(EMPTY_DB, start, 0), events).db;
      IsStraightRead(cfg, db, chain, db.cursor.value.lastBlock)
  {
    hide SpanRows, EntrySource, RoundSource;
    EmptyDatabaseHasInv(cfg, chains, start);
    EveryRunKeepsInv(cfg, chains, World(EMPTY_DB, start, 0), events);
    var w := Run(cfg, World(EMPTY_DB, start, 0), events);
    var c := w.db.cursor.value;
    if c.lastBlock >= cfg.startBlock {
      var seen :| DecodedFrom(cfg, chains, w, c, seen);
      SameHashSamePrefix(cfg, chains, w, c, seen, chain);
      SamePrefix(cfg, w.db, seen, chain, c.lastBlock + 1);
    }
    UpToDateIsStraightRead(cfg, w.db, chain, c.lastBlock);
  }
}
