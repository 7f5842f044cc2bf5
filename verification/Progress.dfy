/** Catching up: with the chain standing still and every call answered, cycles bring the cursor to
    the confirmed head, and the tables to one straight read of the chain, in as many cycles as
    the batch size says. */
module Progress {
  import opened FixedPoint
  import opened Ledger
  import opened Tables
  import opened Chain
  import opened Decoder
  import opened LedgerStore
  import opened IndexerSpec
  import opened Rows
  import opened Reading
  import opened Convergence
  import opened RereadGuard

  /** Every successful read moves the cursor up, and never past the confirmed head, whatever the
      endpoint does: with the head fixed and no rollback the distance left strictly falls. */
  lemma DistanceFalls(cfg: Config, net: Endpoint, db: Db)
    requires Step(cfg, net, db).1.Indexed?
    ensures
      var (db', outcome) := Step(cfg, net, db);
      var safeHead := |net.chain| - 1 - cfg.confirmations;
      && db'.cursor.Some? && db'.cursor.value.lastBlock == outcome.toBlock
      && db'.cursor.value.decoders == cfg.version
      && outcome.fromBlock <= outcome.toBlock <= safeHead
      && outcome.toBlock - outcome.fromBlock < cfg.batchSize
      && (Checked(cfg, net, db).0 == db ==>
            outcome.fromBlock == db.cursor.GetOr(FreshCursor(cfg)).lastBlock + 1
            && safeHead - db'.cursor.value.lastBlock < safeHead - db.cursor.GetOr(FreshCursor(cfg)).lastBlock)
  {}

  lemma IndexedCursor(cfg: Config, net: Endpoint, db: Db, from: nat, upTo: nat, head: nat)
    requires ReadRange(cfg, net, db, from, upTo, head).1.Indexed?
    ensures
      var db' := ReadRange(cfg, net, db, from, upTo, head).0;
      db'.cursor.Some? && db'.cursor.value.lastBlock == upTo && db'.cursor.value.decoders == cfg.version
  {
  }

  // ---- An endpoint that answers --------------------------------------------------------------

  function Answering(chain: Blocks): Endpoint {
    Endpoint(chain, {}, {})
  }

  /** Headers only claim logs that are there, and every watched log decodes. */
  ghost predicate Sound(cfg: Config, chain: Blocks) {
    && (forall h :: 0 <= h < |chain| && chain[h].bloom ==> chain[h].logs != [])
    && (forall h, j :: 0 <= h < |chain| && 0 <= j < |chain[h].logs| ==>
          DecodeOne(cfg.contracts, Located(h, chain[h].hash, chain[h].logs[j]), chain[h].time).Ok?)
  }

  lemma {:induction false} BlockDecodes(cfg: Config, chain: Blocks, h: nat, logs: seq<Log>)
    requires h < |chain|
    requires forall j :: 0 <= j < |logs| ==>
      DecodeOne(cfg.contracts, Located(h, chain[h].hash, logs[j]), chain[h].time).Ok?
    ensures DecodeAll(cfg.contracts, Answering(chain), LogsOf(Watched(cfg.contracts), h, chain[h].hash, logs)).Ok?
  {
    if logs != [] {
      BlockDecodes(cfg, chain, h, logs[1..]);
      var rest := LogsOf(Watched(cfg.contracts), h, chain[h].hash, logs[1..]);
      var l := Located(h, chain[h].hash, logs[0]);
      assert DecodeOne(cfg.contracts, l, chain[h].time).Ok?;
      if logs[0].address in Watched(cfg.contracts) {
        assert ([l] + rest)[1..] == rest;
      } else {
        assert LogsOf(Watched(cfg.contracts), h, chain[h].hash, logs) == rest;
      }
    }
  }

  lemma {:induction false} DecodeAllJoins(contracts: seq<ContractSpec>, net: Endpoint, a: seq<Located>, b: seq<Located>)
    requires DecodeAll(contracts, net, a).Ok? && DecodeAll(contracts, net, b).Ok?
    ensures DecodeAll(contracts, net, a + b).Ok?
  {
    if a == [] {
      assert a + b == b;
    } else {
      assert (a + b)[1..] == a[1..] + b;
      DecodeAllJoins(contracts, net, a[1..], b);
    }
  }

  lemma {:induction false} RangeDecodes(cfg: Config, chain: Blocks, lo: nat, hi: nat)
    requires Sound(cfg, chain)
    ensures DecodeAll(cfg.contracts, Answering(chain), LogsBetween(Watched(cfg.contracts), chain, lo, hi)).Ok?
    decreases hi + 1 - lo
  {
    if lo <= hi && lo < |chain| {
      BlockDecodes(cfg, chain, lo, chain[lo].logs);
      RangeDecodes(cfg, chain, lo + 1, hi);
      DecodeAllJoins(cfg.contracts, Answering(chain),
                     LogsOf(Watched(cfg.contracts), lo, chain[lo].hash, chain[lo].logs),
                     LogsBetween(Watched(cfg.contracts), chain, lo + 1, hi));
    }
  }

  lemma {:induction false} ProbePasses(cfg: Config, chain: Blocks, b: nat, from: nat, upTo: nat)
    requires Sound(cfg, chain) && upTo < |chain|
    ensures ProbeServed(cfg, Answering(chain), b, from, upTo)
    decreases upTo + 1 - b
  {
    if b <= upTo && b < from + PROBE_BLOCKS { ProbePasses(cfg, chain, b + 1, from, upTo); }
  }

  lemma RangeIsRead(cfg: Config, chain: Blocks, db: Db, from: nat, upTo: nat, head: nat)
    requires Sound(cfg, chain) && from <= upTo < |chain|
    ensures ReadRange(cfg, Answering(chain), db, from, upTo, head).1 == Indexed(from, upTo)
  {
    RangeDecodes(cfg, chain, from, upTo);
    ProbePasses(cfg, chain, from, from, upTo);
  }

  // ---- Catching up ---------------------------------------------------------------------------

  /** The tables are the chain's below n, and the cursor stands on block n-1 with its hash. */
  ghost predicate StandsAt(cfg: Config, db: Db, chain: Blocks, n: nat) {
    && 0 < n <= |chain|
    && db.cursor == Some(Cursor(n - 1, Some(chain[n - 1].hash), cfg.version))
    && UpToDate(cfg, db, chain, n)
  }

  /** One read from wherever the reorg check left the cursor. */
  lemma ReadStands(cfg: Config, chain: Blocks, db: Db, n: nat, upTo: nat, head: nat)
    requires QuietBelow(cfg, chain) && UniqueLogs(chain) && Sound(cfg, chain)
    requires n <= upTo < |chain| && UpToDate(cfg, db, chain, n)
    ensures ReadRange(cfg, Answering(chain), db, n, upTo, head).1 == Indexed(n, upTo)
    ensures StandsAt(cfg, ReadRange(cfg, Answering(chain), db, n, upTo, head).0, chain, upTo + 1)
  {
    hide SpanRows, EntrySource, RoundSource;
    RangeIsRead(cfg, chain, db, n, upTo, head);
    CommittedRange(cfg, Answering(chain), db, n, upTo, head);
    var batch := Batch(SpanRows(EntrySource(cfg.contracts), chain, n, upTo + 1),
                       SpanRows(RoundSource(cfg.contracts), chain, n, upTo + 1));
    AppendExtends(cfg, db, chain, n, upTo, batch, Cursor(upTo, Some(chain[upTo].hash), cfg.version));
  }

  function Cycles(cfg: Config, chain: Blocks, db: Db, k: nat): Db
    decreases k
  {
    if k == 0 then db else Cycles(cfg, chain, Step(cfg, Answering(chain), db).0, k - 1)
  }

  lemma StandingStep(cfg: Config, chain: Blocks, db: Db, n: nat, safeHead: nat)
    requires QuietBelow(cfg, chain) && UniqueLogs(chain) && Sound(cfg, chain)
    requires safeHead + cfg.confirmations == |chain| - 1
    requires StandsAt(cfg, db, chain, n)
    ensures n > safeHead ==> Step(cfg, Answering(chain), db) == (db, Idle)
    ensures n <= safeHead ==> StandsAt(cfg, Step(cfg, Answering(chain), db).0, chain, WindowEnd(cfg, n, safeHead) + 1)
  {
    hide SpanRows, EntrySource, RoundSource;
    assert Checked(cfg, Answering(chain), db) == (db, Ok(db.cursor.value));
    if n <= safeHead {
      ReadStands(cfg, chain, db, n, WindowEnd(cfg, n, safeHead), |chain| - 1);
    }
  }

  lemma {:induction false} StandingCyclesReach(cfg: Config, chain: Blocks, db: Db, n: nat, safeHead: nat, k: nat)
    requires QuietBelow(cfg, chain) && UniqueLogs(chain) && Sound(cfg, chain)
    requires safeHead + cfg.confirmations == |chain| - 1
    requires StandsAt(cfg, db, chain, n) && n <= safeHead + 1
    requires Enough(cfg, n, k, safeHead)
    ensures StandsAt(cfg, Cycles(cfg, chain, db, k), chain, safeHead + 1)
    decreases k
  {
    hide SpanRows, EntrySource, RoundSource;
    OneWindowLess(cfg, n, safeHead, k);
    if k > 0 {
      hide Step, Enough;
      StandingStep(cfg, chain, db, n, safeHead);
      var n' := if n <= safeHead then WindowEnd(cfg, n, safeHead) + 1 else n;
      StandingCyclesReach(cfg, chain, Step(cfg, Answering(chain), db).0, n', safeHead, k - 1);
    }
  }

  /** k batches from n cover everything up to the confirmed head. */
  predicate Enough(cfg: Config, n: nat, k: nat, safeHead: nat) {
    safeHead < n + k * cfg.batchSize
  }

  lemma OneWindowLess(cfg: Config, n: nat, safeHead: nat, k: nat)
    requires n <= safeHead + 1 && Enough(cfg, n, k, safeHead)
    ensures k == 0 ==> n > safeHead
    ensures k > 0 && n <= safeHead ==>
      && WindowEnd(cfg, n, safeHead) + 1 <= safeHead + 1
      && Enough(cfg, WindowEnd(cfg, n, safeHead) + 1, k - 1, safeHead)
    ensures k > 0 && n > safeHead ==> Enough(cfg, n, k - 1, safeHead)
  {}

  // ---- Whether the reorg check lets it ---------------------------------------------------------

  /** There is nothing to check; or the tip is still the chain's; or no row is held in the range to be
      re-read, or the chain still has watched logs in the lowest window that holds one. */
  ghost predicate MayGoOn(cfg: Config, chain: Blocks, db: Db) {
    db.cursor.None? || db.cursor.value.lastHash.None?
    || (var c := db.cursor.value;
        && c.lastBlock < |chain|
        && (|| c.lastHash == Some(chain[c.lastBlock].hash)
            || (var start := LowestHeld(cfg, db, RewindTarget(cfg, c.lastBlock), c.lastBlock);
                || start.None?
                || LogsBetween(Watched(cfg.contracts), chain, start.value,
                               WindowEnd(cfg, start.value, c.lastBlock)) != [])))
  }

  /** The first block it will read when it may. */
  function ReadsFrom(cfg: Config, chain: Blocks, db: Db): nat {
    if db.cursor.None? then cfg.startBlock
    else
      var c := db.cursor.value;
      if c.lastHash.None? || (c.lastBlock < |chain| && c.lastHash == Some(chain[c.lastBlock].hash)) then c.lastBlock + 1
      else RewindTarget(cfg, c.lastBlock)
  }

  /** On an endpoint that answers everything the check passes exactly then, and when it does not, it has
      left everything as it was. */
  lemma CheckPassesExactlyWhen(cfg: Config, chain: Blocks, db: Db)
    ensures
      var (db', checked) := Checked(cfg, Answering(chain), db);
      && (checked.Ok? <==> MayGoOn(cfg, chain, db))
      && (checked.Ok? ==> checked.value.lastBlock + 1 == ReadsFrom(cfg, chain, db))
      && (checked.Err? ==> db' == db)
  {
    hide StillServed, LowestHeld, LogsBetween;
    if db.cursor.Some? && db.cursor.value.lastHash.Some? && db.cursor.value.lastBlock < |chain| {
      var last := db.cursor.value.lastBlock;
      GuardLooksAtTheLowestHeldWindow(cfg, Answering(chain), db, RewindTarget(cfg, last), last);
    }
  }

  /** Failing calls and mute answers never make it pass where it would not. */
  lemma RefusedAnyway(cfg: Config, net: Endpoint, db: Db)
    requires !MayGoOn(cfg, net.chain, db)
    ensures Checked(cfg, net, db) == (db, Err) && Step(cfg, net, db).0 == db
  {
    hide StillServed, LowestHeld, LogsBetween;
    var last := db.cursor.value.lastBlock;
    GuardLooksAtTheLowestHeldWindow(cfg, net, db, RewindTarget(cfg, last), last);
  }

  /** Blocks added above the cursor change nothing about it. */
  lemma RefusedLater(cfg: Config, chain: Blocks, longer: Blocks, db: Db)
    requires !MayGoOn(cfg, chain, db) && chain <= longer
    requires longer == chain || db.cursor.value.lastBlock < |chain|
    ensures !MayGoOn(cfg, longer, db)
  {
    hide LowestHeld;
    var c := db.cursor.value;
    var start := LowestHeld(cfg, db, RewindTarget(cfg, c.lastBlock), c.lastBlock);
    if c.lastBlock < |chain| && start.Some? {
      LogsBetweenAgree(Watched(cfg.contracts), chain, longer, start.value, WindowEnd(cfg, start.value, c.lastBlock));
    }
  }

  lemma {:induction false} LogsBetweenAgree(addresses: set<Address>, chain: Blocks, longer: Blocks, lo: nat, hi: nat)
    requires chain <= longer && hi < |chain|
    ensures LogsBetween(addresses, chain, lo, hi) == LogsBetween(addresses, longer, lo, hi)
    decreases hi + 1 - lo
  {
    if lo <= hi { LogsBetweenAgree(addresses, chain, longer, lo + 1, hi); }
  }

  /** Cycles against one endpoint after another. */
  function CyclesAt(cfg: Config, nets: seq<Endpoint>, db: Db): Db
    decreases |nets|
  {
    if nets == [] then db else CyclesAt(cfg, nets[1..], Step(cfg, nets[0], db).0)
  }

  /** Otherwise the indexer stalls: no cycle changes anything any more, whatever fails or is not answered
      in it, on that chain or, when it reaches the cursor, on any that extends it. */
  lemma {:induction false} RefusedCyclesStall(cfg: Config, chain: Blocks, db: Db, nets: seq<Endpoint>)
    requires !MayGoOn(cfg, chain, db)
    requires forall net :: net in nets ==>
      chain <= net.chain && (net.chain == chain || db.cursor.value.lastBlock < |chain|)
    ensures CyclesAt(cfg, nets, db) == db
    decreases |nets|
  {
    hide MayGoOn, Step, Checked;
    if nets != [] {
      RefusedLater(cfg, chain, nets[0].chain, db);
      RefusedAnyway(cfg, nets[0], db);
      RefusedCyclesStall(cfg, chain, db, nets[1..]);
    }
  }

  lemma {:induction false} AnsweredCyclesAt(cfg: Config, chain: Blocks, db: Db, k: nat)
    ensures CyclesAt(cfg, seq(k, _ => Answering(chain)), db) == Cycles(cfg, chain, db, k)
    decreases k
  {
    hide Step;
    if k > 0 {
      assert seq(k, _ => Answering(chain))[1..] == seq(k - 1, _ => Answering(chain));
      AnsweredCyclesAt(cfg, chain, Step(cfg, Answering(chain), db).0, k - 1);
    }
  }

  /** Indexed as far as the confirmed head, or further where an earlier head was higher; the tip, when it
      is verified at all, is the chain's. */
  ghost predicate CaughtUp(cfg: Config, db: Db, chain: Blocks, safeHead: nat) {
    match db.cursor
    case None => safeHead < cfg.startBlock && TablesEmpty(db)
    case Some(c) =>
      && safeHead <= c.lastBlock && IsStraightRead(cfg, db, chain, c.lastBlock)
      && (c.lastHash.Some? ==> c.lastBlock < |chain| && c.lastHash == Some(chain[c.lastBlock].hash))
  }

  /** From any state a run can reach, on a chain standing still and with every call answered, enough
      cycles end caught up if and only if the reorg check may go on; and from below the confirmed head
      they end exactly on it, both tables one straight read of the canonical chain. */
  lemma CyclesConverge(cfg: Config, chains: set<Blocks>, w: World, safeHead: nat, k: nat)
    requires Family(cfg, chains) && Inv(cfg, chains, w) && Sound(cfg, w.chain)
    requires safeHead + cfg.confirmations == |w.chain| - 1
    requires k > 0 && Enough(cfg, ReadsFrom(cfg, w.chain, w.db), k, safeHead)
    ensures
      var db := Cycles(cfg, w.chain, w.db, k);
      && (CaughtUp(cfg, db, w.chain, safeHead) <==> MayGoOn(cfg, w.chain, w.db))
      && (MayGoOn(cfg, w.chain, w.db) && ReadsFrom(cfg, w.chain, w.db) <= safeHead ==>
            && db.cursor == Some(Cursor(safeHead, Some(w.chain[safeHead].hash), cfg.version))
            && IsStraightRead(cfg, db, w.chain, safeHead))
      && (MayGoOn(cfg, w.chain, w.db) && ReadsFrom(cfg, w.chain, w.db) > safeHead ==>
            db == Checked(cfg, Answering(w.chain), w.db).0)
  {
    hide Inv, Family, Sound, UpToDate, Step, Enough, ReadsFrom;
    var n := ReadsFrom(cfg, w.chain, w.db);
    CheckPassesExactlyWhen(cfg, w.chain, w.db);
    if !MayGoOn(cfg, w.chain, w.db) {
      var nets := seq(k, _ => Answering(w.chain));
      RefusedCyclesStall(cfg, w.chain, w.db, nets);
      AnsweredCyclesAt(cfg, w.chain, w.db, k);
    } else if n <= safeHead {
      hide MayGoOn;
      CurrentCanBeRead(cfg, chains, w);
      FirstCycle(cfg, chains, w, safeHead, n);
      AfterTheFirst(cfg, w.chain, w.db, n, safeHead, k);
    } else {
      hide MayGoOn;
      IdleCyclesStay(cfg, w.chain, w.db, safeHead, k);
      CheckedTablesAreCurrent(cfg, chains, w, Answering(w.chain));
      CheckedIsCaughtUp(cfg, chains, w, safeHead);
    }
  }

  /** Past the confirmed head there is nothing to read, only what the reorg check did. */
  lemma {:induction false} IdleCyclesStay(cfg: Config, chain: Blocks, db: Db, safeHead: nat, k: nat)
    requires MayGoOn(cfg, chain, db) && ReadsFrom(cfg, chain, db) > safeHead
      && safeHead + cfg.confirmations == |chain| - 1
    ensures k > 0 ==> Cycles(cfg, chain, db, k) == Checked(cfg, Answering(chain), db).0
    decreases k
  {
    hide ReadRange, LowestHeld, LogsBetween;
    if k > 0 {
      CheckPassesExactlyWhen(cfg, chain, db);
      var db' := Checked(cfg, Answering(chain), db).0;
      assert Step(cfg, Answering(chain), db) == (db', Idle);
      if k > 1 {
        CheckPassesExactlyWhen(cfg, chain, db');
        IdleCyclesStay(cfg, chain, db', safeHead, k - 1);
      }
    }
  }

  /** The cursor a passed check leaves in the database is the one in hand, verified or cleared. */
  lemma CheckedCursor(cfg: Config, chain: Blocks, db: Db)
    requires MayGoOn(cfg, chain, db)
    ensures
      var (db', checked) := Checked(cfg, Answering(chain), db);
      && checked.Ok?
      && (db.cursor.None? ==> db' == db)
      && (db.cursor.Some? ==>
            && db'.cursor.Some? && db'.cursor.value.lastBlock == checked.value.lastBlock
            && (db'.cursor.value.lastHash.Some? ==>
                  && db'.cursor.value.lastBlock < |chain|
                  && db'.cursor.value.lastHash == Some(chain[db'.cursor.value.lastBlock].hash)))
  {
    CheckPassesExactlyWhen(cfg, chain, db);
    hide StillServed, MayGoOn;
  }

  lemma CheckedIsCaughtUp(cfg: Config, chains: set<Blocks>, w: World, safeHead: nat)
    requires Family(cfg, chains) && Inv(cfg, chains, w)
    requires MayGoOn(cfg, w.chain, w.db) && ReadsFrom(cfg, w.chain, w.db) > safeHead
    ensures CaughtUp(cfg, Checked(cfg, Answering(w.chain), w.db).0, w.chain, safeHead)
  {
    CheckPassesExactlyWhen(cfg, w.chain, w.db);
    CheckedCursor(cfg, w.chain, w.db);
    hide Inv, Family, MayGoOn, Checked, UpToDate, IsStraightRead, UniqueLogs, QuietBelow;
    CheckedTablesAreCurrent(cfg, chains, w, Answering(w.chain));
    CurrentCanBeRead(cfg, chains, w);
    var (db, checked) := Checked(cfg, Answering(w.chain), w.db);
    UpToDateIsRead(cfg, db, w.chain, checked.value.lastBlock);
    if w.db.cursor.None? { NoCursorNoRows(cfg, chains, w); }
  }

  lemma UpToDateIsRead(cfg: Config, db: Db, chain: Blocks, lastBlock: nat)
    requires UniqueLogs(chain) && UpToDate(cfg, db, chain, lastBlock + 1)
    ensures IsStraightRead(cfg, db, chain, lastBlock)
  {
    hide UniqueLogs, StraightRead, TablesHold;
    if lastBlock >= cfg.startBlock { UpToDateIsStraightRead(cfg, db, chain, lastBlock); }
  }

  lemma NoCursorNoRows(cfg: Config, chains: set<Blocks>, w: World)
    requires Inv(cfg, chains, w) && w.db.cursor.None?
    ensures TablesEmpty(w.db)
  {}

  lemma CurrentCanBeRead(cfg: Config, chains: set<Blocks>, w: World)
    requires Family(cfg, chains) && Inv(cfg, chains, w)
    ensures QuietBelow(cfg, w.chain) && UniqueLogs(w.chain)
  {}

  lemma FirstCycle(cfg: Config, chains: set<Blocks>, w: World, safeHead: nat, n: nat)
    requires Family(cfg, chains) && Inv(cfg, chains, w) && Sound(cfg, w.chain)
    requires safeHead + cfg.confirmations == |w.chain| - 1
    requires
      var checked := Checked(cfg, Answering(w.chain), w.db).1;
      checked.Ok? && n == checked.value.lastBlock + 1 <= safeHead
    ensures StandsAt(cfg, Step(cfg, Answering(w.chain), w.db).0, w.chain, WindowEnd(cfg, n, safeHead) + 1)
  {
    hide Inv, Family, Sound, QuietBelow, UniqueLogs, UpToDate, StandsAt, ReadRange, CheckReorg;
    var net := Answering(w.chain);
    CurrentCanBeRead(cfg, chains, w);
    CheckedTablesAreCurrent(cfg, chains, w, net);
    ReadStands(cfg, w.chain, Checked(cfg, net, w.db).0, n, WindowEnd(cfg, n, safeHead), |w.chain| - 1);
  }

  lemma AfterTheFirst(cfg: Config, chain: Blocks, db: Db, n: nat, safeHead: nat, k: nat)
    requires QuietBelow(cfg, chain) && UniqueLogs(chain) && Sound(cfg, chain)
    requires safeHead + cfg.confirmations == |chain| - 1
    requires n <= safeHead && Enough(cfg, n, k, safeHead)
    requires StandsAt(cfg, Step(cfg, Answering(chain), db).0, chain, WindowEnd(cfg, n, safeHead) + 1)
    ensures
      var end := Cycles(cfg, chain, db, k);
      && end.cursor == Some(Cursor(safeHead, Some(chain[safeHead].hash), cfg.version))
      && IsStraightRead(cfg, end, chain, safeHead)
  {
    hide SpanRows, EntrySource, RoundSource, Step, Enough;
    OneWindowLess(cfg, n, safeHead, k);
    StandingCyclesReach(cfg, chain, Step(cfg, Answering(chain), db).0, WindowEnd(cfg, n, safeHead) + 1, safeHead,
                        k - 1);
    UpToDateIsStraightRead(cfg, Cycles(cfg, chain, db, k), chain, safeHead);
  }

  /** So the batch size, and everything that happened before, leave no trace: two indexers that may both
      go on, and are not past the confirmed head, end with the same two tables; and with the same database
      where both had something left to read. */
  lemma HistoryLeavesNoTrace(cfg: Config, cfg': Config, chains: set<Blocks>, w: World, w': World, safeHead: nat, k: nat,
                             k': nat)
    requires cfg' == cfg.(batchSize := cfg'.batchSize)
    requires Family(cfg, chains) && Family(cfg', chains) && w.chain == w'.chain
    requires Inv(cfg, chains, w) && Inv(cfg', chains, w') && Sound(cfg, w.chain) && Sound(cfg', w.chain)
    requires safeHead + cfg.confirmations == |w.chain| - 1 && k > 0 && k' > 0
    requires MayGoOn(cfg, w.chain, w.db) && MayGoOn(cfg', w.chain, w'.db)
    requires ReadsFrom(cfg, w.chain, w.db) <= safeHead + 1 && Enough(cfg, ReadsFrom(cfg, w.chain, w.db), k, safeHead)
    requires ReadsFrom(cfg', w.chain, w'.db) <= safeHead + 1
      && Enough(cfg', ReadsFrom(cfg', w.chain, w'.db), k', safeHead)
    ensures
      var db, db' := Cycles(cfg, w.chain, w.db, k), Cycles(cfg', w.chain, w'.db, k');
      && db.entries == db'.entries && db.rounds == db'.rounds
      && (ReadsFrom(cfg, w.chain, w.db) <= safeHead && ReadsFrom(cfg', w.chain, w'.db) <= safeHead ==> db == db')
  {
    hide Inv, Family, Sound, MayGoOn, ReadsFrom, Enough, StraightRead;
    CyclesConverge(cfg, chains, w, safeHead, k);
    CyclesConverge(cfg', chains, w', safeHead, k');
    CaughtUpExactly(cfg, chains, w, safeHead, k);
    CaughtUpExactly(cfg', chains, w', safeHead, k');
  }

  /** Not past the confirmed head, it ends there. */
  lemma CaughtUpExactly(cfg: Config, chains: set<Blocks>, w: World, safeHead: nat, k: nat)
    requires Family(cfg, chains) && Inv(cfg, chains, w) && Sound(cfg, w.chain)
    requires safeHead + cfg.confirmations == |w.chain| - 1 && MayGoOn(cfg, w.chain, w.db)
    requires ReadsFrom(cfg, w.chain, w.db) <= safeHead + 1
    requires k > 0 && Enough(cfg, ReadsFrom(cfg, w.chain, w.db), k, safeHead)
    ensures IsStraightRead(cfg, Cycles(cfg, w.chain, w.db, k), w.chain, safeHead)
  {
    hide Inv, Family, Sound, Enough, MayGoOn, LowestHeld, LogsBetween, StillServed, StraightRead;
    CyclesConverge(cfg, chains, w, safeHead, k);
    CheckPassesExactlyWhen(cfg, w.chain, w.db);
  }
}
