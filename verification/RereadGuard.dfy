/** What the re-read guard is worth (indexer.go, assertLogsStillServed): where it looks, that an
    honest endpoint passes it, and that an endpoint which has stopped serving logs never costs a
    stored row. */
module RereadGuard {
  import opened FixedPoint
  import opened Ledger
  import opened Tables
  import opened Chain
  import opened Decoder
  import opened LedgerStore
  import opened IndexerSpec
  import opened Rows
  import opened Reading
  import opened Convergence

  /** Some row of either table lies in an inclusive block range. */
  ghost predicate RowIn(db: Db, lo: nat, hi: nat) {
    || (exists k :: k in db.entries && HeldIn(db.entries, k, lo, hi))
    || (exists k :: k in db.rounds && HeldIn(db.rounds, k, lo, hi))
  }

  lemma RecordsMeansRow(db: Db, lo: nat, hi: nat)
    ensures RecordsIn(db, lo, hi) > 0 <==> RowIn(db, lo, hi)
  {
    CountIsZero(db.entries, lo, hi);
    CountIsZero(db.rounds, lo, hi);
  }

  lemma RowInSplits(db: Db, lo: nat, mid: nat, hi: nat)
    requires lo <= mid <= hi
    ensures RowIn(db, lo, hi) <==> RowIn(db, lo, mid) || (mid < hi && RowIn(db, mid + 1, hi))
  {}

  /** The start of the lowest batch-wide window above `from` in which a row is held. */
  ghost function LowestHeld(cfg: Config, db: Db, from: nat, upTo: nat): Option<nat>
    decreases upTo + 1 - from
  {
    if from > upTo then None
    else if RowIn(db, from, WindowEnd(cfg, from, upTo)) then Some(from)
    else LowestHeld(cfg, db, from + cfg.batchSize, upTo)
  }

  /** Windows tile the range upward from its start, none wider than a batch: there is no lowest held
      one exactly when no row of the range is held, and below it nothing is. */
  lemma {:induction false} WindowsTileTheRange(cfg: Config, db: Db, from: nat, upTo: nat)
    ensures LowestHeld(cfg, db, from, upTo).None? <==> from > upTo || !RowIn(db, from, upTo)
    ensures LowestHeld(cfg, db, from, upTo).Some? ==>
      var start := LowestHeld(cfg, db, from, upTo).value;
      && from <= start <= upTo
      && (exists k: nat :: start == from + k * cfg.batchSize)
      && WindowEnd(cfg, start, upTo) - start < cfg.batchSize
      && RowIn(db, start, WindowEnd(cfg, start, upTo))
      && (start > from ==> !RowIn(db, from, start - 1))
    decreases upTo + 1 - from
  {
    if from <= upTo {
      var end, next := WindowEnd(cfg, from, upTo), from + cfg.batchSize;
      RowInSplits(db, from, end, upTo);
      if RowIn(db, from, end) {
        assert from == from + 0 * cfg.batchSize;
      } else {
        WindowsTileTheRange(cfg, db, next, upTo);
        var later := LowestHeld(cfg, db, next, upTo);
        if later.Some? {
          var start := later.value;
          var k: nat :| start == next + k * cfg.batchSize;
          assert start == from + (k + 1) * cfg.batchSize;
          if start > next { RowInSplits(db, from, end, start - 1); }
        }
      }
    }
  }

  /** No row is held in the range, or the lowest window holding one still returns logs. */
  ghost predicate LowestStillServed(cfg: Config, net: Endpoint, db: Db, from: nat, upTo: nat) {
    var start := LowestHeld(cfg, db, from, upTo);
    start.None?
      || FilterLogs(net, Watched(cfg.contracts), start.value, WindowEnd(cfg, start.value, upTo)) !in {Err, Ok([])}
  }

  /** The guard passes only then, whatever calls fail; and when none does, it passes exactly then. */
  lemma {:induction false} GuardLooksAtTheLowestHeldWindow(cfg: Config, net: Endpoint, db: Db, from: nat, upTo: nat)
    ensures StillServed(cfg, net, db, from, upTo) ==> LowestStillServed(cfg, net, db, from, upTo)
    ensures net.down == {} && LowestStillServed(cfg, net, db, from, upTo) ==> StillServed(cfg, net, db, from, upTo)
    decreases upTo + 1 - from
  {
    if from <= upTo {
      RecordsMeansRow(db, from, WindowEnd(cfg, from, upTo));
      if !RowIn(db, from, WindowEnd(cfg, from, upTo)) {
        GuardLooksAtTheLowestHeldWindow(cfg, net, db, from + cfg.batchSize, upTo);
      }
    }
  }

  /** And it passes only when every window up to that one could be counted. */
  lemma {:induction false} GuardCountsEveryWindow(cfg: Config, net: Endpoint, db: Db, from: nat, upTo: nat, k: nat)
    requires StillServed(cfg, net, db, from, upTo) && from + k * cfg.batchSize <= upTo
    requires
      var lowest := LowestHeld(cfg, db, from, upTo);
      lowest.Some? ==> from + k * cfg.batchSize <= lowest.value
    ensures
      var start := from + k * cfg.batchSize;
      CountCall(start, WindowEnd(cfg, start, upTo)) !in net.down
    decreases k
  {
    if k > 0 {
      var next := from + cfg.batchSize;
      assert from + k * cfg.batchSize == next + (k - 1) * cfg.batchSize;
      assert from < from + k * cfg.batchSize;
      RecordsMeansRow(db, from, WindowEnd(cfg, from, upTo));
      GuardCountsEveryWindow(cfg, net, db, next, upTo, k - 1);
    }
  }

  /** With every call answered a boot goes back to the start block exactly when another version indexed as far
      as that, replays are not switched off, and what it would read again is still served. It touches no row. */
  lemma RewindsExactlyWhen(cfg: Config, net: Endpoint, db: Db)
    requires net.down == {}
    ensures
      var (db', outcome) := ReplayForNewDecoders(cfg, net, db);
      && (outcome.Rewound? <==>
            && db.cursor.Some? && db.cursor.value.decoders != cfg.version
            && db.cursor.value.lastBlock >= cfg.startBlock && !cfg.skipDecoderReplay
            && LowestStillServed(cfg, net, db, cfg.startBlock, db.cursor.value.lastBlock))
      && (outcome.Rewound? ==>
            db' == db.(cursor := Some(Cursor(cfg.startBlock - 1, None, db.cursor.value.decoders))))
      && (!outcome.Rewound? ==> db' == db)
  {
    hide StillServed, LowestStillServed;
    if db.cursor.Some? {
      GuardLooksAtTheLowestHeldWindow(cfg, net, db, cfg.startBlock, db.cursor.value.lastBlock);
    }
  }

  // ---- An honest endpoint ----------------------------------------------------------------------

  /** Every row held in the range is one the chain still decodes to. */
  ghost predicate RowsAreTheChains(cfg: Config, db: Db, chain: Blocks, lo: nat, hi: nat) {
    && hi < |chain|
    && (forall k :: k in db.entries && HeldIn(db.entries, k, lo, hi) ==>
          db.entries[k] in SpanRows(EntrySource(cfg.contracts), chain, lo, hi + 1))
    && (forall k :: k in db.rounds && HeldIn(db.rounds, k, lo, hi) ==>
          db.rounds[k] in SpanRows(RoundSource(cfg.contracts), chain, lo, hi + 1))
  }

  lemma {:induction false} RowsNeedLogs(cfg: Config, h: nat, b: Block, logs: seq<Log>)
    ensures LogsOf(Watched(cfg.contracts), h, b.hash, logs) == [] ==>
      BlockRows(EntrySource(cfg.contracts), h, b, logs) == [] && BlockRows(RoundSource(cfg.contracts), h, b, logs) == []
  {
    if logs != [] {
      RowsNeedLogs(cfg, h, b, logs[1..]);
      UnwatchedLogsDecodeToNothing(cfg.contracts, h, b, logs[0]);
      assert EntrySource(cfg.contracts)(h, b, logs[0]) == Decoded(cfg.contracts, h, b, logs[0]).entries;
      assert RoundSource(cfg.contracts)(h, b, logs[0]) == Decoded(cfg.contracts, h, b, logs[0]).rounds;
    }
  }

  lemma {:induction false} SpanNeedsLogs(cfg: Config, chain: Blocks, lo: nat, hi: nat)
    requires hi < |chain|
    ensures LogsBetween(Watched(cfg.contracts), chain, lo, hi) == [] ==>
      SpanRows(EntrySource(cfg.contracts), chain, lo, hi + 1) == []
        && SpanRows(RoundSource(cfg.contracts), chain, lo, hi + 1) == []
    decreases hi + 1 - lo
  {
    if lo <= hi {
      RowsNeedLogs(cfg, lo, chain[lo], chain[lo].logs);
      SpanNeedsLogs(cfg, chain, lo + 1, hi);
    }
  }

  /** An endpoint that answers truthfully, on a chain that still holds what was indexed from the
      range, is never refused. */
  lemma {:induction false} HonestEndpointsPass(cfg: Config, net: Endpoint, db: Db, from: nat, upTo: nat)
    requires Truthful(net) && net.down == {}
    requires from <= upTo ==> RowsAreTheChains(cfg, db, net.chain, from, upTo)
    ensures StillServed(cfg, net, db, from, upTo)
    decreases upTo + 1 - from
  {
    hide SpanRows, EntrySource, RoundSource;
    if from <= upTo {
      var end := WindowEnd(cfg, from, upTo);
      if RecordsIn(db, from, end) == 0 {
        if from + cfg.batchSize <= upTo {
          NarrowRows(cfg, db, net.chain, from, upTo, from + cfg.batchSize, upTo);
        }
        HonestEndpointsPass(cfg, net, db, from + cfg.batchSize, upTo);
      } else {
        NarrowRows(cfg, db, net.chain, from, upTo, from, end);
        RecordsMeansRow(db, from, end);
        SpanNeedsLogs(cfg, net.chain, from, end);
      }
    }
  }

  lemma NarrowRows(cfg: Config, db: Db, chain: Blocks, lo: nat, hi: nat, lo': nat, hi': nat)
    requires RowsAreTheChains(cfg, db, chain, lo, hi) && lo <= lo' && hi' <= hi
    ensures RowsAreTheChains(cfg, db, chain, lo', hi')
  {
    hide SpanRows, EntrySource, RoundSource;
    SourcesAreStamped(cfg.contracts);
    forall k | k in db.entries && HeldIn(db.entries, k, lo', hi')
      ensures db.entries[k] in SpanRows(EntrySource(cfg.contracts), chain, lo', hi' + 1)
    {
      assert HeldIn(db.entries, k, lo, hi);
      SpanHeight(EntrySource(cfg.contracts), chain, lo, hi + 1, lo', hi' + 1, db.entries[k]);
    }
    forall k | k in db.rounds && HeldIn(db.rounds, k, lo', hi')
      ensures db.rounds[k] in SpanRows(RoundSource(cfg.contracts), chain, lo', hi' + 1)
    {
      assert HeldIn(db.rounds, k, lo, hi);
      SpanHeight(RoundSource(cfg.contracts), chain, lo, hi + 1, lo', hi' + 1, db.rounds[k]);
    }
  }

  // ---- An endpoint that has stopped serving logs -----------------------------------------------

  /** Every log query fails or comes back empty, whatever the chain holds. */
  ghost predicate Mute(cfg: Config, net: Endpoint) {
    forall a, b :: FilterLogs(net, Watched(cfg.contracts), a, b) in {Err, Ok([])}
  }

  ghost predicate NoRowAboveCursor(db: Db) {
    && (forall k :: k in db.entries ==> db.cursor.Some? && db.entries[k].prov.blockNumber <= db.cursor.value.lastBlock)
    && (forall k :: k in db.rounds ==> db.cursor.Some? && db.rounds[k].prov.blockNumber <= db.cursor.value.lastBlock)
  }

  lemma {:induction false} MuteGuardPassesOnlyEmptyRanges(cfg: Config, net: Endpoint, db: Db, from: nat, upTo: nat)
    requires Mute(cfg, net) && StillServed(cfg, net, db, from, upTo)
    ensures from <= upTo ==> !RowIn(db, from, upTo)
    decreases upTo + 1 - from
  {
    if from <= upTo {
      var end := WindowEnd(cfg, from, upTo);
      RecordsMeansRow(db, from, end);
      var logs := FilterLogs(net, Watched(cfg.contracts), from, end);
      assert logs in {Err, Ok([])};
      if end < upTo {
        MuteGuardPassesOnlyEmptyRanges(cfg, net, db, from + cfg.batchSize, upTo);
        RowInSplits(db, from, end, upTo);
      }
    }
  }

  lemma NothingAbove(db: Db, lo: nat, hi: nat, block: nat)
    requires NoRowAboveCursor(db) && db.cursor.Some? && hi == db.cursor.value.lastBlock
    requires lo <= hi ==> !RowIn(db, lo, hi)
    requires block > 0 && (block == lo || lo > hi)
    requires lo > hi ==> block > hi
    ensures DeleteFrom(db.entries, block) == db.entries && DeleteFrom(db.rounds, block) == db.rounds
  {}

  /** The reorg check of a mute endpoint deletes nothing, whatever chain it reports. */
  lemma MuteCheckDeletesNothing(cfg: Config, net: Endpoint, db: Db)
    requires Mute(cfg, net) && NoRowAboveCursor(db)
    ensures
      var (db', checked) := Checked(cfg, net, db);
      && db'.entries == db.entries && db'.rounds == db.rounds && NoRowAboveCursor(db')
      && (checked.Ok? && db'.cursor.Some? ==> checked.value.lastBlock == db'.cursor.value.lastBlock)
  {
    if Checked(cfg, net, db).0 != db {
      var last := db.cursor.value.lastBlock;
      var target := RewindTarget(cfg, last);
      MuteGuardPassesOnlyEmptyRanges(cfg, net, db, target, last);
      NothingAbove(db, target, last, target);
      assert DeleteFrom(db.entries, target) == db.entries && DeleteFrom(db.rounds, target) == db.rounds;
    }
  }

  lemma MuteReadAddsNothing(cfg: Config, net: Endpoint, db: Db, from: nat, upTo: nat, head: nat)
    requires Mute(cfg, net)
    ensures
      var (db', outcome) := ReadRange(cfg, net, db, from, upTo, head);
      && db'.entries == db.entries && db'.rounds == db.rounds
      && (outcome.Indexed? ==> db'.cursor.Some? && db'.cursor.value.lastBlock == upTo)
      && (!outcome.Indexed? ==> db' == db)
  {}

  lemma MuteCycleKeepsRows(cfg: Config, net: Endpoint, db: Db)
    requires Mute(cfg, net) && NoRowAboveCursor(db)
    ensures
      var db' := Step(cfg, net, db).0;
      db'.entries == db.entries && db'.rounds == db.rounds && NoRowAboveCursor(db')
  {
    StepShape(cfg, net, db);
    MuteCheckDeletesNothing(cfg, net, db);
    var (db1, checked) := Checked(cfg, net, db);
    var (db', outcome) := Step(cfg, net, db);
    if outcome.Indexed? {
      MuteReadAddsNothing(cfg, net, db1, outcome.fromBlock, outcome.toBlock, |net.chain| - 1);
      MovedUp(db1, db');
    }
  }

  lemma MovedUp(db: Db, db': Db)
    requires NoRowAboveCursor(db) && db'.entries == db.entries && db'.rounds == db.rounds
    requires db'.cursor.Some? && (db.cursor.Some? ==> db.cursor.value.lastBlock <= db'.cursor.value.lastBlock)
    ensures NoRowAboveCursor(db')
  {}

  lemma MuteReplayKeepsRows(cfg: Config, net: Endpoint, db: Db)
    requires Mute(cfg, net) && NoRowAboveCursor(db)
    ensures
      var db' := ReplayForNewDecoders(cfg, net, db).0;
      db'.entries == db.entries && db'.rounds == db.rounds && NoRowAboveCursor(db')
  {
    if ReplayForNewDecoders(cfg, net, db).1.Rewound? {
      var last := db.cursor.value.lastBlock;
      MuteGuardPassesOnlyEmptyRanges(cfg, net, db, cfg.startBlock, last);
      NothingAbove(db, cfg.startBlock, last, cfg.startBlock);
      NoneAtOrAbove(db, cfg.startBlock);
    }
  }

  lemma NoneAtOrAbove(db: Db, block: nat)
    requires block > 0
    requires DeleteFrom(db.entries, block) == db.entries && DeleteFrom(db.rounds, block) == db.rounds
    requires db.cursor.Some?
    ensures NoRowAboveCursor(Replayed(db, block))
  {}

  /** A boot's decoder check or a poll cycle, against one endpoint. */
  datatype Poll = Boot(net: Endpoint) | Poll(net: Endpoint)

  function Polled(cfg: Config, db: Db, p: Poll): Db
  {
    match p
    case Boot(net) => ReplayForNewDecoders(cfg, net, db).0
    case Poll(net) => Step(cfg, net, db).0
  }

  function AllPolled(cfg: Config, db: Db, polls: seq<Poll>): Db
    decreases |polls|
  {
    if polls == [] then db else AllPolled(cfg, Polled(cfg, db, polls[0]), polls[1..])
  }

  /** However long a run goes on against endpoints that serve no logs, over whatever chains they
      report and whatever calls fail, both tables stay exactly as they were. */
  lemma {:induction false} MuteEndpointsCostNothing(cfg: Config, db: Db, polls: seq<Poll>)
    requires NoRowAboveCursor(db)
    requires forall i :: 0 <= i < |polls| ==> Mute(cfg, polls[i].net)
    ensures
      var db' := AllPolled(cfg, db, polls);
      db'.entries == db.entries && db'.rounds == db.rounds && NoRowAboveCursor(db')
    decreases |polls|
  {
    if polls != [] {
      match polls[0] {
        case Boot(net) => MuteReplayKeepsRows(cfg, net, db);
        case Poll(net) => MuteCycleKeepsRows(cfg, net, db);
      }
      MuteEndpointsCostNothing(cfg, Polled(cfg, db, polls[0]), polls[1..]);
    }
  }
}
