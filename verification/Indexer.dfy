/** The polling loop's one cycle over a store it updates in place (indexer/indexer.go). */
module Indexer {
  import opened FixedPoint
  import opened Ledger
  import opened Chain
  import opened Decoder
  import opened LedgerStore
  import opened IndexerSpec

  class Indexer {
    const cfg: Config
    const repo: Store

    constructor (cfg: Config, repo: Store)
      ensures this.cfg == cfg && this.repo == repo
    {
      this.cfg := cfg;
      this.repo := repo;
    }

    /** One cycle: the reorg check, then at most one batch of blocks, read and committed together. */
    method Step(net: Endpoint) returns (outcome: Outcome)
      modifies repo
      ensures (repo.Contents(), outcome) == IndexerSpec.Step(cfg, net, old(repo.Contents()))
    {
      if !Reaches(net, HeadCall) || net.chain == [] {
        return Failed;
      }
      var head := |net.chain| - 1;
      if head < cfg.confirmations {
        return Idle;
      }
      var safeHead := head - cfg.confirmations;
      if !Reaches(net, LoadCall) {
        return Failed;
      }
      var cursor := if repo.cursor.Some? then repo.cursor.value else FreshCursor(cfg);
      var checked := CheckReorg(net, cursor);
      if checked.Err? {
        return Failed;
      }
      cursor := checked.value;
      var from := cursor.lastBlock + 1;
      if from > safeHead {
        return Idle;
      }
      var upTo := from + cfg.batchSize - 1;
      if upTo > safeHead {
        upTo := safeHead;
      }
      var served := AssertRangeServed(net, from, upTo, head);
      if !served {
        return Failed;
      }
      var logs := FilterLogs(net, Watched(cfg.contracts), from, upTo);
      if logs.Err? {
        return Failed;
      }
      var batch := DecodeLogs(net, logs.value);
      if batch.Err? {
        return Failed;
      }
      var tip := Header(net, upTo);
      if tip.Err? {
        return Failed;
      }
      var ok := repo.Append(batch.value, Cursor(upTo, Some(tip.value.hash), cfg.version), Reaches(net, AppendCall));
      outcome := if ok then Indexed(from, upTo) else Failed;
    }

    /** Compares the cursor's hash with the chain's at that height; a different one deletes and rewinds a whole
        confirmation window, once the endpoint has shown it can serve it again. */
    method CheckReorg(net: Endpoint, cursor: Cursor) returns (checked: Result<Cursor>)
      modifies repo
      ensures (repo.Contents(), checked) == IndexerSpec.CheckReorg(cfg, net, old(repo.Contents()), cursor)
    {
      if cursor.lastHash.None? {
        return Ok(cursor);
      }
      var header := Header(net, cursor.lastBlock);
      if header.Err? {
        return Err;
      }
      if cursor.lastHash == Some(header.value.hash) {
        return Ok(cursor);
      }
      var rewindTo := cursor.lastBlock;
      if rewindTo > cfg.confirmations {
        rewindTo := rewindTo - cfg.confirmations;
      } else {
        rewindTo := cfg.startBlock;
      }
      var served := AssertLogsStillServed(net, rewindTo, cursor.lastBlock);
      if !served {
        return Err;
      }
      var ok := repo.RollbackFrom(rewindTo, Reaches(net, RollbackCall));
      if !ok {
        return Err;
      }
      return Ok(cursor.(lastBlock := rewindTo - 1, lastHash := None));
    }

    /** Walks the range upward a window at a time and settles on the lowest one holding records. */
    method AssertLogsStillServed(net: Endpoint, from: nat, upTo: nat) returns (served: bool)
      ensures served == StillServed(cfg, net, repo.Contents(), from, upTo)
    {
      var start := from;
      while start <= upTo
        invariant StillServed(cfg, net, repo.Contents(), start, upTo)
               == StillServed(cfg, net, repo.Contents(), from, upTo)
        decreases upTo + 1 - start
      {
        var end := start + cfg.batchSize - 1;
        if end > upTo {
          end := upTo;
        }
        if !Reaches(net, CountCall(start, end)) {
          return false;
        }
        var held := repo.RecordsInRange(start, end);
        if held == 0 {
          start := start + cfg.batchSize;
          continue;
        }
        var logs := FilterLogs(net, Watched(cfg.contracts), start, end);
        return logs.Ok? && logs.value != [];
      }
      return true;
    }

    /** Looks through the first blocks of a deep range for one whose header says it had logs. */
    method AssertRangeServed(net: Endpoint, from: nat, upTo: nat, head: nat) returns (served: bool)
      ensures served == RangeServed(cfg, net, from, upTo, head)
    {
      if head < PROBE_DEPTH || from > head - PROBE_DEPTH {
        return true;
      }
      var b := from;
      while b <= upTo && b < from + PROBE_BLOCKS
        invariant ProbeServed(cfg, net, b, from, upTo) == ProbeServed(cfg, net, from, from, upTo)
        decreases upTo + 1 - b
      {
        var header := Header(net, b);
        if header.Err? {
          return false;
        }
        if header.value.bloom {
          var logs := BlockLogs(net, b);
          if logs.Err? {
            return false;
          }
          if logs.value != [] {
            return true;
          }
          var ours := FilterLogs(net, Watched(cfg.contracts), b, b);
          return ours.Ok? && ours.value != [];
        }
        b := b + 1;
      }
      return true;
    }

    /** Decodes what was returned, reading each block's time once. */
    method DecodeLogs(net: Endpoint, logs: seq<Located>) returns (result: Result<Batch>)
      ensures result == DecodeAll(cfg.contracts, net, logs)
    {
      var blockTimes: map<nat, int> := map[];
      var out := EMPTY_BATCH;
      var i := 0;
      assert logs[0..] == logs;
      PrefixedAgain(out, EMPTY_BATCH, DecodeAll(cfg.contracts, net, logs));
      while i < |logs|
        invariant 0 <= i <= |logs|
        invariant forall h :: h in blockTimes ==> Header(net, h).Ok? && Header(net, h).value.time == blockTimes[h]
        invariant DecodeAll(cfg.contracts, net, logs) == Prefixed(out, DecodeAll(cfg.contracts, net, logs[i..]))
      {
        var l := logs[i];
        assert logs[i..][1..] == logs[i + 1..];
        ghost var rest := DecodeAll(cfg.contracts, net, logs[i + 1..]);
        var spec := SpecFor(cfg.contracts, l.log.address);
        if l.log.removed || spec.None? {
          PrefixedAgain(out, EMPTY_BATCH, rest);
          i := i + 1;
          continue;
        }
        if l.height !in blockTimes {
          var header := Header(net, l.height);
          if header.Err? {
            return Err;
          }
          blockTimes := blockTimes[l.height := header.value.time];
        }
        var decoded := DecodeLog(spec.value, l, blockTimes[l.height]);
        if decoded.Err? {
          return Err;
        }
        PrefixedAgain(out, decoded.value, rest);
        out := Join(out, decoded.value);
        i := i + 1;
      }
      assert logs[i..] == [];
      PrefixedAgain(out, EMPTY_BATCH, Err);
      return Ok(out);
    }

    /** At boot: goes back to the start block when another decoder version indexed up to the cursor. */
    method ReplayForNewDecoders(net: Endpoint) returns (outcome: Outcome)
      modifies repo
      ensures (repo.Contents(), outcome) == IndexerSpec.ReplayForNewDecoders(cfg, net, old(repo.Contents()))
    {
      if !Reaches(net, LoadCall) {
        return Failed;
      }
      if repo.cursor.None? || repo.cursor.value.decoders == cfg.version {
        return Idle;
      }
      var cursor := repo.cursor.value;
      if cursor.lastBlock < cfg.startBlock || cfg.skipDecoderReplay {
        return Idle;
      }
      var served := AssertLogsStillServed(net, cfg.startBlock, cursor.lastBlock);
      if !served {
        return Failed;
      }
      var ok := repo.ReplayFrom(cfg.startBlock, Reaches(net, ReplayCall));
      outcome := if ok then Rewound else Failed;
    }
  }

  function Prefixed(out: Batch, rest: Result<Batch>): Result<Batch> {
    match rest case Err => Err case Ok(b) => Ok(Join(out, b))
  }

  lemma PrefixedAgain(out: Batch, decoded: Batch, rest: Result<Batch>)
    ensures Prefixed(out, Prefixed(decoded, rest)) == Prefixed(Join(out, decoded), rest)
    ensures Join(out, EMPTY_BATCH) == out
    ensures rest.Ok? ==> Join(EMPTY_BATCH, rest.value) == rest.value
  {
    if rest.Ok? {
      var b := rest.value;
      assert out.entries + (decoded.entries + b.entries) == (out.entries + decoded.entries) + b.entries;
      assert out.rounds + (decoded.rounds + b.rounds) == (out.rounds + decoded.rounds) + b.rounds;
    }
  }
}
