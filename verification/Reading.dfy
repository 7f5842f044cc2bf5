/** What a truthful endpoint's logs decode to: exactly the rows of the range read. */
module Reading {
  import opened FixedPoint
  import opened Ledger
  import opened Chain
  import opened Decoder
  import opened LedgerStore
  import opened IndexerSpec
  import opened Rows

  /** No log query is answered with nothing that the chain does not say. Calls may still fail. */
  predicate Truthful(net: Endpoint) {
    net.silent == {}
  }

  lemma {:induction false} DecodeAllAppend(contracts: seq<ContractSpec>, net: Endpoint, a: seq<Located>,
                                           b: seq<Located>)
    requires DecodeAll(contracts, net, a + b).Ok?
    ensures DecodeAll(contracts, net, a).Ok? && DecodeAll(contracts, net, b).Ok?
    ensures DecodeAll(contracts, net, a + b).value
         == Join(DecodeAll(contracts, net, a).value, DecodeAll(contracts, net, b).value)
  {
    if a == [] {
      assert a + b == b;
    } else {
      assert (a + b)[1..] == a[1..] + b;
      DecodeAllAppend(contracts, net, a[1..], b);
      var first := DecodeAt(contracts, net, a[0]).value;
      var x, y := DecodeAll(contracts, net, a[1..]).value, DecodeAll(contracts, net, b).value;
      assert first.entries + (x.entries + y.entries) == (first.entries + x.entries) + y.entries;
      assert first.rounds + (x.rounds + y.rounds) == (first.rounds + x.rounds) + y.rounds;
    }
  }

  lemma UnwatchedLogsDecodeToNothing(contracts: seq<ContractSpec>, h: nat, b: Block, l: Log)
    ensures l.address !in Watched(contracts) || l.removed ==> Decoded(contracts, h, b, l) == EMPTY_BATCH
  {
    SpecForWatched(contracts, l.address);
  }

  lemma {:induction false} BlockReads(contracts: seq<ContractSpec>, net: Endpoint, h: nat, logs: seq<Log>)
    requires h < |net.chain|
    requires DecodeAll(contracts, net, LogsOf(Watched(contracts), h, net.chain[h].hash, logs)).Ok?
    ensures
      var batch := DecodeAll(contracts, net, LogsOf(Watched(contracts), h, net.chain[h].hash, logs)).value;
      && batch.entries == BlockRows(EntrySource(contracts), h, net.chain[h], logs)
      && batch.rounds == BlockRows(RoundSource(contracts), h, net.chain[h], logs)
  {
    if logs != [] {
      var b, l := net.chain[h], logs[0];
      var rest := LogsOf(Watched(contracts), h, b.hash, logs[1..]);
      UnwatchedLogsDecodeToNothing(contracts, h, b, l);
      assert EntrySource(contracts)(h, b, l) == Decoded(contracts, h, b, l).entries;
      assert RoundSource(contracts)(h, b, l) == Decoded(contracts, h, b, l).rounds;
      if l.address in Watched(contracts) {
        assert ([Located(h, b.hash, l)] + rest)[1..] == rest;
        SpecForWatched(contracts, l.address);
      } else {
        assert LogsOf(Watched(contracts), h, b.hash, logs) == rest;
      }
      BlockReads(contracts, net, h, logs[1..]);
    }
  }

  lemma {:induction false} SpanReads(contracts: seq<ContractSpec>, net: Endpoint, lo: nat, hi: nat)
    requires hi < |net.chain|
    requires DecodeAll(contracts, net, LogsBetween(Watched(contracts), net.chain, lo, hi)).Ok?
    ensures
      var batch := DecodeAll(contracts, net, LogsBetween(Watched(contracts), net.chain, lo, hi)).value;
      && batch.entries == SpanRows(EntrySource(contracts), net.chain, lo, hi + 1)
      && batch.rounds == SpanRows(RoundSource(contracts), net.chain, lo, hi + 1)
    decreases hi + 1 - lo
  {
    if lo <= hi {
      var logs := LogsOf(Watched(contracts), lo, net.chain[lo].hash, net.chain[lo].logs);
      DecodeAllAppend(contracts, net, logs, LogsBetween(Watched(contracts), net.chain, lo + 1, hi));
      BlockReads(contracts, net, lo, net.chain[lo].logs);
      SpanReads(contracts, net, lo + 1, hi);
    }
  }

  /** A committed range of a truthful endpoint wrote exactly the range's rows and stopped on its
      last block. */
  lemma CommittedRange(cfg: Config, net: Endpoint, db: Db, from: nat, upTo: nat, head: nat)
    requires Truthful(net)
    requires ReadRange(cfg, net, db, from, upTo, head).1.Indexed?
    ensures upTo < |net.chain|
    ensures ReadRange(cfg, net, db, from, upTo, head) ==
      (Appended(db, Batch(SpanRows(EntrySource(cfg.contracts), net.chain, from, upTo + 1),
                          SpanRows(RoundSource(cfg.contracts), net.chain, from, upTo + 1)),
                Cursor(upTo, Some(net.chain[upTo].hash), cfg.version)),
       Indexed(from, upTo))
  {
    SpanReads(cfg.contracts, net, from, upTo);
  }
}
