/** One poll cycle of the indexer as a function of the database and the endpoint. */
module IndexerSpec {
  import opened FixedPoint
  import opened Ledger
  import opened Chain
  import opened Decoder
  import opened LedgerStore

  datatype Settings = Settings(
    contracts: seq<ContractSpec>,
    startBlock: nat,
    confirmations: nat,
    batchSize: nat,
    skipDecoderReplay: bool,
    version: Version)

  /** What New lets through: a zero start block is refused and a zero batch size replaced. */
  type Config = s: Settings | s.startBlock > 0 && s.batchSize > 0 witness Settings([], 1, 0, 1, false, "")

  datatype Outcome = Idle | Indexed(fromBlock: nat, toBlock: nat) | Rewound | Failed

  /** One log, with the block time looked up only when it is going to be decoded. */
  function DecodeAt(contracts: seq<ContractSpec>, net: Endpoint, l: Located): Result<Batch> {
    if l.log.removed || SpecFor(contracts, l.log.address).None? then Ok(EMPTY_BATCH)
    else match Header(net, l.height)
      case Err => Err
      case Ok(header) => DecodeOne(contracts, l, header.time)
  }

  function DecodeAll(contracts: seq<ContractSpec>, net: Endpoint, logs: seq<Located>): Result<Batch> {
    if logs == [] then Ok(EMPTY_BATCH)
    else match DecodeAt(contracts, net, logs[0])
      case Err => Err
      case Ok(first) =>
        match DecodeAll(contracts, net, logs[1..])
        case Err => Err
        case Ok(rest) => Ok(Join(first, rest))
  }

  function WindowEnd(cfg: Config, start: nat, upTo: nat): nat
  {
    if start + cfg.batchSize - 1 > upTo then upTo else start + cfg.batchSize - 1
  }

  /** assertLogsStillServed: false refuses the re-read. */
  function StillServed(cfg: Config, net: Endpoint, db: Db, start: nat, upTo: nat): bool
    decreases upTo + 1 - start
  {
    if start > upTo then true
    else
      var end := WindowEnd(cfg, start, upTo);
      if !Reaches(net, CountCall(start, end)) then false
      else if RecordsIn(db, start, end) == 0 then StillServed(cfg, net, db, start + cfg.batchSize, upTo)
      else match FilterLogs(net, Watched(cfg.contracts), start, end)
        case Err => false
        case Ok(logs) => logs != []
  }

  const PROBE_DEPTH: nat := 256
  const PROBE_BLOCKS: nat := 8

  /** assertRangeServed: false refuses to walk the range. */
  function RangeServed(cfg: Config, net: Endpoint, from: nat, upTo: nat, head: nat): bool {
    (head < PROBE_DEPTH || from > head - PROBE_DEPTH) || ProbeServed(cfg, net, from, from, upTo)
  }

  function ProbeServed(cfg: Config, net: Endpoint, b: nat, from: nat, upTo: nat): bool
    decreases upTo + 1 - b
  {
    if b > upTo || b >= from + PROBE_BLOCKS then true
    else match Header(net, b)
      case Err => false
      case Ok(header) =>
        if !header.bloom then ProbeServed(cfg, net, b + 1, from, upTo)
        else match BlockLogs(net, b)
          case Err => false
          case Ok(logs) =>
            || logs != []
            || (var ours := FilterLogs(net, Watched(cfg.contracts), b, b); ours.Ok? && ours.value != [])
  }

  function RewindTarget(cfg: Config, lastBlock: nat): (target: nat)
    ensures target > 0
  {
    if lastBlock > cfg.confirmations then lastBlock - cfg.confirmations else cfg.startBlock
  }

  /** checkReorg: the database and the cursor in hand afterwards, or an error. */
  function CheckReorg(cfg: Config, net: Endpoint, db: Db, cursor: Cursor): (Db, Result<Cursor>)
  {
    if cursor.lastHash.None? then (db, Ok(cursor))
    else match Header(net, cursor.lastBlock)
      case Err => (db, Err)
      case Ok(header) =>
        if cursor.lastHash == Some(header.hash) then (db, Ok(cursor))
        else
          var target := RewindTarget(cfg, cursor.lastBlock);
          if !StillServed(cfg, net, db, target, cursor.lastBlock) then (db, Err)
          else if !Reaches(net, RollbackCall) then (db, Err)
          else (RolledBack(db, target), Ok(cursor.(lastBlock := target - 1, lastHash := None)))
  }

  function FreshCursor(cfg: Config): Cursor
  {
    Cursor(cfg.startBlock - 1, None, cfg.version)
  }

  /** The read of one bounded range and its commit. */
  function ReadRange(cfg: Config, net: Endpoint, db: Db, from: nat, upTo: nat, head: nat): (Db, Outcome) {
    if !RangeServed(cfg, net, from, upTo, head) then (db, Failed)
    else match FilterLogs(net, Watched(cfg.contracts), from, upTo)
      case Err => (db, Failed)
      case Ok(logs) =>
        match DecodeAll(cfg.contracts, net, logs)
        case Err => (db, Failed)
        case Ok(batch) =>
          match Header(net, upTo)
          case Err => (db, Failed)
          case Ok(tip) =>
            if !Reaches(net, AppendCall) then (db, Failed)
            else (Appended(db, batch, Cursor(upTo, Some(tip.hash), cfg.version)), Indexed(from, upTo))
  }

  function Step(cfg: Config, net: Endpoint, db: Db): (Db, Outcome)
  {
    if !Reaches(net, HeadCall) || net.chain == [] then (db, Failed)
    else
      var head := |net.chain| - 1;
      if head < cfg.confirmations then (db, Idle)
      else if !Reaches(net, LoadCall) then (db, Failed)
      else
        var safeHead := head - cfg.confirmations;
        var (db1, checked) := CheckReorg(cfg, net, db, db.cursor.GetOr(FreshCursor(cfg)));
        match checked
        case Err => (db1, Failed)
        case Ok(cursor) =>
          var from := cursor.lastBlock + 1;
          if from > safeHead then (db1, Idle)
          else ReadRange(cfg, net, db1, from, WindowEnd(cfg, from, safeHead), head)
  }

  function Checked(cfg: Config, net: Endpoint, db: Db): (Db, Result<Cursor>)
  {
    CheckReorg(cfg, net, db, db.cursor.GetOr(FreshCursor(cfg)))
  }

  /** A cycle either indexed the range right above the checked cursor, or left the database as the
      reorg check did, or did not get that far. */
  lemma StepShape(cfg: Config, net: Endpoint, db: Db)
    ensures
      var (db', outcome) := Step(cfg, net, db);
      var (db1, checked) := Checked(cfg, net, db);
      && (outcome.Indexed? ==>
            && checked.Ok?
            && outcome.fromBlock == checked.value.lastBlock + 1
            && outcome.fromBlock + cfg.confirmations <= |net.chain| - 1
            && outcome.toBlock == WindowEnd(cfg, outcome.fromBlock, |net.chain| - 1 - cfg.confirmations)
            && (db', outcome) == ReadRange(cfg, net, db1, outcome.fromBlock, outcome.toBlock, |net.chain| - 1))
      && (!outcome.Indexed? ==> db' == db || db' == db1)
  {
  }

  /** A cycle that indexed had every answer it needed: the head and the cursor, the probe, the logs, the header
      of the last block, and the commit; and before it rolled anything back, the header at the cursor, the guard
      and the rollback. Without a head, or with fewer blocks than are waited for, nothing is touched. A boot
      that rewound had read the cursor and moved it. A log that is not to be decoded needs no answer. */
  lemma ACycleNeedsItsAnswers(cfg: Config, net: Endpoint, db: Db, l: Located)
    ensures Step(cfg, net, db).1.Indexed? ==>
      var outcome := Step(cfg, net, db).1;
      && {HeadCall, LoadCall, LogsCall(outcome.fromBlock, outcome.toBlock), HeaderCall(outcome.toBlock), AppendCall}
         !! net.down
      && RangeServed(cfg, net, outcome.fromBlock, outcome.toBlock, |net.chain| - 1)
    ensures Checked(cfg, net, db).0 != db ==>
      && db.cursor.Some? && {HeaderCall(db.cursor.value.lastBlock), RollbackCall} !! net.down
      && StillServed(cfg, net, db, RewindTarget(cfg, db.cursor.value.lastBlock), db.cursor.value.lastBlock)
    ensures HeadCall in net.down || net.chain == [] ==> Step(cfg, net, db) == (db, Failed)
    ensures |net.chain| <= cfg.confirmations || LoadCall in net.down ==> Step(cfg, net, db).0 == db
    ensures ReplayForNewDecoders(cfg, net, db).1.Rewound? ==> {LoadCall, ReplayCall} !! net.down
    ensures l.log.removed || SpecFor(cfg.contracts, l.log.address).None? ==>
      DecodeAt(cfg.contracts, net, l) == Ok(EMPTY_BATCH)
  {
    hide RangeServed, StillServed, LogsBetween, DecodeAll;
  }

  /** When the check finds the cursor's block changed and goes on, it has gone back exactly one confirmation
      window, or to the start block when the chain is shorter: every row below is kept as it was, every row from
      there up is gone, and the cursor is left right under it with no hash. */
  lemma ARollbackIsOneWindow(cfg: Config, net: Endpoint, db: Db)
    requires db.cursor.Some? && db.cursor.value.lastHash.Some? && db.cursor.value.lastBlock < |net.chain|
    requires db.cursor.value.lastHash != Some(net.chain[db.cursor.value.lastBlock].hash)
    requires Checked(cfg, net, db).1.Ok?
    ensures
      var (db', checked) := Checked(cfg, net, db);
      var c := db.cursor.value;
      var target := if c.lastBlock > cfg.confirmations then c.lastBlock - cfg.confirmations else cfg.startBlock;
      && db'.cursor == Some(checked.value) && checked.value == Cursor(target - 1, None, c.decoders)
      && (forall k :: k in db'.entries <==> k in db.entries && db.entries[k].prov.blockNumber < target)
      && (forall k :: k in db'.rounds <==> k in db.rounds && db.rounds[k].prov.blockNumber < target)
      && (forall k :: k in db'.entries ==> db'.entries[k] == db.entries[k])
      && (forall k :: k in db'.rounds ==> db'.rounds[k] == db.rounds[k])
  {
    hide StillServed;
  }

  /** A block whose header claims logs returns some: of anybody's, or else of the watched contracts'. */
  predicate BlockServed(cfg: Config, net: Endpoint, b: nat) {
    && Header(net, b).Ok?
    && (net.chain[b].bloom ==>
          && BlockLogs(net, b).Ok?
          && (|| BlockLogs(net, b).value != []
              || FilterLogs(net, Watched(cfg.contracts), b, b) !in {Err, Ok([])}))
  }

  /** The probe gets to block k: it is one of the first eight, and those before it claim nothing. */
  predicate Probed(net: Endpoint, from: nat, upTo: nat, k: nat) {
    && from <= k <= upTo && k < from + 8
    && forall j :: from <= j < k ==> Header(net, j).Ok? && !net.chain[j].bloom
  }

  lemma {:induction false} ProbeLooksAhead(cfg: Config, net: Endpoint, b: nat, from: nat, upTo: nat)
    requires from <= b && forall j :: from <= j < b ==> Header(net, j).Ok? && !net.chain[j].bloom
    ensures ProbeServed(cfg, net, b, from, upTo) <==>
      forall k: nat :: b <= k && Probed(net, from, upTo, k) ==> BlockServed(cfg, net, k)
    decreases upTo + 1 - b
  {
    if b <= upTo && b < from + 8 {
      assert Probed(net, from, upTo, b);
      if Header(net, b).Ok? && !net.chain[b].bloom {
        ProbeLooksAhead(cfg, net, b + 1, from, upTo);
      } else {
        assert forall k: nat :: b < k ==> !Probed(net, from, upTo, k);
      }
    }
  }

  /** A range is walked exactly when it lies in the newest 256 blocks, or the first of its first eight blocks
      that claims logs is served, the headers up to it being read. */
  lemma DeepRangesAreProbed(cfg: Config, net: Endpoint, from: nat, upTo: nat, head: nat)
    ensures RangeServed(cfg, net, from, upTo, head) <==>
      || from + 256 > head || head < 256
      || forall k: nat :: Probed(net, from, upTo, k) ==> BlockServed(cfg, net, k)
  {
    ProbeLooksAhead(cfg, net, from, from, upTo);
  }

  /** replayForNewDecoders. */
  function ReplayForNewDecoders(cfg: Config, net: Endpoint, db: Db): (Db, Outcome)
  {
    if !Reaches(net, LoadCall) then (db, Failed)
    else if db.cursor.None? || db.cursor.value.decoders == cfg.version then (db, Idle)
    else if db.cursor.value.lastBlock < cfg.startBlock then (db, Idle)
    else if cfg.skipDecoderReplay then (db, Idle)
    else if !StillServed(cfg, net, db, cfg.startBlock, db.cursor.value.lastBlock) then (db, Failed)
    else if !Reaches(net, ReplayCall) then (db, Failed)
    else (Replayed(db, cfg.startBlock), Rewound)
  }
}
