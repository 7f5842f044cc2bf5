/** What a stored record says of its log, read from the record's side: which log puts a line in which book,
    and that a round's row gives its log back (indexer/events.go, rounds.go, event_oracle.go). */
module DecoderLaws {
  import opened FixedPoint
  import opened Decimal
  import opened Ledger
  import opened Chain
  import opened Decoder
  import opened Projection
  import opened RoundHistory

  // ---- Entries, book by book ---------------------------------------------------------------------------

  /** One side of a share movement: out of one account, into the other. */
  predicate IsSideOf(e: Event, account: Address, delta: int, other: Address) {
    && e.TransferLog? && account != ZERO_ADDRESS
    && ((account == e.from && other == e.to && delta + e.value == 0)
        || (account == e.to && other == e.from && delta == e.value))
  }

  /** Which of the vault's logs a line stands for. */
  predicate VaultSays(e: Event, line: EntryBody) {
    var account, delta, other := line.account, line.delta, line.counterparty;
    match line.book
    case Shares => line.kind.Balance? && IsSideOf(e, account, delta, other)
    case ShareTransferFlow => line.kind.Flow? && IsSideOf(e, account, delta, other) && other != ZERO_ADDRESS
    case Deposits => line.kind.Flow? && delta >= 0 && e == DepositedLog(account, delta) && other == ""
    case Withdrawals => line.kind.Flow? && delta >= 0 && e == VaultWithdrawnLog(account, delta) && other == ""
    case YieldFlow => line.kind.Flow? && delta >= 0 && e == YieldSettledLog(account, delta) && other == ""
    case LienSettled => line.kind.Flow? && delta >= 0 && e == LienSettledAtExitLog(account, delta) && other == ""
    case BorrowFlow => line.kind.Flow? && delta >= 0 && e == VaultBorrowedLog(account, delta) && other == ""
    case RepayFlow => line.kind.Flow? && delta >= 0 && e == VaultRepaidLog(account, delta, other)
    case Liquidations => line.kind.Flow? && delta >= 0 && e == LiquidatedLog(account, delta, other)
    case _ => false
  }

  /** And which of the pool's. */
  predicate PoolSays(e: Event, line: EntryBody) {
    var account, delta, other := line.account, line.delta, line.counterparty;
    match line.book
    case SupplyScaled =>
      && line.kind.Balance? && other == ""
      && ((e.SuppliedLog? && e.user == account && delta == e.scaledAmount)
          || (e.PoolWithdrawnLog? && e.user == account && delta + e.scaledAmount == 0))
    case SupplyFlow => line.kind.Flow? && other == "" && e.SuppliedLog? && e.user == account && delta == e.amount
    case PoolWithdrawFlow =>
      line.kind.Flow? && other == "" && e.PoolWithdrawnLog? && e.user == account && delta == e.amount
    case DebtScaled =>
      && line.kind.Balance?
      && ((delta >= 0 && e == PoolBorrowedLog(account, delta) && other == "")
          || (delta <= 0 && e == PoolRepaidLog(account, -delta, other)))
    case _ => false
  }

  predicate Says(role: Role, e: Event, line: EntryBody) {
    match role
    case Vault => VaultSays(e, line)
    case Pool => PoolSays(e, line)
    case _ => false
  }

  lemma TransferLines(from: Address, to: Address, value: nat, line: EntryBody)
    ensures line in TransferEntries(from, to, value) <==> VaultSays(TransferLog(from, to, value), line)
  {
    var debit := if from != ZERO_ADDRESS then [EntryBody(Balance, from, Shares, Neg(value), to)] else [];
    var credit := if to != ZERO_ADDRESS then [EntryBody(Balance, to, Shares, value, from)] else [];
    var flows := if from != ZERO_ADDRESS && to != ZERO_ADDRESS
      then [EntryBody(Flow, from, ShareTransferFlow, Neg(value), to),
            EntryBody(Flow, to, ShareTransferFlow, value, from)]
      else [];
    assert TransferEntries(from, to, value) == debit + credit + flows;
    assert line in TransferEntries(from, to, value) <==> line in debit || line in credit || line in flows;
  }

  /** A share movement of nothing, from an account to itself. */
  predicate EmptyMove(e: Event) {
    e.TransferLog? && e.from == e.to && e.value == 0
  }

  predicate NoneTwice(lines: seq<EntryBody>) {
    forall i, j :: 0 <= i < j < |lines| ==> lines[i] != lines[j]
  }

  lemma VaultLines(e: Event, line: EntryBody)
    ensures DecodeVault(e).Ok? ==> (line in DecodeVault(e).value.entries <==> VaultSays(e, line))
  {
    if e.TransferLog? { TransferLines(e.from, e.to, e.value, line); }
  }

  lemma PoolLines(e: Event, line: EntryBody)
    ensures DecodePool(e).Ok? ==> (line in DecodePool(e).value.entries <==> PoolSays(e, line))
  {}

  lemma TransferNoneTwice(from: Address, to: Address, value: nat)
    requires from != to || value != 0
    ensures NoneTwice(TransferEntries(from, to, value))
  {}

  lemma LinesNoneTwice(role: Role, e: Event)
    requires (role.Vault? || role.Pool?) && DecoderOf(role)(e).Ok? && !EmptyMove(e)
    ensures NoneTwice(DecoderOf(role)(e).value.entries)
  {
    if role.Vault? && e.TransferLog? {
      hide TransferEntries;
      TransferNoneTwice(e.from, e.to, e.value);
    }
  }

  /** A log of a deployed contract puts a line in a book exactly when it is that book's log for that account,
      with the log's amount, signed as the book is, and the other party; and puts none twice. Only an
      unreadable log is refused. */
  lemma LinesSayTheirLog(role: Role, e: Event, line: EntryBody)
    requires role.Vault? || role.Pool?
    ensures DecoderOf(role)(e).Err? <==> e.MalformedLog?
    ensures DecoderOf(role)(e).Ok? ==> (line in DecoderOf(role)(e).value.entries <==> Says(role, e, line))
    ensures DecoderOf(role)(e).Ok? ==> DecoderOf(role)(e).value.rounds == []
    ensures DecoderOf(role)(e).Ok? && !EmptyMove(e) ==> NoneTwice(DecoderOf(role)(e).value.entries)
  {
    hide VaultSays, PoolSays, TransferEntries, NoneTwice;
    VaultLines(e, line);
    PoolLines(e, line);
    if DecoderOf(role)(e).Ok? && !EmptyMove(e) { LinesNoneTwice(role, e); }
  }

  /** The name a book's lines are stored under, of a log. */
  predicate Titled(e: Event, name: EventName, book: Book) {
    match book
    case Shares => name.Transfer?
    case ShareTransferFlow => name.Transfer?
    case Deposits => name.Deposited?
    case Withdrawals => name.Withdrawn?
    case YieldFlow => name.YieldSettled?
    case LienSettled => name.LienSettledAtExit?
    case BorrowFlow => name.Borrowed?
    case RepayFlow => name.Repaid?
    case Liquidations => name.Liquidated?
    case SupplyScaled => if e.SuppliedLog? then name.Supplied? else name.Withdrawn?
    case SupplyFlow => name.Supplied?
    case PoolWithdrawFlow => name.Withdrawn?
    case DebtScaled => if e.PoolBorrowedLog? then name.Borrowed? else name.Repaid?
  }

  /** Which contract, block and log a record says it came from. */
  predicate ComesFrom(p: Provenance, c: ContractSpec, l: Located, time: int) {
    && p.contract == c.name && p.contractAddress == c.address == l.log.address
    && p.blockNumber == l.height && p.blockHash == l.blockHash && p.blockTime == time
    && p.txHash == l.log.txHash && p.logIndex == l.log.index
  }

  /** Whatever is stored of a log names the contract that emitted it, its block and that block's time; entries
      are stored under their book's event, and round rows under the market of the contract. Of a removed log,
      or one of a contract not watched, nothing is stored. */
  lemma RecordsNameTheirLog(contracts: seq<ContractSpec>, l: Located, time: int)
    requires Deployed(contracts) && DecodeOne(contracts, l, time).Ok?
    ensures
      var b, c := DecodeOne(contracts, l, time).value, SpecFor(contracts, l.log.address);
      && (l.log.removed || c.None? ==> b == EMPTY_BATCH)
      && (c.Some? ==> forall i :: 0 <= i < |b.entries| ==> ComesFrom(b.entries[i].prov, c.value, l, time))
      && (c.Some? ==> forall i :: 0 <= i < |b.rounds| ==>
            ComesFrom(b.rounds[i].prov, c.value, l, time) && b.rounds[i].body.market == c.value.market)
      && (forall i :: 0 <= i < |b.entries| ==>
            Titled(l.log.event, b.entries[i].prov.eventName, b.entries[i].body.book))
  {
    SpecForWatched(contracts, l.log.address);
    if !l.log.removed && SpecFor(contracts, l.log.address).Some? {
      var c := SpecFor(contracts, l.log.address).value;
      var role: Role :| c.decode == DecoderOf(role);
      var b, e := DecodeOne(contracts, l, time).value, l.log.event;
      forall i | 0 <= i < |b.entries| ensures Titled(e, b.entries[i].prov.eventName, b.entries[i].body.book) {
        LineIsTitled(role, e, b.entries[i].body);
      }
    }
  }

  lemma LineIsTitled(role: Role, e: Event, line: EntryBody)
    requires DecoderOf(role)(e).Ok? && line in DecoderOf(role)(e).value.entries
    ensures Titled(e, NameOf(e), line.book)
  {
    match role
    case Vault => LinesSayTheirLog(role, e, line);
    case Pool => LinesSayTheirLog(role, e, line);
    case Market =>
    case Oracle(_) =>
  }

  // ---- Round rows, read back ---------------------------------------------------------------------------

  function Number(data: map<Field, string>, key: Field): nat {
    var n := BigField(data, key);
    if n.Some? && n.value >= 0 then n.value else 0
  }

  function Place(words: seq<string>, word: string): nat {
    if words == [] || words[0] == word then 0 else 1 + Place(words[1..], word)
  }

  /** A market's log, from the name its row is stored under and the row. */
  function MarketLog(name: EventName, row: RoundBody): Event {
    var d := row.data;
    match name
    case RoundOpened => RoundOpenedLog(row.roundID, Number(d, OpenTime), Number(d, LockTime), Number(d, CloseTime))
    case RoundStrikeSet => RoundStrikeSetLog(row.roundID, Number(d, StrikePrice))
    case PositionTaken =>
      PositionTakenLog(row.roundID, row.account, if row.side.Up? then 0 else 1, row.amount.GetOr(0), Text(d, Funder))
    case RoundLocked => RoundLockedLog(row.roundID, Number(d, LockPrice), Number(d, OracleRoundId))
    case RoundResolved =>
      RoundResolvedLog(row.roundID, Number(d, ClosePrice), Place(SIDES, Text(d, Winner)), Number(d, RakeTaken))
    case RoundVoided => RoundVoidedLog(row.roundID, Text(d, Reason))
    case Claimed => ClaimedLog(row.roundID, row.account, row.amount.GetOr(0), Text(d, Recipient))
    case _ => UntrackedLog
  }

  /** A log of the contract's life a market's row can be made of: its id and its side fit. */
  predicate MarketLogFits(e: Event) {
    match e
    case RoundOpenedLog(id, _, _, _) => id < TWO_TO_64
    case RoundStrikeSetLog(id, _) => id < TWO_TO_64
    case PositionTakenLog(id, _, side, _, _) => id < TWO_TO_64 && side < 2
    case RoundLockedLog(id, _, _) => id < TWO_TO_64
    case RoundResolvedLog(id, _, winner, _) => id < TWO_TO_64 && winner < 2
    case RoundVoidedLog(id, _) => id < TWO_TO_64
    case ClaimedLog(id, _, _, _) => id < TWO_TO_64
    case _ => false
  }

  predicate MarketLogKept(e: Event) {
    || e.RoundOpenedLog? || e.RoundStrikeSetLog? || e.PositionTakenLog? || e.RoundLockedLog?
    || e.RoundResolvedLog? || e.RoundVoidedLog? || e.ClaimedLog?
  }

  lemma NumberReadsBack(data: map<Field, string>, key: Field, n: nat)
    requires key in data && data[key] == Format(n)
    ensures Number(data, key) == n
  {
    FieldReadsBack(data, key, n);
  }

  /** No log of a market's rounds is dropped or loses anything: each becomes exactly one row that reads back as
      the log, unless its round id or its side does not fit, which stops the indexer. */
  lemma MarketRowsReadBack(e: Event)
    ensures DecodeRound(e).Err? <==> e.MalformedLog? || (MarketLogKept(e) && !MarketLogFits(e))
    ensures DecodeRound(e).Ok? ==> DecodeRound(e).value.entries == []
    ensures DecodeRound(e).Ok? ==> |DecodeRound(e).value.rounds| == if MarketLogKept(e) then 1 else 0
    ensures DecodeRound(e).Ok? && MarketLogKept(e) ==> MarketLog(NameOf(e), DecodeRound(e).value.rounds[0]) == e
  {
    hide Format, Number;
    if DecodeRound(e).Ok? && MarketLogKept(e) {
      var d := DecodeRound(e).value.rounds[0].data;
      match e
      case RoundOpenedLog(_, open, lock, close) =>
        NumberReadsBack(d, OpenTime, open);
        NumberReadsBack(d, LockTime, lock);
        NumberReadsBack(d, CloseTime, close);
      case RoundStrikeSetLog(_, strike) => NumberReadsBack(d, StrikePrice, strike);
      case RoundLockedLog(_, price, round) =>
        NumberReadsBack(d, LockPrice, price);
        NumberReadsBack(d, OracleRoundId, round);
      case RoundResolvedLog(_, price, winner, rake) =>
        NumberReadsBack(d, ClosePrice, price);
        NumberReadsBack(d, RakeTaken, rake);
      case _ =>
    }
  }

  /** An oracle's log, likewise; which market and round it answers is configured. */
  function OracleLog(o: EventOracle, name: EventName, row: RoundBody): Event {
    var d := row.data;
    match name
    case MarketSet => if Text(d, OracleField) == o.oracle then MarketSetLog(o.market, row.roundID) else UntrackedLog
    case Proposed =>
      ProposedLog(Place(OUTCOMES, Text(d, OutcomeField)), row.account, Text(d, EvidenceURI), Text(d, EvidenceDigest),
                  Number(d, ProposerStake), Number(d, ChallengeClosesAt))
    case Challenged => ChallengedLog(row.account, Number(d, RulingDueAt))
    case Ruled => RuledLog(Place(OUTCOMES, Text(d, OutcomeField)), row.account, Text(d, Paid), Text(d, ReasonURI))
    case Finalised => FinalisedLog(Place(OUTCOMES, Text(d, OutcomeField)))
    case Abandoned => AbandonedLog(Number(d, At))
    case _ => UntrackedLog
  }

  predicate OracleLogKept(e: Event) {
    e.MarketSetLog? || e.ProposedLog? || e.ChallengedLog? || e.RuledLog? || e.FinalisedLog? || e.AbandonedLog?
  }

  predicate OracleLogFits(o: EventOracle, e: Event) {
    && o.roundID < TWO_TO_64
    && match e
       case MarketSetLog(market, id) => market == o.market && id == o.roundID
       case ProposedLog(outcome, _, _, _, _, _) => outcome < 3
       case RuledLog(outcome, _, _, _) => outcome < 3
       case FinalisedLog(outcome) => outcome < 3
       case _ => true
  }

  lemma PlacesOfOutcomes()
    ensures Place(OUTCOMES, "none") == 0 && Place(OUTCOMES, "yes") == 1 && Place(OUTCOMES, "no") == 2
  {
    assert OUTCOMES[1..][0] == "yes" && OUTCOMES[1..][1..][0] == "no" && OUTCOMES[0] == "none";
  }

  lemma OracleRowsAreKept(o: EventOracle, e: Event)
    ensures DecodeEventOracle(o, e).Err? <==> e.MalformedLog? || (OracleLogKept(e) && !OracleLogFits(o, e))
    ensures DecodeEventOracle(o, e).Ok? ==> DecodeEventOracle(o, e).value.entries == []
    ensures DecodeEventOracle(o, e).Ok? ==>
      |DecodeEventOracle(o, e).value.rounds| == if OracleLogKept(e) then 1 else 0
  {
    hide Format;
  }

  lemma AnswersReadBack(o: EventOracle, e: Event)
    requires DecodeEventOracle(o, e).Ok? && |DecodeEventOracle(o, e).value.rounds| == 1
    requires e.ProposedLog? || e.RuledLog? || e.FinalisedLog?
    ensures OracleLog(o, NameOf(e), DecodeEventOracle(o, e).value.rounds[0]) == e
  {
    hide Format, Number, Place;
    PlacesOfOutcomes();
    var d := DecodeEventOracle(o, e).value.rounds[0].data;
    if e.ProposedLog? {
      NumberReadsBack(d, ProposerStake, e.proposerStake);
      NumberReadsBack(d, ChallengeClosesAt, e.challengeClosesAt);
    }
  }

  lemma StepsReadBack(o: EventOracle, e: Event)
    requires DecodeEventOracle(o, e).Ok? && |DecodeEventOracle(o, e).value.rounds| == 1
    requires e.MarketSetLog? || e.ChallengedLog? || e.AbandonedLog?
    ensures OracleLog(o, NameOf(e), DecodeEventOracle(o, e).value.rounds[0]) == e
  {
    hide Format, Number, Place;
    var d := DecodeEventOracle(o, e).value.rounds[0].data;
    if e.ChallengedLog? { NumberReadsBack(d, RulingDueAt, e.rulingDueAt); }
    if e.AbandonedLog? { NumberReadsBack(d, At, e.at); }
  }

  /** Nor is a log of an event oracle, unless it is about another market or round, or names no outcome. */
  lemma OracleRowsReadBack(o: EventOracle, e: Event)
    ensures DecodeEventOracle(o, e).Err? <==> e.MalformedLog? || (OracleLogKept(e) && !OracleLogFits(o, e))
    ensures DecodeEventOracle(o, e).Ok? ==> DecodeEventOracle(o, e).value.entries == []
    ensures DecodeEventOracle(o, e).Ok? ==>
      |DecodeEventOracle(o, e).value.rounds| == if OracleLogKept(e) then 1 else 0
    ensures DecodeEventOracle(o, e).Ok? && OracleLogKept(e) ==>
      OracleLog(o, NameOf(e), DecodeEventOracle(o, e).value.rounds[0]) == e
  {
    OracleRowsAreKept(o, e);
    hide DecodeEventOracle, OracleLog, OracleLogFits;
    if DecodeEventOracle(o, e).Ok? {
      if e.ProposedLog? || e.RuledLog? || e.FinalisedLog? {
        AnswersReadBack(o, e);
      } else if OracleLogKept(e) {
        StepsReadBack(o, e);
      }
    }
  }
}
