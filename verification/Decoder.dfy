/** Turning one log into ledger records (indexer/events.go, rounds.go, event_oracle.go). */
module Decoder {
  import opened FixedPoint
  import opened Decimal
  import opened Ledger
  import opened Chain

  /** What a decoder produces before provenance is stamped on it. */
  datatype Drafts = Drafts(entries: seq<EntryBody>, rounds: seq<RoundBody>)

  const NOTHING: Result<Drafts> := Ok(Drafts([], []))

  type LogDecoder = Event -> Result<Drafts>

  function EntriesOnly(entries: seq<EntryBody>): Result<Drafts> {
    Ok(Drafts(entries, []))
  }

  function FlowEntry(account: Address, book: Book, delta: int): EntryBody {
    EntryBody(Flow, account, book, delta, "")
  }

  function Neg(v: int): int {
    -v
  }

  /** A mint or burn touches one balance, a move two, and only a move is recorded again as a flow.
      Balance entries come first, so that each keeps the record index it was stored under. */
  function TransferEntries(from: Address, to: Address, value: nat): seq<EntryBody> {
    (if from != ZERO_ADDRESS then [EntryBody(Balance, from, Shares, Neg(value), to)] else [])
    + (if to != ZERO_ADDRESS then [EntryBody(Balance, to, Shares, value, from)] else [])
    + (if from != ZERO_ADDRESS && to != ZERO_ADDRESS
       then [EntryBody(Flow, from, ShareTransferFlow, Neg(value), to),
             EntryBody(Flow, to, ShareTransferFlow, value, from)]
       else [])
  }

  function DecodeVault(e: Event): Result<Drafts> {
    match e
    case TransferLog(from, to, value) => EntriesOnly(TransferEntries(from, to, value))
    case DepositedLog(user, assets) => EntriesOnly([FlowEntry(user, Deposits, assets)])
    case VaultWithdrawnLog(user, assets) => EntriesOnly([FlowEntry(user, Withdrawals, assets)])
    case YieldSettledLog(user, amount) => EntriesOnly([FlowEntry(user, YieldFlow, amount)])
    case LienSettledAtExitLog(user, amount) => EntriesOnly([FlowEntry(user, LienSettled, amount)])
    case VaultBorrowedLog(user, amount) => EntriesOnly([FlowEntry(user, BorrowFlow, amount)])
    case VaultRepaidLog(user, amount, payer) => EntriesOnly([EntryBody(Flow, user, RepayFlow, amount, payer)])
    case LiquidatedLog(user, repaid, liquidator) =>
      EntriesOnly([EntryBody(Flow, user, Liquidations, repaid, liquidator)])
    case MalformedLog => Err
    case _ => NOTHING
  }

  function DecodePool(e: Event): Result<Drafts> {
    match e
    case SuppliedLog(user, amount, scaled) =>
      EntriesOnly([EntryBody(Balance, user, SupplyScaled, scaled, ""), FlowEntry(user, SupplyFlow, amount)])
    case PoolWithdrawnLog(user, amount, scaled) =>
      EntriesOnly([EntryBody(Balance, user, SupplyScaled, Neg(scaled), ""), FlowEntry(user, PoolWithdrawFlow, amount)])
    case PoolBorrowedLog(user, scaled) => EntriesOnly([EntryBody(Balance, user, DebtScaled, scaled, "")])
    case PoolRepaidLog(user, scaled, payer) => EntriesOnly([EntryBody(Balance, user, DebtScaled, Neg(scaled), payer)])
    case MalformedLog => Err
    case _ => NOTHING
  }

  const TWO_TO_64: nat := 0x1_0000_0000_0000_0000

  /** One round record, refused when its id does not fit the column. */
  function OneRound(roundId: nat, account: Address, side: Side, amount: Option<nat>,
                    data: map<Field, string>): Result<Drafts> {
    if roundId >= TWO_TO_64 then Err
    else Ok(Drafts([], [RoundBody("", roundId, account, side, amount, data)]))
  }

  function RoundLevel(roundId: nat, data: map<Field, string>): Result<Drafts> {
    OneRound(roundId, "", NoSide, None, data)
  }

  function SideFromEnum(v: nat): Side {
    if v == 0 then Up else if v == 1 then Down else NoSide
  }

  function SideName(s: Side): string {
    match s case Up => "up" case Down => "down" case NoSide => ""
  }

  function DecodeRound(e: Event): Result<Drafts> {
    match e
    case RoundOpenedLog(id, open, lock, close) =>
      RoundLevel(id, map[OpenTime := Format(open), LockTime := Format(lock), CloseTime := Format(close)])
    case RoundStrikeSetLog(id, strike) => RoundLevel(id, map[StrikePrice := Format(strike)])
    case PositionTakenLog(id, user, side, amount, funder) =>
      if SideFromEnum(side).NoSide? then Err
      else OneRound(id, user, SideFromEnum(side), Some(amount), map[Funder := funder])
    case RoundLockedLog(id, price, oracleRound) =>
      RoundLevel(id, map[LockPrice := Format(price), OracleRoundId := Format(oracleRound)])
    case RoundResolvedLog(id, price, winner, rake) =>
      if SideFromEnum(winner).NoSide? then Err
      else RoundLevel(id, map[ClosePrice := Format(price), Winner := SideName(SideFromEnum(winner)),
                              RakeTaken := Format(rake)])
    case RoundVoidedLog(id, reason) => RoundLevel(id, map[Reason := reason])
    case ClaimedLog(id, user, amount, recipient) =>
      OneRound(id, user, NoSide, Some(amount), map[Recipient := recipient])
    case MalformedLog => Err
    case _ => NOTHING
  }

  /** A configured event oracle: the one round of one market it answers. */
  datatype EventOracle = EventOracle(oracle: Address, market: Address, roundID: nat)

  function OutcomeName(v: nat): Option<string> {
    if v == 0 then Some("none") else if v == 1 then Some("yes") else if v == 2 then Some("no") else None
  }

  /** A question attached to another market or round than the configured one is an error. */
  function DecodeEventOracle(o: EventOracle, e: Event): Result<Drafts> {
    match e
    case MarketSetLog(market, roundId) =>
      if market == o.market && roundId == o.roundID then RoundLevel(o.roundID, map[OracleField := o.oracle]) else Err
    case ProposedLog(outcome, proposer, uri, digest, stake, closes) =>
      if OutcomeName(outcome).None? then Err
      else OneRound(o.roundID, proposer, NoSide, None,
        map[OutcomeField := OutcomeName(outcome).value, EvidenceURI := uri, EvidenceDigest := digest,
            ProposerStake := Format(stake), ChallengeClosesAt := Format(closes)])
    case ChallengedLog(challenger, due) =>
      OneRound(o.roundID, challenger, NoSide, None, map[RulingDueAt := Format(due)])
    case RuledLog(outcome, arbiter, paid, uri) =>
      if OutcomeName(outcome).None? then Err
      else OneRound(o.roundID, arbiter, NoSide, None,
        map[OutcomeField := OutcomeName(outcome).value, Paid := paid, ReasonURI := uri])
    case FinalisedLog(outcome) =>
      if OutcomeName(outcome).None? then Err
      else RoundLevel(o.roundID, map[OutcomeField := OutcomeName(outcome).value])
    case AbandonedLog(at) => RoundLevel(o.roundID, map[At := Format(at)])
    case MalformedLog => Err
    case _ => NOTHING
  }

  function NameOf(e: Event): EventName {
    match e
    case TransferLog(_, _, _) => Transfer
    case DepositedLog(_, _) => Deposited
    case VaultWithdrawnLog(_, _) => Withdrawn
    case YieldSettledLog(_, _) => YieldSettled
    case LienSettledAtExitLog(_, _) => LienSettledAtExit
    case VaultBorrowedLog(_, _) => Borrowed
    case VaultRepaidLog(_, _, _) => Repaid
    case LiquidatedLog(_, _, _) => Liquidated
    case SuppliedLog(_, _, _) => Supplied
    case PoolWithdrawnLog(_, _, _) => Withdrawn
    case PoolBorrowedLog(_, _) => Borrowed
    case PoolRepaidLog(_, _, _) => Repaid
    case RoundOpenedLog(_, _, _, _) => RoundOpened
    case RoundStrikeSetLog(_, _) => RoundStrikeSet
    case PositionTakenLog(_, _, _, _, _) => PositionTaken
    case RoundLockedLog(_, _, _) => RoundLocked
    case RoundResolvedLog(_, _, _, _) => RoundResolved
    case RoundVoidedLog(_, _) => RoundVoided
    case ClaimedLog(_, _, _, _) => Claimed
    case MarketSetLog(_, _) => MarketSet
    case ProposedLog(_, _, _, _, _, _) => Proposed
    case ChallengedLog(_, _) => Challenged
    case RuledLog(_, _, _, _) => Ruled
    case FinalisedLog(_) => Finalised
    case AbandonedLog(_) => Abandoned
    case _ => Unnamed
  }

  /** A deployed address bound to its decoder. `market` is what its round events are filed under. */
  datatype ContractSpec = ContractSpec(name: string, address: Address, decode: LogDecoder, market: Address)

  function SpecFor(contracts: seq<ContractSpec>, address: Address): Option<ContractSpec> {
    if contracts == [] then None
    else if contracts[0].address == address then Some(contracts[0])
    else SpecFor(contracts[1..], address)
  }

  function Stamp<T>(base: Provenance, bodies: seq<T>): seq<Record<T>> {
    seq(|bodies|, i requires 0 <= i < |bodies| => Record(base.(recordIndex := i), bodies[i]))
  }

  function InMarket(market: Address, bodies: seq<RoundBody>): seq<RoundBody> {
    seq(|bodies|, i requires 0 <= i < |bodies| => bodies[i].(market := market))
  }

  function LogProvenance(c: ContractSpec, l: Located, blockTime: int): Provenance {
    Provenance(l.height, l.blockHash, blockTime, l.log.txHash, l.log.index, 0, c.name, l.log.address,
               NameOf(l.log.event))
  }

  /** Record indices restart at zero for each kind: the two tables have their own keys. */
  function DecodeLog(c: ContractSpec, l: Located, blockTime: int): Result<Batch> {
    match c.decode(l.log.event)
    case Err => Err
    case Ok(drafts) =>
      var base := LogProvenance(c, l, blockTime);
      Ok(Batch(Stamp(base, drafts.entries), Stamp(base, InMarket(c.market, drafts.rounds))))
  }

  /** The whole treatment of one returned log: skipped, decoded, or an error. */
  function DecodeOne(contracts: seq<ContractSpec>, l: Located, blockTime: int): Result<Batch> {
    if l.log.removed then Ok(EMPTY_BATCH)
    else match SpecFor(contracts, l.log.address)
      case None => Ok(EMPTY_BATCH)
      case Some(c) => DecodeLog(c, l, blockTime)
  }

  function Watched(contracts: seq<ContractSpec>): set<Address> {
    set i | 0 <= i < |contracts| :: contracts[i].address
  }

  lemma {:induction false} SpecForWatched(contracts: seq<ContractSpec>, address: Address)
    ensures SpecFor(contracts, address).Some? <==> address in Watched(contracts)
    ensures SpecFor(contracts, address).Some? ==>
      SpecFor(contracts, address).value in contracts && SpecFor(contracts, address).value.address == address
  {
    if contracts != [] {
      SpecForWatched(contracts[1..], address);
      assert forall i :: 0 <= i < |contracts| - 1 ==> contracts[1..][i] == contracts[i + 1];
      if contracts[0].address != address && address in Watched(contracts) {
        var i :| 0 <= i < |contracts| && contracts[i].address == address;
        assert contracts[1..][i - 1] == contracts[i];
      }
    }
  }

  /** Both kinds of record carry the log's own coordinates, numbered from zero. */
  lemma RecordsAreStamped(contracts: seq<ContractSpec>, l: Located, blockTime: int)
    requires DecodeOne(contracts, l, blockTime).Ok?
    ensures
      var b := DecodeOne(contracts, l, blockTime).value;
      && (forall i :: 0 <= i < |b.entries| ==> StampedAt(b.entries[i].prov, l, i))
      && (forall i :: 0 <= i < |b.rounds| ==> StampedAt(b.rounds[i].prov, l, i))
  {}

  predicate StampedAt(p: Provenance, l: Located, i: nat) {
    p.blockNumber == l.height && p.txHash == l.log.txHash && p.logIndex == l.log.index && p.recordIndex == i
  }

  // ---- The deployed decoders ---------------------------------------------------------------

  /** The four decoders the indexer binds. */
  datatype Role = Vault | Pool | Market | Oracle(o: EventOracle)

  function DecoderOf(role: Role): LogDecoder {
    match role
    case Vault => DecodeVault
    case Pool => DecodePool
    case Market => DecodeRound
    case Oracle(o) => (e: Event) => DecodeEventOracle(o, e)
  }

  ghost predicate Deployed(contracts: seq<ContractSpec>) {
    forall c :: c in contracts ==> exists role: Role :: c.decode == DecoderOf(role)
  }

  /** A log becomes ledger entries or one round record, never both. */
  lemma OneKindPerLog(contracts: seq<ContractSpec>, l: Located, blockTime: int)
    requires Deployed(contracts)
    requires DecodeOne(contracts, l, blockTime).Ok?
    ensures
      var b := DecodeOne(contracts, l, blockTime).value;
      (b.entries == [] || b.rounds == []) && |b.rounds| <= 1
  {
    SpecForWatched(contracts, l.log.address);
    match SpecFor(contracts, l.log.address)
    case None =>
    case Some(c) =>
      var role: Role :| c.decode == DecoderOf(role);
      assert c.decode(l.log.event) == DecoderOf(role)(l.log.event);
  }
}
