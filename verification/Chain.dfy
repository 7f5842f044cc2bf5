/** The chain as the indexer meets it: blocks of typed logs, and an endpoint that may fail or stay
    silent on any query. ABI unpacking is not part of this model; a log whose fields cannot be
    read is `MalformedLog`. */
module Chain {
  import opened FixedPoint
  import opened Ledger

  datatype Event =
    // CollateralVault
    | TransferLog(from: Address, to: Address, value: nat)
    | DepositedLog(user: Address, assets: nat)
    | VaultWithdrawnLog(user: Address, assets: nat)
    | YieldSettledLog(user: Address, yieldAccrued: nat)
    | LienSettledAtExitLog(user: Address, lienAmount: nat)
    | VaultBorrowedLog(user: Address, amount: nat)
    | VaultRepaidLog(user: Address, amount: nat, payer: Address)
    | LiquidatedLog(user: Address, debtRepaid: nat, liquidator: Address)
    // BorrowLiquidityPool
    | SuppliedLog(user: Address, amount: nat, scaledAmount: nat)
    | PoolWithdrawnLog(user: Address, amount: nat, scaledAmount: nat)
    | PoolBorrowedLog(user: Address, scaledAmount: nat)
    | PoolRepaidLog(user: Address, scaledAmount: nat, payer: Address)
    // ParimutuelRound
    | RoundOpenedLog(roundId: nat, openTime: nat, lockTime: nat, closeTime: nat)
    | RoundStrikeSetLog(roundId: nat, strikePrice: nat)
    | PositionTakenLog(roundId: nat, user: Address, side: nat, amount: nat, funder: Address)
    | RoundLockedLog(roundId: nat, lockPrice: nat, oracleRoundId: nat)
    | RoundResolvedLog(roundId: nat, closePrice: nat, winner: nat, rakeTaken: nat)
    | RoundVoidedLog(roundId: nat, reason: string)
    | ClaimedLog(roundId: nat, user: Address, amount: nat, recipient: Address)
    // EventRoundOracle
    | MarketSetLog(market: Address, roundId: nat)
    | ProposedLog(outcome: nat, proposer: Address, evidenceURI: string, evidenceDigest: string,
                  proposerStake: nat, challengeClosesAt: nat)
    | ChallengedLog(challenger: Address, rulingDueAt: nat)
    | RuledLog(outcome: nat, arbiter: Address, paid: Address, reasonURI: string)
    | FinalisedLog(outcome: nat)
    | AbandonedLog(at: nat)
    // Anything else a watched contract emits, and anything that does not unpack
    | UntrackedLog
    | MalformedLog

  datatype Log = Log(address: Address, txHash: Hash, index: nat, removed: bool, event: Event)

  /** `bloom` is whether the header's log filter is non-zero. */
  datatype Block = Block(hash: Hash, time: int, bloom: bool, logs: seq<Log>)

  type Blocks = seq<Block>

  /** A log as eth_getLogs returns it, with the block it is in. */
  datatype Located = Located(height: nat, blockHash: Hash, log: Log)

  datatype Result<+T> = Ok(value: T) | Err

  /** Every call of one cycle that can fail: to the endpoint and to the database. A crash between
      two transactions is the next call failing, because a cycle keeps nothing in memory. */
  datatype Call =
    | HeadCall | HeaderCall(height: nat) | LogsCall(fromBlock: nat, toBlock: nat) | AllLogsCall(height: nat)
    | LoadCall | CountCall(fromBlock: nat, toBlock: nat) | RollbackCall | ReplayCall | AppendCall

  /** One cycle's view: the chain (head last), the calls that fail, and the log queries that are
      answered with nothing. */
  datatype Endpoint = Endpoint(chain: Blocks, down: set<Call>, silent: set<Call>)

  predicate Reaches(net: Endpoint, call: Call) {
    call !in net.down
  }

  function Header(net: Endpoint, height: nat): Result<Block> {
    if Reaches(net, HeaderCall(height)) && height < |net.chain| then Ok(net.chain[height]) else Err
  }

  /** The logs of one block that pass an address filter. */
  function LogsOf(addresses: set<Address>, height: nat, blockHash: Hash, logs: seq<Log>): seq<Located> {
    if logs == [] then []
    else
      (if logs[0].address in addresses then [Located(height, blockHash, logs[0])] else [])
      + LogsOf(addresses, height, blockHash, logs[1..])
  }

  function LogsBetween(addresses: set<Address>, chain: Blocks, fromBlock: nat, toBlock: nat): seq<Located>
    decreases toBlock + 1 - fromBlock
  {
    if fromBlock > toBlock || fromBlock >= |chain| then []
    else
      LogsOf(addresses, fromBlock, chain[fromBlock].hash, chain[fromBlock].logs)
      + LogsBetween(addresses, chain, fromBlock + 1, toBlock)
  }

  /** eth_getLogs over an inclusive range, filtered to addresses. */
  function FilterLogs(net: Endpoint, addresses: set<Address>, fromBlock: nat, toBlock: nat): Result<seq<Located>> {
    var call := LogsCall(fromBlock, toBlock);
    if !Reaches(net, call) then Err
    else if call in net.silent then Ok([])
    else Ok(LogsBetween(addresses, net.chain, fromBlock, toBlock))
  }

  /** eth_getLogs for one block, any address. */
  function BlockLogs(net: Endpoint, height: nat): Result<seq<Log>> {
    var call := AllLogsCall(height);
    if !Reaches(net, call) then Err
    else if call in net.silent || height >= |net.chain| then Ok([])
    else Ok(net.chain[height].logs)
  }
}
