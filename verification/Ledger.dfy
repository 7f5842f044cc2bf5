/** The append-only ledger domain (ledger/ledger.go, ledger/rounds.go): what a record is, and the
    two tables with their shared key. */
module Ledger {
  import opened FixedPoint

  type Address = string
  type Hash = nat

  const ZERO_ADDRESS: Address := "0x0000000000000000000000000000000000000000"

  datatype EventName =
    | Transfer | Deposited | Withdrawn | YieldSettled | LienSettledAtExit | Borrowed | Repaid | Liquidated
    | Supplied
    | RoundOpened | RoundStrikeSet | PositionTaken | RoundLocked | RoundResolved | RoundVoided | Claimed
    | MarketSet | Proposed | Challenged | Ruled | Finalised | Abandoned
    | Unnamed

  /** Which log a record came from. One chain id and one deployment are fixed, so neither is here. */
  datatype Provenance = Provenance(
    blockNumber: nat,
    blockHash: Hash,
    blockTime: int,
    txHash: Hash,
    logIndex: nat,
    recordIndex: nat,
    contract: string,
    contractAddress: Address,
    eventName: EventName)

  datatype Record<+T> = Record(prov: Provenance, body: T)

  datatype Kind = Balance | Flow

  datatype Book =
    | Shares | DebtScaled | SupplyScaled
    | Deposits | Withdrawals | YieldFlow | Liquidations | LienSettled | BorrowFlow | RepayFlow
    | SupplyFlow | PoolWithdrawFlow | ShareTransferFlow

  datatype EntryBody = EntryBody(kind: Kind, account: Address, book: Book, delta: int, counterparty: Address)

  type Entry = Record<EntryBody>

  datatype Side = NoSide | Up | Down

  /** The keys of a round event's data map. */
  datatype Field =
    | OpenTime | LockTime | CloseTime | StrikePrice | LockPrice | OracleRoundId | ClosePrice | Winner
    | RakeTaken | Reason | Funder | Recipient | OracleField | OutcomeField | EvidenceURI | EvidenceDigest
    | ProposerStake | ChallengeClosesAt | RulingDueAt | ReasonURI | Paid | At

  datatype RoundBody = RoundBody(
    market: Address,
    roundID: nat,
    account: Address,
    side: Side,
    amount: Option<nat>,
    data: map<Field, string>)

  type RoundEvent = Record<RoundBody>

  datatype RoundRef = RoundRef(market: Address, roundID: nat)

  function RefOf(e: RoundEvent): RoundRef {
    RoundRef(e.body.market, e.body.roundID)
  }

  datatype Batch = Batch(entries: seq<Entry>, rounds: seq<RoundEvent>)

  const EMPTY_BATCH := Batch([], [])

  function Join(a: Batch, b: Batch): Batch {
    Batch(a.entries + b.entries, a.rounds + b.rounds)
  }
}

/** A table as the uniqueness constraint sees it, and the statements the store runs on one. */
module Tables {
  import opened Ledger

  datatype Key = Key(txHash: Hash, logIndex: nat, recordIndex: nat)

  type Table<T> = map<Key, Record<T>>

  function KeyOf<T>(r: Record<T>): Key {
    Key(r.prov.txHash, r.prov.logIndex, r.prov.recordIndex)
  }

  /** INSERT ... ON CONFLICT DO NOTHING, row by row. */
  function InsertAll<T>(t: Table<T>, rows: seq<Record<T>>): Table<T>
    decreases |rows|
  {
    if rows == [] then t
    else InsertAll(if KeyOf(rows[0]) in t then t else t[KeyOf(rows[0]) := rows[0]], rows[1..])
  }

  /** DELETE ... WHERE block_number >= fromBlock */
  function DeleteFrom<T>(t: Table<T>, fromBlock: nat): Table<T> {
    map k | k in t && t[k].prov.blockNumber < fromBlock :: t[k]
  }

  predicate HeldIn<T>(t: Table<T>, k: Key, fromBlock: nat, toBlock: nat) {
    k in t && fromBlock <= t[k].prov.blockNumber <= toBlock
  }

  /** SELECT count(*) ... WHERE block_number BETWEEN */
  function CountIn<T>(t: Table<T>, fromBlock: nat, toBlock: nat): nat {
    |set k | k in t && HeldIn(t, k, fromBlock, toBlock)|
  }

  lemma CountIsZero<T>(t: Table<T>, fromBlock: nat, toBlock: nat)
    ensures CountIn(t, fromBlock, toBlock) == 0 <==> forall k :: k in t ==> !HeldIn(t, k, fromBlock, toBlock)
  {
    var held := set k | k in t && HeldIn(t, k, fromBlock, toBlock);
    if |held| != 0 {
      var k :| k in held;
    } else {
      forall k | k in t ensures !HeldIn(t, k, fromBlock, toBlock) {
        assert k !in held;
      }
    }
  }

  /** Inserting keeps every row there was, and adds only rows it was given, one for each key. */
  lemma {:induction false} InsertContents<T>(t: Table<T>, rows: seq<Record<T>>)
    ensures
      var u := InsertAll(t, rows);
      && (forall k :: k in t ==> k in u && u[k] == t[k])
      && (forall r :: r in rows ==> KeyOf(r) in u)
      && (forall k :: k in u ==> k in t || (u[k] in rows && KeyOf(u[k]) == k))
    decreases |rows|
  {
    if rows != [] {
      var t' := if KeyOf(rows[0]) in t then t else t[KeyOf(rows[0]) := rows[0]];
      InsertContents(t', rows[1..]);
      assert rows == [rows[0]] + rows[1..];
    }
  }

  /** Re-reading rows already held changes nothing. */
  lemma {:induction false} InsertIsIdempotent<T>(t: Table<T>, rows: seq<Record<T>>)
    requires forall r :: r in rows ==> KeyOf(r) in t
    ensures InsertAll(t, rows) == t
    decreases |rows|
  {
    if rows != [] {
      assert rows[0] in rows;
      assert forall r :: r in rows[1..] ==> r in rows;
      InsertIsIdempotent(t, rows[1..]);
    }
  }
}
