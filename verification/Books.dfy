/** The books derived from the entries table (store/ledger.go, BalanceOf) against reference ledgers
    run over the same logs: ERC-20 for the vault's shares, signed sums for the pool. */
module Books {
  import opened FixedPoint
  import opened Ledger
  import opened Tables
  import opened Chain
  import opened Decoder
  import opened Rows
  import opened Reading
  import opened LedgerStore
  import opened IndexerSpec
  import C = Convergence

  // ---- Sums over a table -----------------------------------------------------------------------

  type Selector = Entry -> bool

  function Amount(p: Selector, e: Entry): int {
    if p(e) then e.body.delta else 0
  }

  /** SELECT SUM(delta) over the selected rows; zero when there are none. */
  ghost function SumOf(t: Table<EntryBody>, p: Selector): int
    decreases |t|
  {
    if t == map[] then 0
    else
      var k :| k in t;
      assert (t - {k}).Keys == t.Keys - {k};
      Amount(p, t[k]) + SumOf(t - {k}, p)
  }

  /** The order rows are summed in does not matter. */
  lemma {:induction false} SumSplits(t: Table<EntryBody>, p: Selector, k: Key)
    requires k in t
    ensures SumOf(t, p) == Amount(p, t[k]) + SumOf(t - {k}, p)
    decreases |t|
  {
    var k' :| k' in t && SumOf(t, p) == Amount(p, t[k']) + SumOf(t - {k'}, p);
    if k' != k {
      assert (t - {k'}).Keys == t.Keys - {k'};
      assert (t - {k}).Keys == t.Keys - {k};
      SumSplits(t - {k'}, p, k);
      SumSplits(t - {k}, p, k');
      assert t - {k'} - {k} == t - {k} - {k'};
    }
  }

  function SumRows(rows: seq<Entry>, p: Selector): int {
    if rows == [] then 0 else Amount(p, rows[0]) + SumRows(rows[1..], p)
  }

  ghost predicate DistinctRowKeys<T>(rows: seq<Record<T>>) {
    forall i, j :: 0 <= i < j < |rows| ==> KeyOf(rows[i]) != KeyOf(rows[j])
  }

  /** The table is exactly the listed rows. */
  ghost predicate Lists<T>(t: Table<T>, rows: seq<Record<T>>) {
    && (forall r :: r in rows ==> KeyOf(r) in t && t[KeyOf(r)] == r)
    && (forall k :: k in t ==> t[k] in rows && KeyOf(t[k]) == k)
  }

  lemma ListsTail<T>(t: Table<T>, rows: seq<Record<T>>)
    requires rows != [] && DistinctRowKeys(rows) && Lists(t, rows)
    ensures DistinctRowKeys(rows[1..]) && Lists(t - {KeyOf(rows[0])}, rows[1..])
  {}

  /** A table holding exactly a list of rows sums to what the list does. */
  lemma {:induction false} TableSum(t: Table<EntryBody>, rows: seq<Entry>, p: Selector)
    requires DistinctRowKeys(rows) && Lists(t, rows)
    ensures SumOf(t, p) == SumRows(rows, p)
    decreases |rows|
  {
    if rows == [] {
      assert t == map[];
    } else {
      assert rows[0] in rows;
      SumSplits(t, p, KeyOf(rows[0]));
      ListsTail(t, rows);
      TableSum(t - {KeyOf(rows[0])}, rows[1..], p);
    }
  }

  lemma {:induction false} SumRowsAppend(a: seq<Entry>, b: seq<Entry>, p: Selector)
    ensures SumRows(a + b, p) == SumRows(a, p) + SumRows(b, p)
  {
    if a == [] {
      assert a + b == b;
    } else {
      assert (a + b)[1..] == a[1..] + b;
      SumRowsAppend(a[1..], b, p);
    }
  }

  // ---- Rows of a chain have distinct keys --------------------------------------------------------

  lemma AppendKeepsDistinct<T>(a: seq<Record<T>>, b: seq<Record<T>>)
    requires DistinctRowKeys(a) && DistinctRowKeys(b)
    requires forall x, y :: x in a && y in b ==> KeyOf(x) != KeyOf(y)
    ensures DistinctRowKeys(a + b)
  {}

  lemma {:induction false} BlockRowsDistinct<T>(f: RowSource<T>, chain: Blocks, h: nat, from: nat)
    requires Stamped(f) && UniqueLogs(chain) && h < |chain| && from <= |chain[h].logs|
    ensures DistinctRowKeys(BlockRows(f, h, chain[h], chain[h].logs[from..]))
    decreases |chain[h].logs| - from
  {
    var logs := chain[h].logs[from..];
    if logs != [] {
      assert logs[1..] == chain[h].logs[from + 1..];
      BlockRowsDistinct(f, chain, h, from + 1);
      var first, rest := f(h, chain[h], logs[0]), BlockRows(f, h, chain[h], logs[1..]);
      assert DistinctRowKeys(first);
      forall x, y | x in first && y in rest ensures KeyOf(x) != KeyOf(y) {
        BlockMember(f, h, chain[h], logs[1..], y);
        var j: nat, i: nat :| j < |logs[1..]| && i < |f(h, chain[h], logs[1..][j])|
          && f(h, chain[h], logs[1..][j])[i] == y;
        assert logs[1..][j] == chain[h].logs[from + 1 + j];
        assert !SameLogKey(chain, h, from, h, from + 1 + j);
      }
      AppendKeepsDistinct(first, rest);
    }
  }

  lemma {:induction false} SpanRowsDistinct<T>(f: RowSource<T>, chain: Blocks, lo: nat, hi: nat)
    requires Stamped(f) && UniqueLogs(chain) && hi <= |chain|
    ensures DistinctRowKeys(SpanRows(f, chain, lo, hi))
    decreases hi - lo
  {
    if lo < hi {
      var first, rest := BlockRows(f, lo, chain[lo], chain[lo].logs), SpanRows(f, chain, lo + 1, hi);
      SpanRowsDistinct(f, chain, lo + 1, hi);
      assert chain[lo].logs[0..] == chain[lo].logs;
      BlockRowsDistinct(f, chain, lo, 0);
      forall x, y | x in first && y in rest ensures KeyOf(x) != KeyOf(y) {
        RowsOfTwoBlocks(f, chain, lo, hi, x, y);
      }
      AppendKeepsDistinct(first, rest);
    }
  }

  lemma RowsOfTwoBlocks<T>(f: RowSource<T>, chain: Blocks, lo: nat, hi: nat, x: Record<T>, y: Record<T>)
    requires Stamped(f) && UniqueLogs(chain) && lo < hi <= |chain|
    requires x in BlockRows(f, lo, chain[lo], chain[lo].logs) && y in SpanRows(f, chain, lo + 1, hi)
    ensures KeyOf(x) != KeyOf(y)
  {
    hide SpanRows, BlockRows;
    FirstBlockMember(f, chain, lo, x);
    SpanMember(f, chain, lo + 1, hi, y);
    var j: nat, i: nat :| RowAt(f, chain, lo, j, i, x);
    var h': nat, j': nat, i': nat :| lo + 1 <= h' < hi && RowAt(f, chain, h', j', i', y);
    assert !SameLogKey(chain, lo, j, h', j');
  }

  // ---- The books -------------------------------------------------------------------------------

  /** The WHERE clause of BalanceOf. */
  function Holding(account: Address, book: Book, contracts: set<Address>): Selector {
    (e: Entry) => e.body.kind.Balance? && e.body.account == account && e.body.book == book
      && e.prov.contractAddress in contracts
  }

  ghost function BalanceOf(t: Table<EntryBody>, account: Address, book: Book, contracts: set<Address>): int {
    SumOf(t, Holding(account, book, contracts))
  }

  /** A book over all accounts. */
  function InBook(book: Book, contracts: set<Address>): Selector {
    (e: Entry) => e.body.kind.Balance? && e.body.book == book && e.prov.contractAddress in contracts
  }

  ghost function TotalOf(t: Table<EntryBody>, book: Book, contracts: set<Address>): int {
    SumOf(t, InBook(book, contracts))
  }

  lemma SumAfterInsert(t: Table<EntryBody>, p: Selector, k: Key, e: Entry)
    requires k !in t
    ensures SumOf(t[k := e], p) == SumOf(t, p) + Amount(p, e)
  {
    SumSplits(t[k := e], p, k);
    assert t[k := e] - {k} == t;
  }

  /** Rows that are history never move a balance, whoever reads them in, however often. */
  lemma {:induction false} FlowsMoveNoBalance(t: Table<EntryBody>, rows: seq<Entry>, account: Address, book: Book,
                                              contracts: set<Address>)
    requires forall r :: r in rows ==> r.body.kind.Flow?
    ensures BalanceOf(InsertAll(t, rows), account, book, contracts) == BalanceOf(t, account, book, contracts)
    decreases |rows|
  {
    if rows != [] {
      var k := KeyOf(rows[0]);
      assert rows[0] in rows && forall r :: r in rows[1..] ==> r in rows;
      if k !in t { SumAfterInsert(t, Holding(account, book, contracts), k, rows[0]); }
      FlowsMoveNoBalance(if k in t then t else t[k := rows[0]], rows[1..], account, book, contracts);
    }
  }

  // ---- Reference ledgers -------------------------------------------------------------------------

  /** ERC-20 balances, as a run of Transfer events defines them (EIP-20, section "Events"):
      mints come from the zero address, burns go to it. */
  datatype Token = Token(balances: map<Address, int>, supply: int)

  const NEW_TOKEN := Token(map[], 0)

  function Bal(t: Token, account: Address): int {
    if account in t.balances then t.balances[account] else 0
  }

  function Move(t: Token, from: Address, to: Address, value: nat): Token {
    var debited := if from == ZERO_ADDRESS then t.(supply := t.supply + value)
                   else t.(balances := t.balances[from := Bal(t, from) - value]);
    if to == ZERO_ADDRESS then debited.(supply := debited.supply - value)
    else debited.(balances := debited.balances[to := Bal(debited, to) + value])
  }

  /** The token of one contract after a list of logs. */
  function TokenAfter(vault: Address, t: Token, logs: seq<Log>): Token
    decreases |logs|
  {
    if logs == [] then t
    else
      var l := logs[0];
      TokenAfter(vault,
        if l.address == vault && !l.removed && l.event.TransferLog?
        then Move(t, l.event.from, l.event.to, l.event.value) else t,
        logs[1..])
  }

  /** One pool log's signed scaled amount, on the debt or the supply side. */
  function ScaledBy(pool: Address, book: Book, account: Address, l: Log): int {
    if l.address != pool || l.removed then 0
    else match l.event
      case SuppliedLog(user, _, scaled) => if book.SupplyScaled? && user == account then scaled else 0
      case PoolWithdrawnLog(user, _, scaled) => if book.SupplyScaled? && user == account then Neg(scaled) else 0
      case PoolBorrowedLog(user, scaled) => if book.DebtScaled? && user == account then scaled else 0
      case PoolRepaidLog(user, scaled, _) => if book.DebtScaled? && user == account then Neg(scaled) else 0
      case _ => 0
  }

  function ScaledSum(pool: Address, book: Book, account: Address, logs: seq<Log>): int {
    if logs == [] then 0 else ScaledBy(pool, book, account, logs[0]) + ScaledSum(pool, book, account, logs[1..])
  }

  /** The logs of a span of blocks, in order. */
  function SpanLogs(chain: Blocks, lo: nat, hi: nat): seq<Log>
    decreases hi - lo
  {
    if lo >= hi || lo >= |chain| then [] else chain[lo].logs + SpanLogs(chain, lo + 1, hi)
  }

  /** One deployment: one vault, one pool, and contracts that keep no book. */
  ghost predicate Deployment(contracts: seq<ContractSpec>, vault: Address, pool: Address) {
    && vault != pool
    && SpecFor(contracts, vault).Some? && SpecFor(contracts, vault).value.decode == DecodeVault
    && SpecFor(contracts, pool).Some? && SpecFor(contracts, pool).value.decode == DecodePool
    && forall a :: a != vault && a != pool && SpecFor(contracts, a).Some? ==>
         exists role: Role :: SpecFor(contracts, a).value.decode == DecoderOf(role) && (role.Market? || role.Oracle?)
  }

  /** What one log adds to an account's shares, as its entries say. */
  function SharesBy(vault: Address, account: Address, l: Log): int {
    if l.address != vault || l.removed || !l.event.TransferLog? || account == ZERO_ADDRESS then 0
    else (if l.event.to == account then l.event.value else 0) - (if l.event.from == account then l.event.value else 0)
  }

  function SharesSum(vault: Address, account: Address, logs: seq<Log>): int {
    if logs == [] then 0 else SharesBy(vault, account, logs[0]) + SharesSum(vault, account, logs[1..])
  }

  function MintedBy(vault: Address, l: Log): int {
    if l.address != vault || l.removed || !l.event.TransferLog? then 0
    else
      (if l.event.from == ZERO_ADDRESS then l.event.value else 0)
      - (if l.event.to == ZERO_ADDRESS then l.event.value else 0)
  }

  function MintedSum(vault: Address, logs: seq<Log>): int {
    if logs == [] then 0 else MintedBy(vault, logs[0]) + MintedSum(vault, logs[1..])
  }

  lemma {:induction false} TokenIsSums(vault: Address, t: Token, logs: seq<Log>, account: Address)
    requires account != ZERO_ADDRESS
    ensures Bal(TokenAfter(vault, t, logs), account) == Bal(t, account) + SharesSum(vault, account, logs)
    ensures TokenAfter(vault, t, logs).supply == t.supply + MintedSum(vault, logs)
    decreases |logs|
  {
    if logs != [] {
      var l := logs[0];
      var t' := if l.address == vault && !l.removed && l.event.TransferLog?
        then Move(t, l.event.from, l.event.to, l.event.value) else t;
      TokenIsSums(vault, t', logs[1..], account);
    }
  }

  // ---- Entries against the reference -------------------------------------------------------------

  /** What a log's entries add to one account's book. */
  function Held(account: Address, book: Book, bodies: seq<EntryBody>): int {
    if bodies == [] then 0
    else
      (if bodies[0].kind.Balance? && bodies[0].account == account && bodies[0].book == book then bodies[0].delta else 0)
      + Held(account, book, bodies[1..])
  }

  /** What they add to a book over all accounts. */
  function HeldByAll(book: Book, bodies: seq<EntryBody>): int {
    if bodies == [] then 0
    else
      (if bodies[0].kind.Balance? && bodies[0].book == book then bodies[0].delta else 0)
      + HeldByAll(book, bodies[1..])
  }

  predicate StampedFrom(rows: seq<Entry>, bodies: seq<EntryBody>, address: Address) {
    |rows| == |bodies|
    && forall i :: 0 <= i < |rows| ==> rows[i].body == bodies[i] && rows[i].prov.contractAddress == address
  }

  lemma {:induction false} StampedSums(rows: seq<Entry>, bodies: seq<EntryBody>, address: Address, account: Address,
                                       book: Book, contracts: set<Address>)
    requires StampedFrom(rows, bodies, address)
    ensures SumRows(rows, Holding(account, book, contracts)) ==
      if address in contracts then Held(account, book, bodies) else 0
    ensures SumRows(rows, InBook(book, contracts)) == if address in contracts then HeldByAll(book, bodies) else 0
    decreases |rows|
  {
    if rows != [] { StampedSums(rows[1..], bodies[1..], address, account, book, contracts); }
  }

  /** The drafts a watched log decodes to. */
  function DraftsOf(contracts: seq<ContractSpec>, l: Log): seq<EntryBody> {
    if l.removed || SpecFor(contracts, l.address).None? then []
    else match SpecFor(contracts, l.address).value.decode(l.event)
      case Err => []
      case Ok(drafts) => drafts.entries
  }

  lemma EntriesAreDrafts(contracts: seq<ContractSpec>, h: nat, b: Block, l: Log)
    ensures StampedFrom(EntrySource(contracts)(h, b, l), DraftsOf(contracts, l), l.address)
  {}

  lemma HeldPair(account: Address, book: Book, a: EntryBody, b: EntryBody)
    ensures Held(account, book, [a, b]) == Held(account, book, [a]) + Held(account, book, [b])
    ensures HeldByAll(book, [a, b]) == HeldByAll(book, [a]) + HeldByAll(book, [b])
  {}

  lemma {:induction false} HeldAppend(account: Address, book: Book, a: seq<EntryBody>, b: seq<EntryBody>)
    ensures Held(account, book, a + b) == Held(account, book, a) + Held(account, book, b)
    ensures HeldByAll(book, a + b) == HeldByAll(book, a) + HeldByAll(book, b)
  {
    if a == [] {
      assert a + b == b;
    } else {
      assert (a + b)[1..] == a[1..] + b;
      HeldAppend(account, book, a[1..], b);
    }
  }

  lemma TransferHeld(from: Address, to: Address, value: nat, account: Address)
    requires account != ZERO_ADDRESS
    ensures Held(account, Shares, TransferEntries(from, to, value))
         == (if to == account then value else 0) - (if from == account then value else 0)
    ensures HeldByAll(Shares, TransferEntries(from, to, value))
         == (if from == ZERO_ADDRESS then value else 0) - (if to == ZERO_ADDRESS then value else 0)
  {
    var debit := if from != ZERO_ADDRESS then [EntryBody(Balance, from, Shares, Neg(value), to)] else [];
    var credit := if to != ZERO_ADDRESS then [EntryBody(Balance, to, Shares, value, from)] else [];
    var out := EntryBody(Flow, from, ShareTransferFlow, Neg(value), to);
    var into := EntryBody(Flow, to, ShareTransferFlow, value, from);
    var flows := if from != ZERO_ADDRESS && to != ZERO_ADDRESS then [out, into] else [];
    assert TransferEntries(from, to, value) == debit + credit + flows;
    HeldAppend(account, Shares, debit + credit, flows);
    HeldAppend(account, Shares, debit, credit);
    HeldPair(account, Shares, out, into);
  }

  /** One log moves each book by what the reference says. */
  lemma OneLogOneReference(contracts: seq<ContractSpec>, vault: Address, pool: Address, account: Address, l: Log)
    requires Deployment(contracts, vault, pool) && account != ZERO_ADDRESS
    ensures
      var drafts := if l.address in {vault, pool} then DraftsOf(contracts, l) else [];
      && Held(account, Shares, drafts) == SharesBy(vault, account, l)
      && HeldByAll(Shares, drafts) == MintedBy(vault, l)
      && Held(account, DebtScaled, drafts) == ScaledBy(pool, DebtScaled, account, l)
      && Held(account, SupplyScaled, drafts) == ScaledBy(pool, SupplyScaled, account, l)
  {
    if !l.removed {
      if l.address == vault {
        if DecodeVault(l.event).Ok? { VaultKeepsShares(account, l.event); }
      } else if l.address == pool {
        if DecodePool(l.event).Ok? { PoolKeepsScaled(account, l.event); }
      }
    }
  }

  lemma VaultKeepsShares(account: Address, e: Event)
    requires account != ZERO_ADDRESS && DecodeVault(e).Ok?
    ensures
      var drafts := DecodeVault(e).value.entries;
      && Held(account, DebtScaled, drafts) == 0 && Held(account, SupplyScaled, drafts) == 0
      && (e.TransferLog? ==>
            Held(account, Shares, drafts) ==
              (if e.to == account then e.value else 0) - (if e.from == account then e.value else 0)
            && HeldByAll(Shares, drafts) ==
              (if e.from == ZERO_ADDRESS then e.value else 0) - (if e.to == ZERO_ADDRESS then e.value else 0))
      && (!e.TransferLog? ==> Held(account, Shares, drafts) == 0 && HeldByAll(Shares, drafts) == 0)
  {
    if e.TransferLog? {
      TransferHeld(e.from, e.to, e.value, account);
      OnlyShares(account, e.from, e.to, e.value);
    }
  }

  lemma OnlyShares(account: Address, from: Address, to: Address, value: nat)
    ensures Held(account, DebtScaled, TransferEntries(from, to, value)) == 0
    ensures Held(account, SupplyScaled, TransferEntries(from, to, value)) == 0
  {
    NoneOfBook(account, DebtScaled, TransferEntries(from, to, value));
    NoneOfBook(account, SupplyScaled, TransferEntries(from, to, value));
  }

  lemma {:induction false} NoneOfBook(account: Address, book: Book, bodies: seq<EntryBody>)
    requires forall b :: b in bodies ==> b.book != book
    ensures Held(account, book, bodies) == 0 && HeldByAll(book, bodies) == 0
  {
    if bodies != [] {
      assert bodies[0] in bodies && forall b :: b in bodies[1..] ==> b in bodies;
      NoneOfBook(account, book, bodies[1..]);
    }
  }

  lemma PoolKeepsScaled(account: Address, e: Event)
    requires DecodePool(e).Ok?
    ensures
      var drafts := DecodePool(e).value.entries;
      && Held(account, Shares, drafts) == 0 && HeldByAll(Shares, drafts) == 0
      && Held(account, DebtScaled, drafts) == ScaledBy("", DebtScaled, account, Log("", 0, 0, false, e))
      && Held(account, SupplyScaled, drafts) == ScaledBy("", SupplyScaled, account, Log("", 0, 0, false, e))
  {
    match e
    case SuppliedLog(user, amount, scaled) =>
      HeldOfTwo(account, EntryBody(Balance, user, SupplyScaled, scaled, ""), FlowEntry(user, SupplyFlow, amount));
    case PoolWithdrawnLog(user, amount, scaled) =>
      HeldOfTwo(account, EntryBody(Balance, user, SupplyScaled, Neg(scaled), ""),
                FlowEntry(user, PoolWithdrawFlow, amount));
    case _ =>
  }

  lemma HeldOfTwo(account: Address, a: EntryBody, b: EntryBody)
    requires a.kind.Balance? && b.kind.Flow?
    ensures forall book :: Held(account, book, [a, b]) == if a.account == account && a.book == book then a.delta else 0
    ensures forall book :: HeldByAll(book, [a, b]) == if a.book == book then a.delta else 0
  {
    forall book
      ensures Held(account, book, [a, b]) == if a.account == account && a.book == book then a.delta else 0
      ensures HeldByAll(book, [a, b]) == if a.book == book then a.delta else 0
    {
      HeldPair(account, book, a, b);
    }
  }

  // ---- The theorem -------------------------------------------------------------------------------

  /** The entries of a list of logs add up to the references over the same logs. */
  ghost predicate SumsAgree(rows: seq<Entry>, logs: seq<Log>, vault: Address, pool: Address, account: Address) {
    && SumRows(rows, Holding(account, Shares, {vault, pool})) == SharesSum(vault, account, logs)
    && SumRows(rows, InBook(Shares, {vault, pool})) == MintedSum(vault, logs)
    && SumRows(rows, Holding(account, DebtScaled, {vault, pool})) == ScaledSum(pool, DebtScaled, account, logs)
    && SumRows(rows, Holding(account, SupplyScaled, {vault, pool})) == ScaledSum(pool, SupplyScaled, account, logs)
  }

  lemma OneLogSums(vault: Address, pool: Address, account: Address, l: Log)
    ensures SharesSum(vault, account, [l]) == SharesBy(vault, account, l)
    ensures MintedSum(vault, [l]) == MintedBy(vault, l)
    ensures forall book :: ScaledSum(pool, book, account, [l]) == ScaledBy(pool, book, account, l)
  {}

  lemma LogSumsAgree(contracts: seq<ContractSpec>, vault: Address, pool: Address, account: Address, h: nat, b: Block,
                     l: Log)
    requires Deployment(contracts, vault, pool) && account != ZERO_ADDRESS
    ensures SumsAgree(EntrySource(contracts)(h, b, l), [l], vault, pool, account)
  {
    var rows := EntrySource(contracts)(h, b, l);
    EntriesAreDrafts(contracts, h, b, l);
    OneLogOneReference(contracts, vault, pool, account, l);
    OneLogSums(vault, pool, account, l);
    hide DraftsOf, EntrySource, SumRows, Held, HeldByAll, SharesSum, MintedSum, ScaledSum;
    hide Deployment, SharesBy, MintedBy, ScaledBy;
    StampedSums(rows, DraftsOf(contracts, l), l.address, account, Shares, {vault, pool});
    StampedSums(rows, DraftsOf(contracts, l), l.address, account, DebtScaled, {vault, pool});
    StampedSums(rows, DraftsOf(contracts, l), l.address, account, SupplyScaled, {vault, pool});
  }

  lemma {:induction false} ReferencesAppend(a: seq<Log>, b: seq<Log>, vault: Address, pool: Address, account: Address)
    ensures SharesSum(vault, account, a + b) == SharesSum(vault, account, a) + SharesSum(vault, account, b)
    ensures MintedSum(vault, a + b) == MintedSum(vault, a) + MintedSum(vault, b)
    ensures forall book ::
      ScaledSum(pool, book, account, a + b)
      == ScaledSum(pool, book, account, a) + ScaledSum(pool, book, account, b)
  {
    if a == [] {
      assert a + b == b;
    } else {
      assert (a + b)[1..] == a[1..] + b;
      ReferencesAppend(a[1..], b, vault, pool, account);
    }
  }

  lemma SumsAppend(r: seq<Entry>, r': seq<Entry>, a: seq<Log>, b: seq<Log>, vault: Address, pool: Address,
                   account: Address)
    requires SumsAgree(r, a, vault, pool, account) && SumsAgree(r', b, vault, pool, account)
    ensures SumsAgree(r + r', a + b, vault, pool, account)
  {
    ReferencesAppend(a, b, vault, pool, account);
    SumRowsAppend(r, r', Holding(account, Shares, {vault, pool}));
    SumRowsAppend(r, r', InBook(Shares, {vault, pool}));
    SumRowsAppend(r, r', Holding(account, DebtScaled, {vault, pool}));
    SumRowsAppend(r, r', Holding(account, SupplyScaled, {vault, pool}));
  }

  lemma {:induction false} BlockSumsAgree(contracts: seq<ContractSpec>, vault: Address, pool: Address, account: Address,
                                          h: nat, b: Block, logs: seq<Log>)
    requires Deployment(contracts, vault, pool) && account != ZERO_ADDRESS
    ensures SumsAgree(BlockRows(EntrySource(contracts), h, b, logs), logs, vault, pool, account)
    decreases |logs|
  {
    if logs != [] {
      LogSumsAgree(contracts, vault, pool, account, h, b, logs[0]);
      BlockSumsAgree(contracts, vault, pool, account, h, b, logs[1..]);
      hide SumsAgree, EntrySource;
      SumsAppend(EntrySource(contracts)(h, b, logs[0]), BlockRows(EntrySource(contracts), h, b, logs[1..]),
                 [logs[0]], logs[1..], vault, pool, account);
      assert logs == [logs[0]] + logs[1..];
    }
  }

  lemma {:induction false} SpanSumsAgree(contracts: seq<ContractSpec>, vault: Address, pool: Address, account: Address,
                                         chain: Blocks, lo: nat, hi: nat)
    requires Deployment(contracts, vault, pool) && account != ZERO_ADDRESS && hi <= |chain|
    ensures SumsAgree(SpanRows(EntrySource(contracts), chain, lo, hi), SpanLogs(chain, lo, hi), vault, pool, account)
    decreases hi - lo
  {
    if lo < hi {
      BlockSumsAgree(contracts, vault, pool, account, lo, chain[lo], chain[lo].logs);
      SpanSumsAgree(contracts, vault, pool, account, chain, lo + 1, hi);
      hide SumsAgree, EntrySource, BlockRows;
      SumsAppend(BlockRows(EntrySource(contracts), lo, chain[lo], chain[lo].logs),
                 SpanRows(EntrySource(contracts), chain, lo + 1, hi),
                 chain[lo].logs, SpanLogs(chain, lo + 1, hi), vault, pool, account);
    }
  }

  /** Whenever the entries table is the decoding of a range of one chain, which every run of the
      indexer keeps it, each account's shares are its ERC-20 balance over the same Transfer logs,
      all shares together are mints less burns, and scaled debt and supply are the signed sums of
      the pool's scaled amounts. */
  lemma BooksEqualTheReference(t: Table<EntryBody>, contracts: seq<ContractSpec>, vault: Address, pool: Address,
                               account: Address, chain: Blocks, lo: nat, hi: nat)
    requires Deployment(contracts, vault, pool) && account != ZERO_ADDRESS
    requires UniqueLogs(chain) && hi <= |chain|
    requires Holds(t, EntrySource(contracts), chain, lo, hi)
    ensures
      var logs := SpanLogs(chain, lo, hi);
      var token := TokenAfter(vault, NEW_TOKEN, logs);
      && BalanceOf(t, account, Shares, {vault, pool}) == Bal(token, account)
      && TotalOf(t, Shares, {vault, pool}) == token.supply
      && BalanceOf(t, account, DebtScaled, {vault, pool}) == ScaledSum(pool, DebtScaled, account, logs)
      && BalanceOf(t, account, SupplyScaled, {vault, pool}) == ScaledSum(pool, SupplyScaled, account, logs)
  {
    hide SpanRows, EntrySource, SpanLogs, Deployment;
    var rows := SpanRows(EntrySource(contracts), chain, lo, hi);
    EntriesAreStamped(contracts);
    SpanRowsDistinct(EntrySource(contracts), chain, lo, hi);
    assert Lists(t, rows);
    TableSum(t, rows, Holding(account, Shares, {vault, pool}));
    TableSum(t, rows, InBook(Shares, {vault, pool}));
    TableSum(t, rows, Holding(account, DebtScaled, {vault, pool}));
    TableSum(t, rows, Holding(account, SupplyScaled, {vault, pool}));
    SpanSumsAgree(contracts, vault, pool, account, chain, lo, hi);
    TokenIsSums(vault, NEW_TOKEN, SpanLogs(chain, lo, hi), account);
  }

  /** So after any run of cycles, crashes and reorgs, however often ranges were re-read, the books
      are the reference's over the chain the cursor names. */
  lemma BooksAfterAnyRun(cfg: Config, chains: set<Blocks>, start: Blocks, events: seq<C.Event>, chain: Blocks,
                         vault: Address, pool: Address, account: Address)
    requires Deployment(cfg.contracts, vault, pool) && account != ZERO_ADDRESS
    requires C.Family(cfg, chains) && start in chains && chain in chains
    requires C.AllAllowed(cfg, chains, C.World(EMPTY_DB, start, 0), events)
    requires
      var cursor := C.Run(cfg, C.World(EMPTY_DB, start, 0), events).db.cursor;
      && cursor.Some? && cfg.startBlock <= cursor.value.lastBlock < |chain|
      && cursor.value.lastHash == Some(chain[cursor.value.lastBlock].hash)
    ensures
      var db := C.Run(cfg, C.World(EMPTY_DB, start, 0), events).db;
      var logs := SpanLogs(chain, cfg.startBlock, db.cursor.value.lastBlock + 1);
      && BalanceOf(db.entries, account, Shares, {vault, pool}) == Bal(TokenAfter(vault, NEW_TOKEN, logs), account)
      && TotalOf(db.entries, Shares, {vault, pool}) == TokenAfter(vault, NEW_TOKEN, logs).supply
      && BalanceOf(db.entries, account, DebtScaled, {vault, pool}) == ScaledSum(pool, DebtScaled, account, logs)
      && BalanceOf(db.entries, account, SupplyScaled, {vault, pool}) == ScaledSum(pool, SupplyScaled, account, logs)
  {
    hide SpanRows, EntrySource, SpanLogs, Deployment, C.Run, C.AllAllowed;
    C.TablesNameTheirChain(cfg, chains, start, events, chain);
    var db := C.Run(cfg, C.World(EMPTY_DB, start, 0), events).db;
    EntriesAreStamped(cfg.contracts);
    StraightReadHolds(EntrySource(cfg.contracts), chain, cfg.startBlock, db.cursor.value.lastBlock + 1);
    BooksEqualTheReference(db.entries, cfg.contracts, vault, pool, account, chain, cfg.startBlock,
                           db.cursor.value.lastBlock + 1);
  }
}
