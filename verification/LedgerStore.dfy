/** The two tables and the cursor row as transactional state (store/ledger.go). `commits` is whether
    the database lets the transaction through; when it does not, nothing has happened. */
module LedgerStore {
  import opened FixedPoint
  import opened Ledger
  import opened Tables

  type Version = string

  /** None for the hash means unverified. */
  datatype Cursor = Cursor(lastBlock: nat, lastHash: Option<Hash>, decoders: Version)

  /** The store's contents as a value. */
  datatype Db = Db(entries: Table<EntryBody>, rounds: Table<RoundBody>, cursor: Option<Cursor>)

  const EMPTY_DB := Db(map[], map[], None)

  function Appended(db: Db, batch: Batch, next: Cursor): Db {
    Db(InsertAll(db.entries, batch.entries), InsertAll(db.rounds, batch.rounds), Some(next))
  }

  function Rewound(cursor: Option<Cursor>, fromBlock: nat): Option<Cursor>
    requires fromBlock > 0
  {
    if cursor.None? then None
    else Some(cursor.value.(lastBlock := fromBlock - 1, lastHash := None))
  }

  function RolledBack(db: Db, fromBlock: nat): Db
    requires fromBlock > 0
  {
    Db(DeleteFrom(db.entries, fromBlock), DeleteFrom(db.rounds, fromBlock), Rewound(db.cursor, fromBlock))
  }

  function Replayed(db: Db, fromBlock: nat): Db
    requires fromBlock > 0
  {
    db.(cursor := Rewound(db.cursor, fromBlock))
  }

  function RecordsIn(db: Db, fromBlock: nat, toBlock: nat): nat {
    CountIn(db.entries, fromBlock, toBlock) + CountIn(db.rounds, fromBlock, toBlock)
  }

  class Store {
    var entries: Table<EntryBody>
    var rounds: Table<RoundBody>
    var cursor: Option<Cursor>

    constructor ()
      ensures Contents() == EMPTY_DB
    {
      entries, rounds, cursor := map[], map[], None;
    }

    function Contents(): Db
      reads this
    {
      Db(entries, rounds, cursor)
    }

    /** One range and the cursor move, in one transaction. */
    method Append(batch: Batch, next: Cursor, commits: bool) returns (ok: bool)
      modifies this
      ensures ok == commits
      ensures Contents() == if commits then Appended(old(Contents()), batch, next) else old(Contents())
    {
      var newEntries, newRounds := entries, rounds;
      var i := 0;
      while i < |batch.entries|
        invariant 0 <= i <= |batch.entries|
        invariant InsertAll(newEntries, batch.entries[i..]) == InsertAll(entries, batch.entries)
      {
        var e := batch.entries[i];
        assert batch.entries[i..][1..] == batch.entries[i + 1..];
        if KeyOf(e) !in newEntries {
          newEntries := newEntries[KeyOf(e) := e];
        }
        i := i + 1;
      }
      i := 0;
      while i < |batch.rounds|
        invariant 0 <= i <= |batch.rounds|
        invariant InsertAll(newRounds, batch.rounds[i..]) == InsertAll(rounds, batch.rounds)
      {
        var e := batch.rounds[i];
        assert batch.rounds[i..][1..] == batch.rounds[i + 1..];
        if KeyOf(e) !in newRounds {
          newRounds := newRounds[KeyOf(e) := e];
        }
        i := i + 1;
      }
      if commits {
        entries, rounds, cursor := newEntries, newRounds, Some(next);
      }
      return commits;
    }

    /** Deletes from both tables and clears the cursor's hash. Block zero is refused: the cursor
        below it does not exist. */
    method RollbackFrom(fromBlock: nat, commits: bool) returns (ok: bool)
      modifies this
      ensures ok == (commits && fromBlock > 0)
      ensures Contents() == if ok then RolledBack(old(Contents()), fromBlock) else old(Contents())
    {
      if fromBlock == 0 || !commits {
        return false;
      }
      entries := DeleteFrom(entries, fromBlock);
      rounds := DeleteFrom(rounds, fromBlock);
      cursor := Rewound(cursor, fromBlock);
      return true;
    }

    /** Rewinds the cursor and deletes nothing. */
    method ReplayFrom(fromBlock: nat, commits: bool) returns (ok: bool)
      modifies this`cursor
      ensures ok == (commits && fromBlock > 0)
      ensures Contents() == if ok then Replayed(old(Contents()), fromBlock) else old(Contents())
    {
      if fromBlock == 0 || !commits {
        return false;
      }
      cursor := Rewound(cursor, fromBlock);
      return true;
    }

    /** Records held in an inclusive block range, across both tables: none exactly when no row of either
        lies in it, which is all its caller asks. */
    method RecordsInRange(fromBlock: nat, toBlock: nat) returns (n: nat)
      ensures n == RecordsIn(Contents(), fromBlock, toBlock)
      ensures n == 0 <==>
        && (forall k :: k in entries ==> !(fromBlock <= entries[k].prov.blockNumber <= toBlock))
        && (forall k :: k in rounds ==> !(fromBlock <= rounds[k].prov.blockNumber <= toBlock))
    {
      CountIsZero(entries, fromBlock, toBlock);
      CountIsZero(rounds, fromBlock, toBlock);
      n := CountIn(entries, fromBlock, toBlock) + CountIn(rounds, fromBlock, toBlock);
    }
  }
}
