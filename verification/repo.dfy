/**
  Storage tier (repo/repo.go): single-key CRUD against the `kv` table.

  The table is a map from key to value: `key` is the table's primary key, so
  the map's "one value per key" is exactly the schema's uniqueness constraint.
  The SQL engine is not modelled; what it may do wrong during one call is an
  `Engine` parameter, and its failures come back as the opaque `Storage` error.
*/
module Repo {
  import opened Wrappers

  /** The contents of the `kv` table. */
  type Table = map<string, string>

  /** The database file used when the caller gives no path. */
  const DefaultDBPath: string := "kv.db"

  /** Which wrapping message a storage failure carries, i.e. which step failed. */
  datatype Stage =
    | OpenDatabase      // New: the database could not be opened
    | CreateTable       // New: the schema statement failed
    | PrepareStatement  // Get: the SELECT could not run
    | QueryPair         // Get: the row could not be scanned
    | InsertPair        // Create: the INSERT failed
    | UpdatePair        // Update: the UPDATE failed
    | DeletePair        // Delete: the DELETE failed

  /** An error reported by the SQL engine itself. */
  datatype EngineError =
    | UniqueConstraint(key: string)  // an INSERT hit the primary key
    | Failure(detail: string)        // I/O, locking, a broken connection, ...

  /**
    The storage tier's outcomes. `KeyExists` is declared (and the service tier
    looks for it) but no operation of this tier ever produces it.
  */
  datatype RepoError =
    | KeyNotFound(key: string)
    | KeyExists(key: string)
    | Storage(stage: Stage, cause: EngineError)

  /**
    How the engine behaves during one call: a failure of the statement itself
    (Query or Exec), of the row cursor (`rows.Next`), or of `rows.Scan`.
  */
  datatype Engine = Engine(statement: Option<string>, cursor: Option<string>, scan: Option<string>)

  /** An engine that does not fail. */
  const Healthy: Engine := Engine(None, None, None)

  /** The error a modifying call reports and the table it leaves behind. */
  datatype Effect = Effect(err: Option<RepoError>, table: Table)

  /** `t` and `u` hold the same records, except possibly the one for `key`. */
  predicate AgreeExcept(t: Table, u: Table, key: string) {
    t - {key} == u - {key}
  }

  /** The path `New` opens: the given one, or the default when it is empty. */
  function ResolvePath(dbPath: string): (p: string)
    ensures p != ""
    ensures dbPath != "" ==> p == dbPath
    ensures dbPath == "" ==> p == DefaultDBPath
  {
    if dbPath == "" then DefaultDBPath else dbPath
  }

  /** What `Get` answers from table `t`. */
  function GetOutcome(t: Table, key: string, e: Engine): (r: Fetched<RepoError>)
    ensures r.err.None? <==> key in t && e == Healthy
    ensures r.err.None? ==> r.value == t[key]
    ensures r.err.Some? ==> r.value == ""
    ensures e.statement.None? && key !in t ==> r.err == Some(KeyNotFound(key))
    ensures r.err.Some? && r.err.value.KeyNotFound? ==> r.err.value.key == key
    ensures r.err.Some? ==> !r.err.value.KeyExists?
    ensures e.statement.Some? ==> r.err == Some(Storage(PrepareStatement, Failure(e.statement.value)))
    ensures e.statement.None? && e.cursor.Some? ==> r.err == Some(KeyNotFound(key))
    ensures e.statement.None? && e.cursor.None? && key in t && e.scan.Some? ==>
      r.err == Some(Storage(QueryPair, Failure(e.scan.value)))
  {
    match e.statement
    case Some(d) => Fetched("", Some(Storage(PrepareStatement, Failure(d))))
    case None =>
      if key !in t || e.cursor.Some? then Fetched("", Some(KeyNotFound(key)))
      else match e.scan
        case Some(d) => Fetched("", Some(Storage(QueryPair, Failure(d))))
        case None => Fetched(t[key], None)
  }

  /**
    What `Create` does to table `t`. A duplicate key is refused by the engine's
    primary-key constraint and reported as a wrapped storage error.
  */
  function CreateOutcome(t: Table, key: string, value: string, e: Engine): (r: Effect)
    ensures r.err.None? <==> key !in t && e.statement.None?
    ensures r.err.None? ==> r.table == t[key := value]
    ensures r.err.Some? ==> r.table == t && r.err.value.Storage? && r.err.value.stage == InsertPair
    ensures key in t && e.statement.None? ==> r.err == Some(Storage(InsertPair, UniqueConstraint(key)))
    ensures AgreeExcept(t, r.table, key)
  {
    match e.statement
    case Some(d) => Effect(Some(Storage(InsertPair, Failure(d))), t)
    case None =>
      if key in t then Effect(Some(Storage(InsertPair, UniqueConstraint(key))), t)
      else Effect(None, t[key := value])
  }

  /** What `Update` does to table `t`: zero rows affected means not found. */
  function UpdateOutcome(t: Table, key: string, value: string, e: Engine): (r: Effect)
    ensures r.err.None? <==> key in t && e.statement.None?
    ensures r.err.None? ==> r.table == t[key := value]
    ensures r.err.Some? ==> r.table == t
    ensures key !in t && e.statement.None? ==> r.err == Some(KeyNotFound(key))
    ensures r.err.Some? && !r.err.value.KeyNotFound? ==> r.err.value == Storage(UpdatePair, Failure(e.statement.value))
    ensures e.statement.Some? ==> r.err == Some(Storage(UpdatePair, Failure(e.statement.value)))
    ensures AgreeExcept(t, r.table, key)
  {
    match e.statement
    case Some(d) => Effect(Some(Storage(UpdatePair, Failure(d))), t)
    case None =>
      if key in t then Effect(None, t[key := value])
      else Effect(Some(KeyNotFound(key)), t)
  }

  /** What `Delete` does to table `t`: zero rows affected means not found. */
  function DeleteOutcome(t: Table, key: string, e: Engine): (r: Effect)
    ensures r.err.None? <==> key in t && e.statement.None?
    ensures r.err.None? ==> key !in r.table && r.table == t - {key}
    ensures r.err.Some? ==> r.table == t
    ensures key !in t && e.statement.None? ==> r.err == Some(KeyNotFound(key))
    ensures r.err.Some? && !r.err.value.KeyNotFound? ==> r.err.value == Storage(DeletePair, Failure(e.statement.value))
    ensures e.statement.Some? ==> r.err == Some(Storage(DeletePair, Failure(e.statement.value)))
    ensures AgreeExcept(t, r.table, key)
  {
    match e.statement
    case Some(d) => Effect(Some(Storage(DeletePair, Failure(d))), t)
    case None =>
      if key in t then Effect(None, t - {key})
      else Effect(Some(KeyNotFound(key)), t)
  }

  /** The key-value store repository: a handle on the database and its table. */
  class Repo {
    const path: string
    var table: Table

    constructor Open(path: string, stored: Table)
      ensures this.path == path && table == stored
    {
      this.path := path;
      table := stored;
    }

    /**
      Opens the database at `dbPath` (or the default path) whose file already
      holds `stored`, and makes sure the table exists. Creating the table is
      idempotent, so records already on disk are kept.
    */
    static method New(dbPath: string, stored: Table, openFault: Option<string>, schemaFault: Option<string>)
      returns (r: Repo?, err: Option<RepoError>)
      ensures err.None? <==> openFault.None? && schemaFault.None?
      ensures err.None? ==> r != null && fresh(r) && r.path == ResolvePath(dbPath) && r.table == stored
      ensures err.Some? ==> r == null && err.value.Storage?
      ensures openFault.Some? ==> err == Some(Storage(OpenDatabase, Failure(openFault.value)))
      ensures openFault.None? && schemaFault.Some? ==> err == Some(Storage(CreateTable, Failure(schemaFault.value)))
    {
      var p := ResolvePath(dbPath);
      if openFault.Some? {
        return null, Some(Storage(OpenDatabase, Failure(openFault.value)));
      }
      if schemaFault.Some? {
        return null, Some(Storage(CreateTable, Failure(schemaFault.value)));
      }
      r := new Repo.Open(p, stored);
      err := None;
    }

    /** Retrieves the value stored for `key`, stepping the row cursor of a SELECT. */
    method Get(key: string, e: Engine) returns (value: string, err: Option<RepoError>)
      ensures Fetched(value, err) == GetOutcome(table, key, e)
    {
      if e.statement.Some? {
        return "", Some(Storage(PrepareStatement, Failure(e.statement.value)));
      }
      // the rows of the SELECT: at most one, since `key` is the primary key
      var rows: seq<string> := if key in table then [table[key]] else [];
      // rows.Next() is false when there is no row and also when the cursor fails;
      // the cursor's own error is never consulted
      if |rows| == 0 || e.cursor.Some? {
        return "", Some(KeyNotFound(key));
      }
      if e.scan.Some? {
        return "", Some(Storage(QueryPair, Failure(e.scan.value)));
      }
      value, err := rows[0], None;
    }

    /** Inserts a new record; a duplicate key fails as a wrapped storage error. */
    method Create(key: string, value: string, e: Engine) returns (err: Option<RepoError>)
      modifies this
      ensures Effect(err, table) == CreateOutcome(old(table), key, value, e)
      ensures key in old(table) ==> table == old(table) && err.Some? && !err.value.KeyExists?
    {
      if e.statement.Some? {
        return Some(Storage(InsertPair, Failure(e.statement.value)));
      }
      if key in table {
        return Some(Storage(InsertPair, UniqueConstraint(key)));
      }
      table := table[key := value];
      err := None;
    }

    /** Replaces the value of an existing record; no record means `KeyNotFound`. */
    method Update(key: string, value: string, e: Engine) returns (err: Option<RepoError>)
      modifies this
      ensures Effect(err, table) == UpdateOutcome(old(table), key, value, e)
      ensures key !in old(table) ==> table == old(table) && err.Some?
    {
      if e.statement.Some? {
        return Some(Storage(UpdatePair, Failure(e.statement.value)));
      }
      var rowsAffected := if key in table then 1 else 0;
      if rowsAffected == 0 {
        return Some(KeyNotFound(key));
      }
      table := table[key := value];
      err := None;
    }

    /** Removes a record; no record means `KeyNotFound`. */
    method Delete(key: string, e: Engine) returns (err: Option<RepoError>)
      modifies this
      ensures Effect(err, table) == DeleteOutcome(old(table), key, e)
      ensures e.statement.None? ==> key !in table
    {
      if e.statement.Some? {
        return Some(Storage(DeletePair, Failure(e.statement.value)));
      }
      var rowsAffected := if key in table then 1 else 0;
      if rowsAffected == 0 {
        return Some(KeyNotFound(key));
      }
      table := table - {key};
      err := None;
    }
  }

  /** A record created under a fresh key is read back. */
  lemma CreateThenGet(t: Table, key: string, value: string)
    requires key !in t
    ensures CreateOutcome(t, key, value, Healthy).err.None?
    ensures GetOutcome(CreateOutcome(t, key, value, Healthy).table, key, Healthy) == Fetched(value, None)
  {
  }

  /** A second create of the same key fails, and the first value stays stored. */
  lemma CreateTwiceKeepsFirst(t: Table, key: string, v1: string, v2: string)
    requires key !in t
    ensures var t1 := CreateOutcome(t, key, v1, Healthy).table;
      && CreateOutcome(t1, key, v2, Healthy).err == Some(Storage(InsertPair, UniqueConstraint(key)))
      && GetOutcome(CreateOutcome(t1, key, v2, Healthy).table, key, Healthy) == Fetched(v1, None)
  {
  }

  /** Create, then update, then read: the last write wins. */
  lemma LastWriteWins(t: Table, key: string, v1: string, v2: string)
    requires key !in t
    ensures var t1 := CreateOutcome(t, key, v1, Healthy).table;
      && UpdateOutcome(t1, key, v2, Healthy).err.None?
      && GetOutcome(UpdateOutcome(t1, key, v2, Healthy).table, key, Healthy) == Fetched(v2, None)
  {
  }

  /** After a successful delete, the key reads as not found. */
  lemma DeleteThenGet(t: Table, key: string)
    requires key in t
    ensures DeleteOutcome(t, key, Healthy).err.None?
    ensures GetOutcome(DeleteOutcome(t, key, Healthy).table, key, Healthy) == Fetched("", Some(KeyNotFound(key)))
  {
  }
}
