/** The migration record and the abstract storage driver that the engine drives. */
module Records {
  import opened Base

  /** A point in time as the driver stores it; only its presence matters to the engine. */
  type Timestamp = int

  /** A migration record. The same shape serves the proposed records (from a scan
      or the caller), the applied records (from the driver's history) and the
      executable records handed to the driver. Fields a JavaScript object may lack
      are optional; a present `timestamp` stands for a truthy one. */
  datatype Migration = Migration(
    level: int,
    script: string,
    filename: Option<string>,
    comment: Option<string>,
    directives: Option<map<string, Value>>,
    audit: Option<Value>,
    namespace: Option<string>,
    timestamp: Option<Timestamp>,
    checksum: Option<string>)

  /** A proposed record carrying only a level and a script, as callers and tests write them. */
  function Proposed(level: int, script: string, namespace: Option<string>): Migration
  {
    Migration(level, script, None, None, None, None, namespace, None, None)
  }

  /** The operations of the driver capability. */
  datatype Call =
    | Connect
    | Disconnect
    | EnsureMigrations
    | LockMigrations
    | UnlockMigrations
    | GetMigrations
    | RunMigration(migration: Migration)
    | DropMigrations

  /** What a driver answers: the applied records `getMigrations` returns, and the
      calls that fail, by their position in the driver's call trace. */
  datatype DriverScript = DriverScript(history: seq<Migration>, failAt: map<nat, Error>)
  {
    /** The outcome of the call made at position `n` of the trace. */
    function Outcome(n: nat): (r: Option<Error>)
      ensures r.Some? <==> n in failAt
      ensures r.Some? ==> r.value == failAt[n]
    {
      if n in failAt then Some(failAt[n]) else None
    }
  }

  /** The calls an operation makes and the error it ends with, if any. */
  datatype Run = Run(calls: seq<Call>, err: Option<Error>)

  function Prepend(calls: seq<Call>, r: Run): Run
  {
    Run(calls + r.calls, r.err)
  }

  /** A driver that records every call made to it and answers as its script says. */
  class Driver {
    var trace: seq<Call>
    const script: DriverScript

    constructor (script: DriverScript)
      ensures this.script == script && trace == []
    {
      this.script := script;
      trace := [];
    }

    method Invoke(c: Call) returns (err: Option<Error>)
      modifies this
      ensures trace == old(trace) + [c]
      ensures err == script.Outcome(|old(trace)|)
    {
      err := script.Outcome(|trace|);
      trace := trace + [c];
    }

    method Connect() returns (err: Option<Error>)
      modifies this
      ensures trace == old(trace) + [Call.Connect]
      ensures err == script.Outcome(|old(trace)|)
    {
      err := Invoke(Call.Connect);
    }

    method Disconnect() returns (err: Option<Error>)
      modifies this
      ensures trace == old(trace) + [Call.Disconnect]
      ensures err == script.Outcome(|old(trace)|)
    {
      err := Invoke(Call.Disconnect);
    }

    method EnsureMigrations() returns (err: Option<Error>)
      modifies this
      ensures trace == old(trace) + [Call.EnsureMigrations]
      ensures err == script.Outcome(|old(trace)|)
    {
      err := Invoke(Call.EnsureMigrations);
    }

    method LockMigrations() returns (err: Option<Error>)
      modifies this
      ensures trace == old(trace) + [Call.LockMigrations]
      ensures err == script.Outcome(|old(trace)|)
    {
      err := Invoke(Call.LockMigrations);
    }

    method UnlockMigrations() returns (err: Option<Error>)
      modifies this
      ensures trace == old(trace) + [Call.UnlockMigrations]
      ensures err == script.Outcome(|old(trace)|)
    {
      err := Invoke(Call.UnlockMigrations);
    }

    /** Reads the history of applied records, across all namespaces. */
    method GetMigrations() returns (r: Result<seq<Migration>>)
      modifies this
      ensures trace == old(trace) + [Call.GetMigrations]
      ensures r == match script.Outcome(|old(trace)|)
                   case Some(e) => Err(e)
                   case None => Ok(script.history)
    {
      var err := Invoke(Call.GetMigrations);
      r := if err.Some? then Err(err.value) else Ok(script.history);
    }

    method RunMigration(m: Migration) returns (err: Option<Error>)
      modifies this
      ensures trace == old(trace) + [Call.RunMigration(m)]
      ensures err == script.Outcome(|old(trace)|)
    {
      err := Invoke(Call.RunMigration(m));
    }

    method DropMigrations() returns (err: Option<Error>)
      modifies this
      ensures trace == old(trace) + [Call.DropMigrations]
      ensures err == script.Outcome(|old(trace)|)
    {
      err := Invoke(Call.DropMigrations);
    }
  }
}
