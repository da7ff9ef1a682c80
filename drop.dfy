/** lib/drop.js: connect, drop the migration history, and disconnect whatever
    happened. `DropRun` is the reference definition of the calls made and the
    error reported; `Drop` is the procedure, proved to match it. */
module Drop {
  import opened Base
  import opened Records

  /** connect, then dropMigrations if connect succeeded, then disconnect in every
      case; the first of the connect or drop errors wins, then the disconnect error. */
  function DropRun(s: DriverScript, n: nat): (r: Run)
    ensures 2 <= |r.calls| <= 3 && r.calls[0] == Connect && r.calls[|r.calls| - 1] == Disconnect
    ensures r.err.None? ==> r.calls == [Connect, DropMigrations, Disconnect]
  {
    match s.Outcome(n)
    case Some(e) => Run([Connect, Disconnect], Some(e))
    case None =>
      match s.Outcome(n + 1)
      case Some(e) => Run([Connect, DropMigrations, Disconnect], Some(e))
      case None => Run([Connect, DropMigrations, Disconnect], s.Outcome(n + 2))
  }

  /** `drop(driver, cb)`. */
  method Drop(driver: Driver) returns (err: Option<Error>)
    modifies driver
    ensures driver.trace == old(driver.trace) + DropRun(driver.script, |old(driver.trace)|).calls
    ensures err == DropRun(driver.script, |old(driver.trace)|).err
  {
    var mainErr := driver.Connect();
    if mainErr.None? {
      mainErr := driver.DropMigrations();
    }
    var disconnectErr := driver.Disconnect();
    err := if mainErr.Some? then mainErr else disconnectErr;
  }

  /** The error of the first call at positions `n`, `n + 1`, ... `n + count - 1` that fails. */
  function FirstFailure(s: DriverScript, n: nat, count: nat): (r: Option<Error>)
    ensures r.None? <==> forall k :: n <= k < n + count ==> s.Outcome(k).None?
    decreases count
  {
    if count == 0 then None
    else if s.Outcome(n).Some? then s.Outcome(n)
    else FirstFailure(s, n + 1, count - 1)
  }

  /** The history is dropped exactly when connect succeeded; disconnect is called
      exactly once, last, in every outcome. */
  lemma DropCalls(s: DriverScript, n: nat)
    ensures var calls := DropRun(s, n).calls;
      && calls[0] == Connect
      && (DropMigrations in calls <==> n !in s.failAt)
      && calls[|calls| - 1] == Disconnect
      && Disconnect !in calls[..|calls| - 1]
  {
  }

  /** The reported error is that of the first failing call, so the connect or
      drop error takes precedence over the disconnect error; no error is reported
      exactly when every call succeeded. */
  lemma DropReportsFirstFailure(s: DriverScript, n: nat)
    ensures DropRun(s, n).err == FirstFailure(s, n, |DropRun(s, n).calls|)
    ensures DropRun(s, n).err.None? <==> forall k :: n <= k < n + |DropRun(s, n).calls| ==> s.Outcome(k).None?
  {
    if s.Outcome(n).Some? {
      assert FirstFailure(s, n, 2) == s.Outcome(n);
    } else if s.Outcome(n + 1).Some? {
      assert FirstFailure(s, n + 1, 2) == s.Outcome(n + 1);
    } else {
      assert FirstFailure(s, n + 2, 1) == s.Outcome(n + 2) by {
        assert FirstFailure(s, n + 3, 0) == None;
      }
    }
  }

  /** Against a driver that fails nothing, drop succeeds and the history is dropped. */
  lemma FaultlessDrop(s: DriverScript, n: nat)
    requires s.failAt == map[]
    ensures DropRun(s, n) == Run([Connect, DropMigrations, Disconnect], None)
  {
  }
}
