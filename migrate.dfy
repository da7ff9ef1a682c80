/** lib/migrate.js: the run protocol. `Protocol` is the reference definition of
    what a run does to a driver (the calls it makes, in order, and the error it
    reports); `Migrate` is the step-by-step procedure, proved to make exactly
    those calls and to report exactly that error. */
module Migrate {
  import opened Base
  import opened Records
  import opened Selection

  // ------------------------------------------------------ reference definition

  /** `runMigrations`: the eligible records from position `i` on, in turn,
      stopping at the first failure; `n` is the trace position of the next call. */
  function RunEligible(es: seq<Migration>, i: nat, s: DriverScript, n: nat): Run
    requires i <= |es|
    decreases |es| - i
  {
    if i == |es| then Run([], None)
    else
      match s.Outcome(n)
      case Some(e) => Run([RunMigration(es[i])], Some(e))
      case None => Prepend([RunMigration(es[i])], RunEligible(es, i + 1, s, n + 1))
  }

  /** `getWatermark` and `getEligibleMigrations` for one namespace: only that
      namespace's history and proposed records are consulted. */
  function Select(ns: string, stamped: seq<Migration>, history: seq<Migration>,
                  now: Timestamp, hash: string -> string): Result<seq<Migration>>
  {
    var previous := InNamespace(history, ns);
    Eligible(ns, Watermark(previous), previous, InNamespace(stamped, ns), now, hash)
  }

  function Selections(nss: seq<string>, stamped: seq<Migration>, history: seq<Migration>,
                      now: Timestamp, hash: string -> string): (r: seq<Result<seq<Migration>>>)
    ensures |r| == |nss|
    ensures forall i :: 0 <= i < |nss| ==> r[i] == Select(nss[i], stamped, history, now, hash)
  {
    seq(|nss|, i requires 0 <= i < |nss| => Select(nss[i], stamped, history, now, hash))
  }

  /** One namespace: a failed selection ends the run; otherwise its records run. */
  function NamespaceRun(selection: Result<seq<Migration>>, s: DriverScript, n: nat): Run
  {
    match selection
    case Err(e) => Run([], Some(e))
    case Ok(es) => RunEligible(es, 0, s, n)
  }

  /** `namespaceMigrations`: the namespaces from position `i` on, in turn,
      stopping at the first that fails. */
  function NamespacesRun(selections: seq<Result<seq<Migration>>>, i: nat, s: DriverScript, n: nat): (r: Run)
    requires i <= |selections|
    ensures r.err.None? ==> forall k :: i <= k < |selections| ==> selections[k].Ok?
    decreases |selections| - i
  {
    if i == |selections| then Run([], None)
    else
      var r := NamespaceRun(selections[i], s, n);
      if r.err.Some? then r
      else Prepend(r.calls, NamespacesRun(selections, i + 1, s, n + |r.calls|))
  }

  /** The selections of a run, one per namespace of the proposed records, in first-seen order. */
  function RunSelections(migrations: seq<Migration>, history: seq<Migration>,
                         now: Timestamp, hash: string -> string): seq<Result<seq<Migration>>>
  {
    var stamped := StampDefaultNamespaces(migrations);
    Selections(Namespaces(stamped), stamped, history, now, hash)
  }

  const Header: seq<Call> := [Connect, EnsureMigrations, LockMigrations, GetMigrations]

  /** The outcome of the main sequence and whether connect succeeded. */
  datatype MainOutcome = MainOutcome(connected: bool, run: Run)

  /** connect, ensureMigrations, lockMigrations, getMigrations; fail-fast. */
  function Opening(s: DriverScript, n: nat): (r: MainOutcome)
    ensures r.connected <==> n !in s.failAt
    ensures 0 < |r.run.calls| && r.run.calls <= Header
    ensures r.run.err.None? ==> r.run.calls == Header
  {
    match s.Outcome(n)
    case Some(e) => MainOutcome(false, Run([Connect], Some(e)))
    case None =>
      match s.Outcome(n + 1)
      case Some(e) => MainOutcome(true, Run([Connect, EnsureMigrations], Some(e)))
      case None =>
        match s.Outcome(n + 2)
        case Some(e) => MainOutcome(true, Run([Connect, EnsureMigrations, LockMigrations], Some(e)))
        case None => MainOutcome(true, Run(Header, s.Outcome(n + 3)))
  }

  /** The opening steps, then `namespaceMigrations` over the namespaces' selections
      (which depend on the history the driver returns, `s.history`). */
  function MainSequence(selections: seq<Result<seq<Migration>>>, s: DriverScript, n: nat): (r: MainOutcome)
    ensures r.connected <==> n !in s.failAt
    ensures 0 < |r.run.calls| && r.run.calls[0] == Connect
  {
    var opening := Opening(s, n);
    if opening.run.err.Some? then opening
    else MainOutcome(true, Prepend(Header, NamespacesRun(selections, 0, s, n + 4)))
  }

  /** unlock, then disconnect unless unlock failed. */
  function Cleanup(s: DriverScript, n: nat): (r: seq<Call>)
    ensures 0 < |r| && r[0] == UnlockMigrations
    ensures Disconnect in r <==> n !in s.failAt
  {
    if s.Outcome(n).Some? then [UnlockMigrations] else [UnlockMigrations, Disconnect]
  }

  /** The main sequence, then cleanup if connect succeeded; the reported error is
      the main sequence's, whatever cleanup does. */
  function Execution(selections: seq<Result<seq<Migration>>>, s: DriverScript, n: nat): (r: Run)
    ensures r.err == MainSequence(selections, s, n).run.err
  {
    var main := MainSequence(selections, s, n);
    if !main.connected then main.run
    else Run(main.run.calls + Cleanup(s, n + |main.run.calls|), main.run.err)
  }

  /** A whole run of `migrate` over the proposed records, starting at trace position `n`. */
  function Protocol(migrations: seq<Migration>, s: DriverScript, n: nat,
                    now: Timestamp, hash: string -> string): (r: Run)
    ensures 0 < |r.calls| && r.calls[0] == Connect
  {
    Execution(RunSelections(migrations, s.history, now, hash), s, n)
  }

  // --------------------------------------------------------------- procedure

  /** `runMigrations`: `async.eachSeries` over the eligible records. */
  method RunMigrations(driver: Driver, es: seq<Migration>) returns (err: Option<Error>)
    modifies driver
    ensures driver.trace == old(driver.trace) + RunEligible(es, 0, driver.script, |old(driver.trace)|).calls
    ensures err == RunEligible(es, 0, driver.script, |old(driver.trace)|).err
  {
    ghost var t0 := driver.trace;
    ghost var whole := RunEligible(es, 0, driver.script, |t0|);
    ghost var done: seq<Call> := [];
    err := None;
    var i := 0;
    while i < |es| && err.None?
      invariant 0 <= i <= |es|
      invariant driver.trace == t0 + done
      invariant err.None? ==> whole == Prepend(done, RunEligible(es, i, driver.script, |driver.trace|))
      invariant err.Some? ==> whole == Run(done, err)
      decreases |es| - i
    {
      ghost var n := |driver.trace|;
      ghost var step := [RunMigration(es[i])];
      ghost var tail := RunEligible(es, i + 1, driver.script, n + 1);
      ghost var r := Run(step, driver.script.Outcome(n));
      assert RunEligible(es, i, driver.script, n) == if r.err.Some? then r else Prepend(step, tail);
      err := driver.RunMigration(es[i]);
      StepRun(whole, done, RunEligible(es, i, driver.script, n), r, tail);
      ConcatAssoc(t0, done, step);
      done := done + step;
      assert |driver.trace| == n + 1;
      i := i + 1;
    }
  }

  /** The body of the namespace loop: a failed selection is the namespace's
      error; otherwise its eligible records run. */
  method MigrateNamespace(driver: Driver, selection: Result<seq<Migration>>) returns (err: Option<Error>)
    modifies driver
    ensures driver.trace == old(driver.trace) + NamespaceRun(selection, driver.script, |old(driver.trace)|).calls
    ensures err == NamespaceRun(selection, driver.script, |old(driver.trace)|).err
  {
    if selection.Err? {
      err := Some(selection.error);
    } else {
      err := RunMigrations(driver, selection.value);
    }
  }

  /** `namespaceMigrations`: each namespace of the proposed records, in first-seen
      order, gets its watermark and its eligible records, which then run. */
  method NamespaceMigrations(driver: Driver, migrations: seq<Migration>, existing: seq<Migration>,
                             now: Timestamp, hash: string -> string) returns (err: Option<Error>)
    modifies driver
    ensures var r := NamespacesRun(RunSelections(migrations, existing, now, hash), 0, driver.script, |old(driver.trace)|);
      driver.trace == old(driver.trace) + r.calls && err == r.err
  {
    var stamped := StampDefaultNamespaces(migrations);
    var namespaces := Namespaces(stamped);
    var selections := Selections(namespaces, stamped, existing, now, hash);
    err := MigrateSelections(driver, selections);
  }

  /** `async.eachSeries` over the namespaces' selections, stopping at the first error. */
  method MigrateSelections(driver: Driver, selections: seq<Result<seq<Migration>>>) returns (err: Option<Error>)
    modifies driver
    ensures var r := NamespacesRun(selections, 0, driver.script, |old(driver.trace)|);
      driver.trace == old(driver.trace) + r.calls && err == r.err
  {
    ghost var t0 := driver.trace;
    ghost var whole := NamespacesRun(selections, 0, driver.script, |t0|);
    ghost var done: seq<Call> := [];
    err := None;
    var i := 0;
    while i < |selections| && err.None?
      invariant 0 <= i <= |selections|
      invariant driver.trace == t0 + done
      invariant err.None? ==> whole == Prepend(done, NamespacesRun(selections, i, driver.script, |driver.trace|))
      invariant err.Some? ==> whole == Run(done, err)
      decreases |selections| - i
    {
      ghost var n := |driver.trace|;
      ghost var r := NamespaceRun(selections[i], driver.script, n);
      ghost var tail := NamespacesRun(selections, i + 1, driver.script, n + |r.calls|);
      assert NamespacesRun(selections, i, driver.script, n) == if r.err.Some? then r else Prepend(r.calls, tail);
      err := MigrateNamespace(driver, selections[i]);
      StepRun(whole, done, NamespacesRun(selections, i, driver.script, n), r, tail);
      ConcatAssoc(t0, done, r.calls);
      done := done + r.calls;
      assert |driver.trace| == n + |r.calls|;
      i := i + 1;
    }
  }

  /** One step of a fail-fast loop: the run so far, a step `r`, and what follows. */
  lemma StepRun(whole: Run, done: seq<Call>, rest: Run, r: Run, tail: Run)
    requires whole == Prepend(done, rest)
    requires rest == if r.err.Some? then r else Prepend(r.calls, tail)
    ensures r.err.None? ==> whole == Prepend(done + r.calls, tail)
    ensures r.err.Some? ==> whole == Run(done + r.calls, r.err)
  {
  }

  /** The opening steps of `migrate`; on success the history is returned. */
  method Open(driver: Driver) returns (connected: bool, err: Option<Error>, existing: seq<Migration>)
    modifies driver
    ensures var opening := Opening(driver.script, |old(driver.trace)|);
      && driver.trace == old(driver.trace) + opening.run.calls
      && err == opening.run.err && connected == opening.connected
      && (err.None? ==> opening.run.calls == Header && existing == driver.script.history)
  {
    existing := [];
    connected := false;
    err := driver.Connect();
    if err.None? {
      connected := true;
      err := driver.EnsureMigrations();
      if err.None? {
        err := driver.LockMigrations();
        if err.None? {
          var history := driver.GetMigrations();
          if history.Err? {
            err := Some(history.error);
          } else {
            existing := history.value;
          }
        }
      }
    }
  }

  /** The main sequence of `migrate`, reporting whether connect succeeded. */
  method MainSteps(driver: Driver, migrations: seq<Migration>, now: Timestamp, hash: string -> string)
      returns (connected: bool, err: Option<Error>)
    modifies driver
    ensures var main := MainSequence(RunSelections(migrations, driver.script.history, now, hash), driver.script, |old(driver.trace)|);
      driver.trace == old(driver.trace) + main.run.calls && err == main.run.err && connected == main.connected
  {
    ghost var t0 := driver.trace;
    var existing;
    connected, err, existing := Open(driver);
    if err.None? {
      ghost var mid := driver.trace;
      assert |mid| == |t0| + 4;
      ghost var rest := NamespacesRun(RunSelections(migrations, existing, now, hash), 0, driver.script, |mid|);
      err := NamespaceMigrations(driver, migrations, existing, now, hash);
      ConcatAssoc(t0, Header, rest.calls);
    }
  }

  /** `migrate(migrations, driver, options, cb)`. The `connected` flag decides
      whether cleanup runs; cleanup errors are discarded. */
  method Migrate(migrations: seq<Migration>, driver: Driver, now: Timestamp, hash: string -> string)
      returns (err: Option<Error>)
    modifies driver
    ensures driver.trace == old(driver.trace) + Protocol(migrations, driver.script, |old(driver.trace)|, now, hash).calls
    ensures err == Protocol(migrations, driver.script, |old(driver.trace)|, now, hash).err
  {
    ghost var s := driver.script;
    ghost var t0 := driver.trace;
    ghost var selections := RunSelections(migrations, s.history, now, hash);
    ghost var main := MainSequence(selections, s, |t0|);
    ghost var whole := Execution(selections, s, |t0|);
    assert Protocol(migrations, s, |t0|, now, hash) == whole;
    var connected, mainErr := MainSteps(driver, migrations, now, hash);
    if !connected {
      assert whole == main.run;
      return mainErr;
    }
    ghost var mid := driver.trace;
    ghost var cleanup := Cleanup(s, |mid|);
    assert whole == Run(main.run.calls + cleanup, main.run.err);
    var unlockErr := driver.UnlockMigrations();
    if unlockErr.None? {
      var disconnectErr := driver.Disconnect();
      ConcatAssoc(mid, [UnlockMigrations], [Disconnect]);
    }
    assert driver.trace == mid + cleanup;
    ConcatAssoc(t0, main.run.calls, cleanup);
    err := mainErr;
  }

  // -------------------------------------------------------------- properties

  /** The driver calls that run the given records, in order. */
  function RunCalls(es: seq<Migration>): (r: seq<Call>)
    ensures |r| == |es|
    ensures forall j :: 0 <= j < |es| ==> r[j] == RunMigration(es[j])
  {
    if es == [] then [] else [RunMigration(es[0])] + RunCalls(es[1..])
  }

  /** `runMigrations` asks the driver to run a prefix of the records, all of them
      when it succeeds. */
  lemma {:induction false} RunEligibleCalls(es: seq<Migration>, i: nat, s: DriverScript, n: nat)
    requires i <= |es|
    ensures var r := RunEligible(es, i, s, n);
      && r.calls <= RunCalls(es[i..])
      && (r.err.None? ==> r.calls == RunCalls(es[i..]))
    decreases |es| - i
  {
    if i < |es| && s.Outcome(n).None? {
      RunEligibleCalls(es, i + 1, s, n + 1);
      assert es[i..] == [es[i]] + es[i + 1..];
      RunCallsAppend([es[i]], es[i + 1..]);
    } else if i < |es| {
      assert es[i..] == [es[i]] + es[i + 1..];
      RunCallsAppend([es[i]], es[i + 1..]);
    }
  }

  /** `runMigrations` stops at the first failure: it succeeds exactly when every
      call succeeds, and otherwise its error is that of its last call, every
      earlier one having succeeded. */
  lemma {:induction false} RunEligibleStops(es: seq<Migration>, i: nat, s: DriverScript, n: nat)
    requires i <= |es|
    ensures var r := RunEligible(es, i, s, n);
      && (r.err.None? <==> forall k :: n <= k < n + |es| - i ==> s.Outcome(k).None?)
      && (r.err.Some? ==> |r.calls| > 0 && r.err == s.Outcome(n + |r.calls| - 1)
                          && forall k :: n <= k < n + |r.calls| - 1 ==> s.Outcome(k).None?)
    decreases |es| - i
  {
    if i < |es| && s.Outcome(n).None? {
      RunEligibleStops(es, i + 1, s, n + 1);
    }
  }

  /** The records the selections from position `i` on would run, up to the first
      selection that failed. */
  function Planned(selections: seq<Result<seq<Migration>>>, i: nat): seq<Migration>
    requires i <= |selections|
    decreases |selections| - i
  {
    if i == |selections| then []
    else
      match selections[i]
      case Err(_) => []
      case Ok(es) => es + Planned(selections, i + 1)
  }

  /** `namespaceMigrations` asks the driver to run a prefix of the planned records,
      and succeeds only after running all of them with no selection failing. */
  lemma {:induction false} NamespacesRunCalls(selections: seq<Result<seq<Migration>>>, i: nat, s: DriverScript, n: nat)
    requires i <= |selections|
    ensures var r := NamespacesRun(selections, i, s, n);
      && r.calls <= RunCalls(Planned(selections, i))
      && (r.err.None? ==> r.calls == RunCalls(Planned(selections, i)))
      && (r.err.None? ==> forall k :: i <= k < |selections| ==> selections[k].Ok?)
    decreases |selections| - i
  {
    if i < |selections| && selections[i].Ok? {
      var es := selections[i].value;
      var r := NamespaceRun(selections[i], s, n);
      RunEligibleCalls(es, 0, s, n);
      assert es[0..] == es;
      var planned := RunCalls(Planned(selections, i + 1));
      RunCallsAppend(es, Planned(selections, i + 1));
      assert RunCalls(Planned(selections, i)) == RunCalls(es) + planned;
      if r.err.None? {
        var tail := NamespacesRun(selections, i + 1, s, n + |r.calls|);
        NamespacesRunCalls(selections, i + 1, s, n + |r.calls|);
        assert NamespacesRun(selections, i, s, n) == Prepend(r.calls, tail);
        PrefixAppend(r.calls, tail.calls, planned);
      } else {
        assert NamespacesRun(selections, i, s, n) == r;
        PrefixAppend(r.calls, [], planned);
      }
    }
  }

  lemma PrefixAppend<T>(a: seq<T>, b: seq<T>, c: seq<T>)
    requires b <= c
    ensures a + b <= a + c
  {
    assert (a + c)[..|a + b|] == a + c[..|b|];
  }

  /** When no selection fails and the driver fails no call, `namespaceMigrations` succeeds. */
  lemma {:induction false} NamespacesRunSucceeds(selections: seq<Result<seq<Migration>>>, i: nat, s: DriverScript, n: nat)
    requires i <= |selections|
    requires forall k :: i <= k < |selections| ==> selections[k].Ok?
    requires forall k :: n <= k < n + |Planned(selections, i)| ==> s.Outcome(k).None?
    ensures NamespacesRun(selections, i, s, n).err.None?
    decreases |selections| - i
  {
    if i < |selections| {
      var es := selections[i].value;
      RunEligibleStops(es, 0, s, n);
      RunEligibleCalls(es, 0, s, n);
      assert es[0..] == es;
      NamespacesRunSucceeds(selections, i + 1, s, n + |es|);
    }
  }

  lemma {:induction false} RunCallsAppend(a: seq<Migration>, b: seq<Migration>)
    ensures RunCalls(a + b) == RunCalls(a) + RunCalls(b)
  {
    var r := RunCalls(a + b);
    var t := RunCalls(a) + RunCalls(b);
    forall j | 0 <= j < |r| ensures r[j] == t[j] {
      if j < |a| {
        assert (a + b)[j] == a[j];
      } else {
        assert (a + b)[j] == b[j - |a|];
      }
    }
  }

  /** Only driver calls that run a record come out of `namespaceMigrations`. */
  lemma OnlyRunCalls(calls: seq<Call>, es: seq<Migration>)
    requires calls <= RunCalls(es)
    ensures forall k :: 0 <= k < |calls| ==> calls[k].RunMigration? && calls[k].migration in es
  {
    forall k | 0 <= k < |calls| ensures calls[k].RunMigration? && calls[k].migration in es {
      assert calls[k] == RunCalls(es)[k];
    }
  }

  /** No call made at positions `n` to `n + count - 1` fails. */
  predicate NoFailures(s: DriverScript, n: nat, count: nat)
  {
    forall k :: n <= k < n + count ==> s.Outcome(k).None?
  }

  /** Of `count` calls made from position `n`, every one but the last succeeded,
      the last failed, and `err` is its error. */
  predicate FailsLast(s: DriverScript, n: nat, count: nat, err: Option<Error>)
  {
    && count > 0 && NoFailures(s, n, count - 1)
    && n + count - 1 in s.failAt && err == Some(s.failAt[n + count - 1])
  }

  /** The error of the first selection from position `i` on that failed, if any. */
  function FirstSelectionError(selections: seq<Result<seq<Migration>>>, i: nat): (r: Option<Error>)
    requires i <= |selections|
    ensures r.None? <==> forall k :: i <= k < |selections| ==> selections[k].Ok?
    decreases |selections| - i
  {
    if i == |selections| then None
    else
      match selections[i]
      case Err(e) => Some(e)
      case Ok(_) => FirstSelectionError(selections, i + 1)
  }

  /** What `namespaceMigrations` from position `i` promises of its run `r`: on
      success no call failed; on failure either its last call failed (every
      earlier one having succeeded) and that error is reported, or no call
      failed, every planned record ran, and the error is that of the first
      failed selection. */
  predicate StopsAtFirstFailure(selections: seq<Result<seq<Migration>>>, i: nat, s: DriverScript, n: nat, r: Run)
    requires i <= |selections|
  {
    && (r.err.None? ==> NoFailures(s, n, |r.calls|))
    && (r.err.Some? ==>
          || FailsLast(s, n, |r.calls|, r.err)
          || (&& NoFailures(s, n, |r.calls|)
              && r.calls == RunCalls(Planned(selections, i))
              && r.err == FirstSelectionError(selections, i)))
  }

  lemma NoFailuresAppend(s: DriverScript, n: nat, a: nat, b: nat)
    requires NoFailures(s, n, a) && NoFailures(s, n + a, b)
    ensures NoFailures(s, n, a + b)
  {
  }

  lemma FailsLastShift(s: DriverScript, n: nat, a: nat, b: nat, err: Option<Error>)
    requires NoFailures(s, n, a) && FailsLast(s, n + a, b, err)
    ensures FailsLast(s, n, a + b, err)
  {
    NoFailuresAppend(s, n, a, b - 1);
  }

  /** A namespace whose records all ran keeps the promise of the namespaces after it. */
  lemma StopsStep(selections: seq<Result<seq<Migration>>>, i: nat, s: DriverScript, n: nat, calls: seq<Call>, tail: Run)
    requires i < |selections| && selections[i].Ok?
    requires calls == RunCalls(selections[i].value) && NoFailures(s, n, |calls|)
    requires StopsAtFirstFailure(selections, i + 1, s, n + |calls|, tail)
    ensures StopsAtFirstFailure(selections, i, s, n, Prepend(calls, tail))
  {
    var r := Prepend(calls, tail);
    var m := |calls|;
    if tail.err.None? || NoFailures(s, n + m, |tail.calls|) {
      NoFailuresAppend(s, n, m, |tail.calls|);
    }
    if tail.err.Some? && FailsLast(s, n + m, |tail.calls|, tail.err) {
      FailsLastShift(s, n, m, |tail.calls|, tail.err);
    }
    RunCallsAppend(selections[i].value, Planned(selections, i + 1));
  }

  /** `namespaceMigrations` is fail-fast, and reports the error it stopped at. */
  lemma {:induction false} NamespacesRunStops(selections: seq<Result<seq<Migration>>>, i: nat, s: DriverScript, n: nat)
    requires i <= |selections|
    ensures StopsAtFirstFailure(selections, i, s, n, NamespacesRun(selections, i, s, n))
    decreases |selections| - i
  {
    if i < |selections| && selections[i].Ok? {
      var es := selections[i].value;
      var step := RunEligible(es, 0, s, n);
      RunEligibleStops(es, 0, s, n);
      if step.err.None? {
        RunEligibleCalls(es, 0, s, n);
        assert es[0..] == es;
        var tail := NamespacesRun(selections, i + 1, s, n + |step.calls|);
        NamespacesRunStops(selections, i + 1, s, n + |step.calls|);
        assert NamespacesRun(selections, i, s, n) == Prepend(step.calls, tail);
        StopsStep(selections, i, s, n, step.calls, tail);
      }
    }
  }

  /** The opening steps are fail-fast: on success all four calls were made and
      none failed; on failure the last call made failed, every earlier one
      having succeeded, and its error is the one reported. */
  lemma OpeningStops(s: DriverScript, n: nat)
    ensures var opening := Opening(s, n);
      && (opening.run.err.None? ==> opening.run.calls == Header && NoFailures(s, n, 4))
      && (opening.run.err.Some? ==> FailsLast(s, n, |opening.run.calls|, opening.run.err))
  {
  }

  /** The main sequence is fail-fast: on success no call failed; on failure
      either its last call failed (every earlier one having succeeded) and that
      error is reported, or no call failed, every planned record ran, and the
      error is that of the first failed selection. */
  lemma MainSequenceStops(selections: seq<Result<seq<Migration>>>, s: DriverScript, n: nat)
    ensures var main := MainSequence(selections, s, n).run;
      && (main.err.None? ==> NoFailures(s, n, |main.calls|))
      && (main.err.Some? ==>
            || FailsLast(s, n, |main.calls|, main.err)
            || (&& NoFailures(s, n, |main.calls|)
                && main.calls == Header + RunCalls(Planned(selections, 0))
                && main.err == FirstSelectionError(selections, 0)))
  {
    var opening := Opening(s, n);
    OpeningStops(s, n);
    if opening.run.err.None? {
      var rest := NamespacesRun(selections, 0, s, n + 4);
      NamespacesRunStops(selections, 0, s, n + 4);
      assert MainSequence(selections, s, n).run == Prepend(Header, rest);
    }
  }

  /** A namespace's selection depends only on the history and the proposed
      records of that namespace. */
  lemma SelectIsLocal(ns: string, p1: seq<Migration>, p2: seq<Migration>, h1: seq<Migration>, h2: seq<Migration>,
                      now: Timestamp, hash: string -> string)
    requires InNamespace(h1, ns) == InNamespace(h2, ns)
    requires InNamespace(p1, ns) == InNamespace(p2, ns)
    ensures Select(ns, p1, h1, now, hash) == Select(ns, p2, h2, now, hash)
  {
  }

  /** In a run, the selection of a namespace stays the same whatever the history
      holds for other namespaces. */
  lemma RunSelectionIsLocal(migrations: seq<Migration>, h1: seq<Migration>, h2: seq<Migration>,
                            now: Timestamp, hash: string -> string, k: nat)
    requires var nss := Namespaces(StampDefaultNamespaces(migrations));
      k < |nss| && InNamespace(h1, nss[k]) == InNamespace(h2, nss[k])
    ensures k < |RunSelections(migrations, h1, now, hash)| && k < |RunSelections(migrations, h2, now, hash)|
    ensures RunSelections(migrations, h1, now, hash)[k] == RunSelections(migrations, h2, now, hash)[k]
  {
    var stamped := StampDefaultNamespaces(migrations);
    var nss := Namespaces(stamped);
    SelectIsLocal(nss[k], stamped, stamped, h1, h2, now, hash);
  }

  /** What one namespace's selection promises: its records carry that namespace
      and are timestamped `now`, lie above the namespace's watermark, and come in
      ascending order of level. */
  lemma SelectEligible(ns: string, stamped: seq<Migration>, history: seq<Migration>,
                       now: Timestamp, hash: string -> string)
    requires forall m :: m in stamped ==> m.namespace.Some?
    requires Select(ns, stamped, history, now, hash).Ok?
    ensures var es := Select(ns, stamped, history, now, hash).value;
      && SortedByLevel(es)
      && forall m :: m in es ==>
           m.namespace == Some(ns) && m.timestamp == Some(now)
           && m.level > Watermark(InNamespace(history, ns))
  {
    var previous := InNamespace(history, ns);
    var proposed := InNamespace(stamped, ns);
    forall p | p in proposed ensures p.namespace == Some(ns) {
      assert NamespaceKey(p) == ns;
    }
    EligibleRecords(ns, Watermark(previous), previous, proposed, now, hash);
    EligibleInNamespace(ns, Watermark(previous), previous, proposed, now, hash);
  }

  /** What a selection promises about the records it yields for namespace `ns`. */
  predicate SelectionPromise(selection: Result<seq<Migration>>, ns: string, history: seq<Migration>, now: Timestamp)
  {
    selection.Ok? ==>
      && SortedByLevel(selection.value)
      && forall m :: m in selection.value ==>
           m.namespace == Some(ns) && m.timestamp == Some(now)
           && m.level > Watermark(InNamespace(history, ns))
  }

  /** Every selection of a run keeps that promise. */
  lemma RunSelectionsPromise(migrations: seq<Migration>, history: seq<Migration>, now: Timestamp, hash: string -> string)
    ensures var stamped := StampDefaultNamespaces(migrations);
      var nss := Namespaces(stamped);
      var selections := RunSelections(migrations, history, now, hash);
      && |selections| == |nss|
      && forall k :: 0 <= k < |nss| ==> SelectionPromise(selections[k], nss[k], history, now)
  {
    var stamped := StampDefaultNamespaces(migrations);
    var nss := Namespaces(stamped);
    var selections := RunSelections(migrations, history, now, hash);
    forall k | 0 <= k < |nss| ensures SelectionPromise(selections[k], nss[k], history, now) {
      if selections[k].Ok? {
        SelectEligible(nss[k], stamped, history, now, hash);
      }
    }
  }

  /** Every planned record is eligible in its own namespace, one of those still to come. */
  lemma {:induction false} PlannedEligible(selections: seq<Result<seq<Migration>>>, nss: seq<string>,
                                           history: seq<Migration>, now: Timestamp, i: nat)
    requires i <= |selections| == |nss|
    requires forall k :: i <= k < |nss| ==> SelectionPromise(selections[k], nss[k], history, now)
    ensures forall m :: m in Planned(selections, i) ==>
      && m.timestamp == Some(now) && m.namespace.Some? && m.namespace.value in nss[i..]
      && m.level > Watermark(InNamespace(history, m.namespace.value))
    decreases |nss| - i
  {
    if i < |nss| && selections[i].Ok? {
      assert SelectionPromise(selections[i], nss[i], history, now);
      PlannedEligible(selections, nss, history, now, i + 1);
      assert nss[i..] == [nss[i]] + nss[i + 1..];
    }
  }

  // ------------------------------------------------------ the protocol stated

  /** A run is the execution of its selections. */
  lemma ProtocolExecutes(migrations: seq<Migration>, s: DriverScript, n: nat, now: Timestamp, hash: string -> string,
                         selections: seq<Result<seq<Migration>>>)
    requires RunSelections(migrations, s.history, now, hash) == selections
    ensures Protocol(migrations, s, n, now, hash) == Execution(selections, s, n)
  {
  }

  /** A failed connect is reported as is and nothing else is called: no cleanup. */
  lemma ConnectFailure(migrations: seq<Migration>, s: DriverScript, n: nat, now: Timestamp, hash: string -> string)
    requires n in s.failAt
    ensures Protocol(migrations, s, n, now, hash) == Run([Connect], Some(s.failAt[n]))
  {
  }

  /** The main sequence makes the opening calls, then runs a prefix of the planned
      records; when it reports no error it has run all of them, and it reports no
      error when no selection fails and the driver fails none of those calls. */
  lemma MainSequenceRuns(selections: seq<Result<seq<Migration>>>, s: DriverScript, n: nat)
    ensures var main := MainSequence(selections, s, n).run;
      var all := Header + RunCalls(Planned(selections, 0));
      && main.calls <= all
      && (main.err.None? ==> main.calls == all && forall k :: 0 <= k < |selections| ==> selections[k].Ok?)
      && ((forall k :: 0 <= k < |selections| ==> selections[k].Ok?)
          && (forall k :: n <= k < n + |all| ==> s.Outcome(k).None?)
          ==> main.err.None?)
  {
    MainSequenceCalls(selections, s, n);
    var all := Header + RunCalls(Planned(selections, 0));
    if (forall k :: 0 <= k < |selections| ==> selections[k].Ok?)
       && (forall k :: n <= k < n + |all| ==> s.Outcome(k).None?) {
      MainSequenceSucceeds(selections, s, n);
    }
  }

  lemma MainSequenceCalls(selections: seq<Result<seq<Migration>>>, s: DriverScript, n: nat)
    ensures var main := MainSequence(selections, s, n).run;
      var all := Header + RunCalls(Planned(selections, 0));
      && main.calls <= all
      && (main.err.None? ==> main.calls == all && forall k :: 0 <= k < |selections| ==> selections[k].Ok?)
  {
    var all := Header + RunCalls(Planned(selections, 0));
    var opening := Opening(s, n);
    var main := MainSequence(selections, s, n).run;
    OpeningCalls(s, n);
    if opening.run.err.Some? {
      assert main == opening.run;
      PrefixAppend([], opening.run.calls, Header);
      assert Header <= all;
    } else {
      var rest := NamespacesRun(selections, 0, s, n + 4);
      NamespacesRunCalls(selections, 0, s, n + 4);
      assert main == Prepend(Header, rest);
      PrefixAppend(Header, rest.calls, RunCalls(Planned(selections, 0)));
    }
  }

  lemma MainSequenceSucceeds(selections: seq<Result<seq<Migration>>>, s: DriverScript, n: nat)
    requires forall k :: 0 <= k < |selections| ==> selections[k].Ok?
    requires forall k :: n <= k < n + 4 + |Planned(selections, 0)| ==> s.Outcome(k).None?
    ensures MainSequence(selections, s, n).run.err.None?
  {
    var planned := Planned(selections, 0);
    assert forall k :: n + 4 <= k < n + 4 + |planned| ==> s.Outcome(k).None?;
    NamespacesRunSucceeds(selections, 0, s, n + 4);
    assert s.Outcome(n).None? && s.Outcome(n + 1).None? && s.Outcome(n + 2).None? && s.Outcome(n + 3).None?;
  }

  /** Cleanup runs exactly when connect succeeded: unlock, then disconnect unless
      unlock failed. What cleanup does never changes the reported error, and the
      main sequence itself never unlocks or disconnects. */
  lemma ExecutionCleanup(selections: seq<Result<seq<Migration>>>, s: DriverScript, n: nat)
    ensures var p := Execution(selections, s, n);
      var main := MainSequence(selections, s, n).run;
      && p.err == main.err
      && UnlockMigrations !in main.calls && Disconnect !in main.calls
      && (n in s.failAt ==> p.calls == main.calls == [Connect])
      && (n !in s.failAt ==>
            p.calls == main.calls + [UnlockMigrations]
                       + (if n + |main.calls| in s.failAt then [] else [Disconnect]))
  {
    var opening := Opening(s, n);
    var main := MainSequence(selections, s, n);
    OpeningCalls(s, n);
    if opening.run.err.None? {
      var rest := NamespacesRun(selections, 0, s, n + 4);
      NamespacesRunCalls(selections, 0, s, n + 4);
      OnlyRunCalls(rest.calls, Planned(selections, 0));
      assert main == MainOutcome(true, Run(Header + rest.calls, rest.err));
      assert UnlockMigrations !in rest.calls && Disconnect !in rest.calls;
    } else {
      assert main == opening;
    }
    assert main.connected <==> n !in s.failAt;
  }

  /** The opening makes a prefix of the header calls, and connect succeeded
      exactly when its first call did. */
  lemma OpeningCalls(s: DriverScript, n: nat)
    ensures var opening := Opening(s, n);
      && opening.run.calls <= Header && |opening.run.calls| > 0
      && (opening.connected <==> n !in s.failAt)
      && (opening.run.err.None? ==> opening.run.calls == Header)
      && UnlockMigrations !in opening.run.calls && Disconnect !in opening.run.calls
  {
  }

  /** The safety property of a run: every record the driver is asked to run
      belongs to a namespace of the proposed records, lies above the highest
      level applied in that namespace, and is timestamped with the run's time. */
  lemma RunsOnlyEligible(migrations: seq<Migration>, s: DriverScript, n: nat, now: Timestamp, hash: string -> string)
    ensures var p := Protocol(migrations, s, n, now, hash);
      forall k :: 0 <= k < |p.calls| && p.calls[k].RunMigration? ==>
        var m := p.calls[k].migration;
        && m.timestamp == Some(now) && m.namespace.Some?
        && m.namespace.value in Namespaces(StampDefaultNamespaces(migrations))
        && m.level > Watermark(InNamespace(s.history, m.namespace.value))
  {
    var nss := Namespaces(StampDefaultNamespaces(migrations));
    var selections := RunSelections(migrations, s.history, now, hash);
    RunSelectionsPromise(migrations, s.history, now, hash);
    PlannedEligible(selections, nss, s.history, now, 0);
    assert nss[0..] == nss;
    RunsOnlyPlanned(selections, s, n);
  }

  /** Every record run during an execution is a planned one. */
  lemma RunsOnlyPlanned(selections: seq<Result<seq<Migration>>>, s: DriverScript, n: nat)
    ensures var p := Execution(selections, s, n);
      forall k :: 0 <= k < |p.calls| && p.calls[k].RunMigration? ==> p.calls[k].migration in Planned(selections, 0)
  {
    var p := Execution(selections, s, n);
    var main := MainSequence(selections, s, n).run;
    var planned := Planned(selections, 0);
    ExecutionCleanup(selections, s, n);
    MainSequenceRuns(selections, s, n);
    forall k | 0 <= k < |p.calls| && p.calls[k].RunMigration?
      ensures p.calls[k].migration in planned
    {
      assert k < |main.calls|;
      assert main.calls[k] == (Header + RunCalls(planned))[k];
    }
  }

  /** Against a driver that fails nothing, an execution whose selections all
      succeed opens, runs every planned record, unlocks and disconnects. */
  lemma FaultlessExecution(selections: seq<Result<seq<Migration>>>, s: DriverScript, n: nat)
    requires s.failAt == map[]
    requires forall k :: 0 <= k < |selections| ==> selections[k].Ok?
    ensures Execution(selections, s, n)
         == Run(Header + RunCalls(Planned(selections, 0)) + [UnlockMigrations, Disconnect], None)
  {
    MainSequenceRuns(selections, s, n);
    ExecutionCleanup(selections, s, n);
  }

  /** A failure of the first record run is reported, nothing else runs, and the
      driver is still unlocked and disconnected. */
  lemma FirstRunFails(selections: seq<Result<seq<Migration>>>, s: DriverScript, n: nat, e: Error)
    requires forall k :: k in s.failAt <==> k == n + 4
    requires s.failAt[n + 4] == e
    requires |selections| > 0 && selections[0].Ok? && |selections[0].value| > 0
    ensures Execution(selections, s, n)
         == Run(Header + [RunMigration(selections[0].value[0]), UnlockMigrations, Disconnect], Some(e))
  {
    var es := selections[0].value;
    assert RunEligible(es, 0, s, n + 4) == Run([RunMigration(es[0])], Some(e));
  }

  /** When the first namespace's selection fails, nothing runs, the error is
      reported, and the driver is still unlocked and disconnected. */
  lemma FirstSelectionFails(selections: seq<Result<seq<Migration>>>, s: DriverScript, n: nat)
    requires s.failAt == map[]
    requires |selections| > 0 && selections[0].Err?
    ensures Execution(selections, s, n)
         == Run(Header + [UnlockMigrations, Disconnect], Some(selections[0].error))
  {
    assert NamespacesRun(selections, 0, s, n + 4) == Run([], Some(selections[0].error));
  }
}
