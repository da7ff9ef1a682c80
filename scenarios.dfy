/** Concrete runs of lib/migrate.js against a driver that fails on command, in
    the situations the repository's test suites set up. */
module Scenarios {
  import opened Base
  import opened Records
  import opened Selection
  import opened Migrate

  /** A proposed record without a namespace, as the tests write them. */
  function Plain(level: int): Migration
  {
    Proposed(level, "meh", None)
  }

  /** A record of the default namespace. */
  function Defaulted(level: int): Migration
  {
    Proposed(level, "meh", Some("default"))
  }

  /** The record handed to the driver: stamped with the run's time and the script's checksum. */
  function Executable(m: Migration, now: Timestamp, hash: string -> string): Migration
  {
    m.(namespace := Some("default"), timestamp := Some(now), checksum := Some(hash(m.script)))
  }

  /** Two records without a namespace both go to `"default"`, the only namespace of the run. */
  lemma OnlyDefaultNamespace(a: Migration, b: Migration)
    requires a.namespace.None? && b.namespace.None?
    ensures var stamped := StampDefaultNamespaces([a, b]);
      stamped == [a.(namespace := Some("default")), b.(namespace := Some("default"))]
      && Namespaces(stamped) == ["default"]
  {
    var stamped := StampDefaultNamespaces([a, b]);
    assert stamped[0] == a.(namespace := Some("default")) && stamped[1] == b.(namespace := Some("default"));
    var keys := Keys(stamped);
    assert keys[0] == "default" && keys[1] == "default";
    SingleKey(keys, "default");
  }

  /** With nothing applied, two unapplied records above level 0 are both kept, in level order. */
  lemma FreshEligible(a: Migration, b: Migration, now: Timestamp, hash: string -> string)
    requires a.timestamp.None? && b.timestamp.None? && 0 < a.level <= b.level
    ensures Eligible("default", 0, [], [a, b], now, hash) == Ok([Stamp(a, now, hash), Stamp(b, now, hash)])
  {
    var merged := MergeAll([a, b], []);
    assert merged[0] == a && merged[1] == b;
    assert merged == [a, b];
    KeepTwo(a, b);
    SortTwo(a, b);
    var stamped := StampAll([a, b], now, hash);
    assert stamped[0] == Stamp(a, now, hash) && stamped[1] == Stamp(b, now, hash);
    assert stamped == [Stamp(a, now, hash), Stamp(b, now, hash)];
    assert Eligible("default", 0, [], [a, b], now, hash) == Ok(stamped);
  }

  lemma KeepTwo(a: Migration, b: Migration)
    requires a.timestamp.None? && b.timestamp.None? && 0 < a.level && 0 < b.level
    ensures FilterMerged([a, b], "default", 0) == Ok([a, b])
  {
    var one: seq<Migration> := [b];
    assert one[1..] == [];
    assert FilterMerged(one[1..], "default", 0) == Ok([]);
    assert Classify(b, 0) == Keep;
    assert [one[0]] + [] == one;
    assert FilterMerged(one, "default", 0) == Ok(one);
    var two: seq<Migration> := [a, b];
    assert two[1..] == one;
    assert Classify(a, 0) == Keep;
    assert [two[0]] + one == two;
  }

  lemma SortTwo(a: Migration, b: Migration)
    requires a.level <= b.level
    ensures SortByLevel([a, b]) == [a, b]
  {
    assert [a, b][1..] == [b];
    assert SortByLevel([b]) == [b];
    assert Insert(a, [b]) == [a, b];
  }

  /** With nothing applied, a run over two records without a namespace selects both for `"default"`. */
  lemma FreshSelections(a: Migration, b: Migration, now: Timestamp, hash: string -> string)
    requires a.namespace.None? && b.namespace.None?
    requires a.timestamp.None? && b.timestamp.None? && 0 < a.level <= b.level
    requires a.checksum.None? && b.checksum.None?
    ensures RunSelections([a, b], [], now, hash) == [Ok([Executable(a, now, hash), Executable(b, now, hash)])]
  {
    OnlyDefaultNamespace(a, b);
    var stamped := [a.(namespace := Some("default")), b.(namespace := Some("default"))];
    assert InNamespace(stamped, "default") == stamped;
    assert InNamespace([], "default") == [] && Watermark([]) == 0;
    FreshEligible(stamped[0], stamped[1], now, hash);
    assert Select("default", stamped, [], now, hash) == Eligible("default", 0, [], stamped, now, hash);
    OneSelection("default", stamped, [], now, hash);
  }

  /** The calls of a faultless run of one namespace selecting two records. */
  lemma CleanRunOfTwo(a: Migration, b: Migration)
    ensures Header + RunCalls(Planned([Ok([a, b])], 0)) + [UnlockMigrations, Disconnect]
         == Header + [RunMigration(a), RunMigration(b), UnlockMigrations, Disconnect]
  {
    assert Planned([Ok([a, b])], 0) == [a, b];
    assert RunCalls([a, b]) == [RunMigration(a), RunMigration(b)];
  }

  /** With nothing applied and a driver that fails nothing, two unapplied
      records without a namespace both run, in level order, in the default
      namespace, and the driver is unlocked and disconnected. */
  lemma FreshRunOfTwo(a: Migration, b: Migration, now: Timestamp, hash: string -> string)
    requires a.namespace.None? && b.namespace.None?
    requires a.timestamp.None? && b.timestamp.None? && 0 < a.level <= b.level
    requires a.checksum.None? && b.checksum.None?
    ensures Protocol([a, b], DriverScript([], map[]), 0, now, hash)
         == Run(Header + [RunMigration(Executable(a, now, hash)), RunMigration(Executable(b, now, hash)),
                          UnlockMigrations, Disconnect], None)
  {
    var s := DriverScript([], map[]);
    var es := [Executable(a, now, hash), Executable(b, now, hash)];
    FreshSelections(a, b, now, hash);
    ProtocolExecutes([a, b], s, 0, now, hash, [Ok(es)]);
    FaultlessExecution([Ok(es)], s, 0);
    CleanRunOfTwo(es[0], es[1]);
  }

  /** With nothing applied, both proposed records run in level order, in the
      default namespace, and the driver is unlocked and disconnected. */
  lemma EmptyHistoryRunsAll(now: Timestamp, hash: string -> string)
    ensures Protocol([Plain(1), Plain(2)], DriverScript([], map[]), 0, now, hash)
         == Run(Header + [RunMigration(Executable(Plain(1), now, hash)), RunMigration(Executable(Plain(2), now, hash)),
                          UnlockMigrations, Disconnect], None)
  {
    FreshRunOfTwo(Plain(1), Plain(2), now, hash);
  }

  /** Two proposed records of the same level both run: duplicate levels are not
      rejected here, and a top-level `audit` is not consulted. */
  lemma DuplicateLevelsBothRun(now: Timestamp, hash: string -> string)
    ensures var m := Plain(1).(audit := Some(Bool(false)));
      Protocol([m, m], DriverScript([], map[]), 0, now, hash)
         == Run(Header + [RunMigration(Executable(m, now, hash)), RunMigration(Executable(m, now, hash)),
                          UnlockMigrations, Disconnect], None)
  {
    var m := Plain(1).(audit := Some(Bool(false)));
    FreshRunOfTwo(m, m, now, hash);
  }

  /** With nothing applied and a driver whose first `runMigration` fails, the
      error is reported, the second record never runs, and the driver is still
      unlocked and disconnected. */
  lemma FailedRunOfTwo(a: Migration, b: Migration, e: Error, now: Timestamp, hash: string -> string)
    requires a.namespace.None? && b.namespace.None?
    requires a.timestamp.None? && b.timestamp.None? && 0 < a.level <= b.level
    requires a.checksum.None? && b.checksum.None?
    ensures Protocol([a, b], DriverScript([], map[4 := e]), 0, now, hash)
         == Run(Header + [RunMigration(Executable(a, now, hash)), UnlockMigrations, Disconnect], Some(e))
  {
    var s := DriverScript([], map[4 := e]);
    var es := [Executable(a, now, hash), Executable(b, now, hash)];
    FreshSelections(a, b, now, hash);
    ProtocolExecutes([a, b], s, 0, now, hash, [Ok(es)]);
    FailedFirstOfTwo(es[0], es[1], e);
  }

  lemma FailedFirstOfTwo(x: Migration, y: Migration, e: Error)
    ensures Execution([Ok([x, y])], DriverScript([], map[4 := e]), 0)
         == Run(Header + [RunMigration(x), UnlockMigrations, Disconnect], Some(e))
  {
    FirstRunFails([Ok([x, y])], DriverScript([], map[4 := e]), 0, e);
  }

  /** A driver whose `runMigration` fails: the error is reported, the second
      record never runs, and the driver is still unlocked and disconnected. */
  lemma RunFailureStillCleansUp(now: Timestamp, hash: string -> string)
    ensures Protocol([Plain(1), Plain(2)], DriverScript([], map[4 := Error("Oh Noes")]), 0, now, hash)
         == Run(Header + [RunMigration(Executable(Plain(1), now, hash)), UnlockMigrations, Disconnect],
                Some(Error("Oh Noes")))
  {
    FailedRunOfTwo(Plain(1), Plain(2), Error("Oh Noes"), now, hash);
  }

  /** The history the test suites' stub driver returns: applied records of the
      default namespace that carry no timestamp. */
  const StubHistory: seq<Migration> := [Defaulted(1), Defaulted(2)]

  /** Against that history, level 1 is below the watermark, untimestamped and not
      audited, so the selection fails and nothing runs; the driver is still
      unlocked and disconnected. */
  lemma UntimestampedHistoryIsSkipped(now: Timestamp, hash: string -> string)
    ensures Protocol([Plain(1), Plain(2), Plain(3)], DriverScript(StubHistory, map[]), 0, now, hash)
         == Run(Header + [UnlockMigrations, Disconnect],
                Some(Error(SkippedMessage(1, "default"))))
  {
    SkippedFirst(now, hash);
    FirstSelectionFails([Err(Error(SkippedMessage(1, "default")))], DriverScript(StubHistory, map[]), 0);
  }

  lemma SkippedFirst(now: Timestamp, hash: string -> string)
    ensures RunSelections([Plain(1), Plain(2), Plain(3)], StubHistory, now, hash)
         == [Err(Error(SkippedMessage(1, "default")))]
  {
    var stamped := [Defaulted(1), Defaulted(2), Defaulted(3)];
    var failure: Result<seq<Migration>> := Err(Error(SkippedMessage(1, "default")));
    ThreeDefaults();
    StubWatermark();
    SkippedEligible(now, hash);
    assert Select("default", stamped, StubHistory, now, hash) == failure;
    OneSelection("default", stamped, StubHistory, now, hash);
    assert RunSelections([Plain(1), Plain(2), Plain(3)], StubHistory, now, hash)
        == Selections(["default"], stamped, StubHistory, now, hash);
  }

  /** A run with one namespace has that namespace's selection only. */
  lemma OneSelection(ns: string, stamped: seq<Migration>, history: seq<Migration>, now: Timestamp, hash: string -> string)
    ensures Selections([ns], stamped, history, now, hash) == [Select(ns, stamped, history, now, hash)]
  {
    var selections := Selections([ns], stamped, history, now, hash);
    assert selections[0] == Select(ns, stamped, history, now, hash);
  }

  lemma ThreeDefaults()
    ensures StampDefaultNamespaces([Plain(1), Plain(2), Plain(3)]) == [Defaulted(1), Defaulted(2), Defaulted(3)]
    ensures Namespaces([Defaulted(1), Defaulted(2), Defaulted(3)]) == ["default"]
    ensures InNamespace([Defaulted(1), Defaulted(2), Defaulted(3)], "default") == [Defaulted(1), Defaulted(2), Defaulted(3)]
  {
    ThreeStamped();
    ThreeKeys();
    ThreeInDefault();
  }

  lemma ThreeStamped()
    ensures StampDefaultNamespaces([Plain(1), Plain(2), Plain(3)]) == [Defaulted(1), Defaulted(2), Defaulted(3)]
  {
    var stamps := StampDefaultNamespaces([Plain(1), Plain(2), Plain(3)]);
    assert stamps[0] == Defaulted(1) && stamps[1] == Defaulted(2) && stamps[2] == Defaulted(3);
  }

  lemma ThreeKeys()
    ensures Namespaces([Defaulted(1), Defaulted(2), Defaulted(3)]) == ["default"]
  {
    var keys := Keys([Defaulted(1), Defaulted(2), Defaulted(3)]);
    assert keys[0] == "default" && keys[1] == "default" && keys[2] == "default";
    SingleKey(keys, "default");
  }

  lemma ThreeInDefault()
    ensures InNamespace([Defaulted(1), Defaulted(2), Defaulted(3)], "default") == [Defaulted(1), Defaulted(2), Defaulted(3)]
  {
    var stamped := [Defaulted(1), Defaulted(2), Defaulted(3)];
    assert stamped[1..] == [Defaulted(2), Defaulted(3)];
    assert stamped[1..][1..] == [Defaulted(3)];
    assert InNamespace([Defaulted(3)], "default") == [Defaulted(3)];
    assert InNamespace([Defaulted(2), Defaulted(3)], "default") == [Defaulted(2), Defaulted(3)];
  }

  lemma SkippedEligible(now: Timestamp, hash: string -> string)
    ensures Eligible("default", 2, StubHistory, [Defaulted(1), Defaulted(2), Defaulted(3)], now, hash)
         == Err(Error(SkippedMessage(1, "default")))
  {
    var stamped := [Defaulted(1), Defaulted(2), Defaulted(3)];
    StubMerge();
    assert Classify(stamped[0], 2) == Skip;
  }

  lemma StubMerge()
    ensures MergeAll([Defaulted(1), Defaulted(2), Defaulted(3)], StubHistory) == [Defaulted(1), Defaulted(2), Defaulted(3)]
  {
    assert MergeApplied(Defaulted(1), StubHistory) == Defaulted(1);
    assert MergeApplied(Defaulted(2), StubHistory) == Defaulted(2);
    assert FindLevel(StubHistory, 3).None?;
  }

  lemma StubWatermark()
    ensures InNamespace(StubHistory, "default") == StubHistory
    ensures Watermark(StubHistory) == 2
  {
    assert SortByLevel([Defaulted(2)]) == [Defaulted(2)];
    assert StubHistory[1..] == [Defaulted(2)];
    assert SortByLevel(StubHistory) == StubHistory;
  }

  /** History records without a namespace group under `"undefined"`, so the
      default namespace's selection is made as if nothing had been applied. */
  lemma UnnamespacedHistoryIsIgnored(stamped: seq<Migration>, now: Timestamp, hash: string -> string)
    ensures InNamespace([Plain(1), Plain(2)], "default") == []
    ensures Select("default", stamped, [Plain(1), Plain(2)], now, hash) == Select("default", stamped, [], now, hash)
  {
    assert NamespaceKey(Plain(1)) == "undefined" && NamespaceKey(Plain(2)) == "undefined";
    assert [Plain(1), Plain(2)][1..] == [Plain(2)];
    SelectIsLocal("default", stamped, stamped, [Plain(1), Plain(2)], [], now, hash);
  }

  /** A sequence holding one key only has that key as its only first-seen key. */
  lemma {:induction false} SingleKey(ks: seq<string>, k: string)
    requires |ks| > 0
    requires forall i :: 0 <= i < |ks| ==> ks[i] == k
    ensures FirstSeen(ks) == [k]
  {
    if |ks| > 1 {
      SingleKey(ks[..|ks| - 1], k);
    }
  }
}
