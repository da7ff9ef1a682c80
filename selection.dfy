/** The pure part of lib/migrate.js: namespacing the records, the watermark of a
    namespace, and the choice of the records that are eligible to run. */
module Selection {
  import opened Base
  import opened Records

  // ---------------------------------------------------------------- namespaces

  /** Records with a nil namespace belong to `"default"`. */
  function StampDefaultNamespace(m: Migration): (r: Migration)
    ensures r.namespace.Some?
    ensures m.namespace.None? ==> r.namespace == Some("default")
    ensures m.namespace.Some? ==> r == m
    ensures r.(namespace := m.namespace) == m
  {
    if m.namespace.None? then m.(namespace := Some("default")) else m
  }

  function StampDefaultNamespaces(ms: seq<Migration>): (r: seq<Migration>)
    ensures |r| == |ms|
    ensures forall i :: 0 <= i < |ms| ==> r[i] == StampDefaultNamespace(ms[i])
  {
    if ms == [] then [] else [StampDefaultNamespace(ms[0])] + StampDefaultNamespaces(ms[1..])
  }

  /** The key a record is grouped under: `String(namespace)`, so a record without
      a namespace groups under `"undefined"`. */
  function NamespaceKey(m: Migration): string
  {
    if m.namespace.Some? then m.namespace.value else "undefined"
  }

  /** The records of one namespace, in their original order. */
  function InNamespace(ms: seq<Migration>, ns: string): (r: seq<Migration>)
    ensures |r| <= |ms|
    ensures forall m :: m in r <==> m in ms && NamespaceKey(m) == ns
  {
    if ms == [] then []
    else if NamespaceKey(ms[0]) == ns then [ms[0]] + InNamespace(ms[1..], ns)
    else InNamespace(ms[1..], ns)
  }

  /** Grouping works piece by piece: a group keeps the records' order and every copy. */
  lemma {:induction false} InNamespaceAppend(a: seq<Migration>, b: seq<Migration>, ns: string)
    ensures InNamespace(a + b, ns) == InNamespace(a, ns) + InNamespace(b, ns)
  {
    if a == [] {
      assert a + b == b;
    } else {
      assert (a + b)[0] == a[0] && (a + b)[1..] == a[1..] + b;
      InNamespaceAppend(a[1..], b, ns);
      if NamespaceKey(a[0]) == ns {
        ConcatAssoc([a[0]], InNamespace(a[1..], ns), InNamespace(b, ns));
      }
    }
  }

  /** A record of the namespace occurs in its group as many times as in the input. */
  lemma {:induction false} InNamespaceCount(ms: seq<Migration>, ns: string, m: Migration)
    ensures multiset(InNamespace(ms, ns))[m] == if NamespaceKey(m) == ns then multiset(ms)[m] else 0
  {
    if ms != [] {
      InNamespaceCount(ms[1..], ns, m);
      assert ms == [ms[0]] + ms[1..];
    }
  }

  /** The index of the first occurrence of `k` in `ks`. */
  function FirstIndex(ks: seq<string>, k: string): (i: nat)
    requires k in ks
    ensures i < |ks| && ks[i] == k && k !in ks[..i]
  {
    if ks[0] == k then 0 else 1 + FirstIndex(ks[1..], k)
  }

  /** The distinct keys of `ks` in the order of their first occurrence. */
  function FirstSeen(ks: seq<string>): (r: seq<string>)
    ensures forall k :: k in r <==> k in ks
    ensures forall i, j :: 0 <= i < j < |r| ==> r[i] != r[j]
  {
    if ks == [] then []
    else
      var p := FirstSeen(ks[..|ks| - 1]);
      assert forall k :: k in ks <==> k in ks[..|ks| - 1] || k == ks[|ks| - 1];
      if ks[|ks| - 1] in p then p else p + [ks[|ks| - 1]]
  }

  /** Keys listed earlier by `FirstSeen` occur earlier in `ks`. */
  lemma {:induction false} FirstSeenOrder(ks: seq<string>, i: nat, j: nat)
    requires i < j < |FirstSeen(ks)|
    ensures FirstIndex(ks, FirstSeen(ks)[i]) < FirstIndex(ks, FirstSeen(ks)[j])
  {
    var r := FirstSeen(ks);
    var init := ks[..|ks| - 1];
    var p := FirstSeen(init);
    assert ks == init + [ks[|ks| - 1]];
    FirstIndexPrefix(init, ks[|ks| - 1], r[i]);
    if j < |p| {
      FirstSeenOrder(init, i, j);
      FirstIndexPrefix(init, ks[|ks| - 1], r[j]);
    } else {
      assert r[j] == ks[|ks| - 1] && r[j] !in init;
      assert ks[..|init|] == init;
    }
  }

  lemma {:induction false} FirstIndexPrefix(init: seq<string>, last: string, k: string)
    requires k in init
    ensures k in init + [last]
    ensures FirstIndex(init + [last], k) == FirstIndex(init, k)
  {
    if init[0] != k {
      assert (init + [last])[1..] == init[1..] + [last];
      FirstIndexPrefix(init[1..], last, k);
    }
  }

  function Keys(ms: seq<Migration>): (r: seq<string>)
    ensures |r| == |ms|
    ensures forall i :: 0 <= i < |ms| ==> r[i] == NamespaceKey(ms[i])
  {
    if ms == [] then [] else [NamespaceKey(ms[0])] + Keys(ms[1..])
  }

  /** The namespaces to process: those of the (namespace-stamped) proposed records,
      in first-seen order. */
  function Namespaces(ms: seq<Migration>): (r: seq<string>)
    ensures forall i :: 0 <= i < |ms| ==> NamespaceKey(ms[i]) in r
    ensures forall i, j :: 0 <= i < j < |r| ==> r[i] != r[j]
  {
    assert forall i :: 0 <= i < |ms| ==> Keys(ms)[i] in Keys(ms);
    FirstSeen(Keys(ms))
  }

  /** Every namespace of a proposed record is processed exactly once, and a
      namespace seen earlier is processed earlier. */
  lemma NamespacesComplete(ms: seq<Migration>)
    ensures forall i :: 0 <= i < |ms| ==> NamespaceKey(ms[i]) in Namespaces(ms)
    ensures forall ns :: ns in Namespaces(ms) ==> exists i :: 0 <= i < |ms| && NamespaceKey(ms[i]) == ns
    ensures forall i, j :: 0 <= i < j < |Namespaces(ms)| ==> Namespaces(ms)[i] != Namespaces(ms)[j]
  {
    var ks := Keys(ms);
    forall ns | ns in Namespaces(ms)
      ensures exists i :: 0 <= i < |ms| && NamespaceKey(ms[i]) == ns
    {
      var i := FirstIndex(ks, ns);
      assert NamespaceKey(ms[i]) == ns;
    }
    forall i | 0 <= i < |ms| ensures NamespaceKey(ms[i]) in Namespaces(ms) {
      assert ks[i] == NamespaceKey(ms[i]);
    }
  }

  // ----------------------------------------------------------------- ordering

  predicate SortedByLevel(s: seq<Migration>)
  {
    forall i, j :: 0 <= i < j < |s| ==> s[i].level <= s[j].level
  }

  /** The records of `s` at level `l`, in order. */
  function AtLevel(s: seq<Migration>, l: int): seq<Migration>
  {
    if s == [] then []
    else if s[0].level == l then [s[0]] + AtLevel(s[1..], l)
    else AtLevel(s[1..], l)
  }

  /** Puts `x` before the first record whose level is at least its own. */
  function Insert(x: Migration, s: seq<Migration>): (r: seq<Migration>)
    ensures |r| == |s| + 1
    ensures multiset(r) == multiset(s) + multiset{x}
  {
    if s == [] then [x]
    else if x.level <= s[0].level then [x] + s
    else
      assert s == [s[0]] + s[1..];
      [s[0]] + Insert(x, s[1..])
  }

  lemma {:induction false} InsertSorted(x: Migration, s: seq<Migration>)
    requires SortedByLevel(s)
    ensures SortedByLevel(Insert(x, s))
    ensures Insert(x, s)[0] == x || Insert(x, s)[0] == s[0]
  {
    if s == [] {
      assert Insert(x, s) == [x];
    } else if x.level <= s[0].level {
      var r := [x] + s;
      assert Insert(x, s) == r;
      forall i, j | 0 <= i < j < |r| ensures r[i].level <= r[j].level {
        assert r[j] == s[j - 1];
        if i > 0 {
          assert r[i] == s[i - 1];
        } else {
          assert s[0].level <= s[j - 1].level;
        }
      }
    } else {
      var t := Insert(x, s[1..]);
      InsertSorted(x, s[1..]);
      var r := [s[0]] + t;
      assert Insert(x, s) == r;
      assert t[0].level >= s[0].level;
      forall i, j | 0 <= i < j < |r| ensures r[i].level <= r[j].level {
        assert r[j] == t[j - 1];
        if i > 0 {
          assert r[i] == t[i - 1];
        } else {
          assert t[0].level <= t[j - 1].level;
        }
      }
    }
  }

  /** `_.sortBy(records, 'level')`: a stable ascending sort by level. */
  function SortByLevel(s: seq<Migration>): (r: seq<Migration>)
    ensures |r| == |s|
    ensures SortedByLevel(r)
    ensures multiset(r) == multiset(s)
  {
    if s == [] then []
    else
      assert s == [s[0]] + s[1..];
      InsertSorted(s[0], SortByLevel(s[1..]));
      Insert(s[0], SortByLevel(s[1..]))
  }

  lemma {:induction false} InsertAtLevel(x: Migration, s: seq<Migration>, l: int)
    ensures AtLevel(Insert(x, s), l) == if x.level == l then [x] + AtLevel(s, l) else AtLevel(s, l)
  {
    if s != [] && x.level > s[0].level {
      InsertAtLevel(x, s[1..], l);
      assert Insert(x, s) == [s[0]] + Insert(x, s[1..]);
    }
  }

  /** The sort is stable: records of equal level keep their relative order. */
  lemma {:induction false} SortByLevelStable(s: seq<Migration>, l: int)
    ensures AtLevel(SortByLevel(s), l) == AtLevel(s, l)
  {
    if s != [] {
      SortByLevelStable(s[1..], l);
      InsertAtLevel(s[0], SortByLevel(s[1..]), l);
    }
  }

  // ---------------------------------------------------------------- watermark

  /** The highest applied level of a namespace: the level of the last record
      after sorting by level, or 0 when nothing was applied. */
  function Watermark(applied: seq<Migration>): (w: int)
    ensures applied == [] ==> w == 0
    ensures forall m :: m in applied ==> m.level <= w
    ensures applied != [] ==> exists m :: m in applied && m.level == w
  {
    if applied == [] then 0
    else
      var sorted := SortByLevel(applied);
      var top := sorted[|sorted| - 1];
      assert top in multiset(applied);
      forall m | m in applied ensures m.level <= top.level {
        assert m in multiset(sorted);
        var k :| 0 <= k < |sorted| && sorted[k] == m;
      }
      top.level
  }

  // -------------------------------------------------------------- eligibility

  /** The first applied record of the same level, as `Array.prototype.find` gives it. */
  function FindLevel(applied: seq<Migration>, level: int): (r: Option<Migration>)
    ensures r.Some? ==> r.value in applied && r.value.level == level
    ensures r.Some? ==> exists i :: && 0 <= i < |applied| && applied[i] == r.value
                                    && forall j :: 0 <= j < i ==> applied[j].level != level
    ensures r.None? ==> forall m :: m in applied ==> m.level != level
  {
    if applied == [] then None
    else if applied[0].level == level then Some(applied[0])
    else FindLevel(applied[1..], level)
  }

  function Or<T>(preferred: Option<T>, fallback: Option<T>): Option<T>
  {
    if preferred.Some? then preferred else fallback
  }

  /** `{ ...candidate, ...previous }`: every field the applied record has wins. */
  function Overlay(candidate: Migration, previous: Migration): Migration
  {
    Migration(
      previous.level,
      previous.script,
      Or(previous.filename, candidate.filename),
      Or(previous.comment, candidate.comment),
      Or(previous.directives, candidate.directives),
      Or(previous.audit, candidate.audit),
      Or(previous.namespace, candidate.namespace),
      Or(previous.timestamp, candidate.timestamp),
      Or(previous.checksum, candidate.checksum))
  }

  /** A proposed record merged with the applied record of its level, if any. */
  function MergeApplied(candidate: Migration, applied: seq<Migration>): (r: Migration)
    ensures r.level == candidate.level
    ensures FindLevel(applied, candidate.level).None? ==> r == candidate
    ensures FindLevel(applied, candidate.level).Some? && FindLevel(applied, candidate.level).value.timestamp.Some?
            ==> r.timestamp == FindLevel(applied, candidate.level).value.timestamp
    ensures var found := FindLevel(applied, candidate.level);
      found.Some? ==>
        && r.script == found.value.script
        && r.filename == Or(found.value.filename, candidate.filename)
        && r.comment == Or(found.value.comment, candidate.comment)
        && r.directives == Or(found.value.directives, candidate.directives)
        && r.audit == Or(found.value.audit, candidate.audit)
        && r.namespace == Or(found.value.namespace, candidate.namespace)
        && r.timestamp == Or(found.value.timestamp, candidate.timestamp)
        && r.checksum == Or(found.value.checksum, candidate.checksum)
  {
    match FindLevel(applied, candidate.level)
    case None => candidate
    case Some(previous) => Overlay(candidate, previous)
  }

  function MergeAll(proposed: seq<Migration>, applied: seq<Migration>): (r: seq<Migration>)
    ensures |r| == |proposed|
    ensures forall i :: 0 <= i < |r| ==> r[i] == MergeApplied(proposed[i], applied)
  {
    if proposed == [] then []
    else [MergeApplied(proposed[0], applied)] + MergeAll(proposed[1..], applied)
  }

  /** `migration.directives && migration.directives.audit` is truthy. */
  predicate Audited(m: Migration)
  {
    m.directives.Some? && "audit" in m.directives.value && Truthy(m.directives.value["audit"])
  }

  /** What the filter callback of `getEligibleMigrations` does with a merged record. */
  datatype Verdict = Exclude | Keep | Skip

  function Classify(m: Migration, watermark: int): (v: Verdict)
    ensures v == Keep <==> m.timestamp.None? && m.level > watermark
    ensures v == Skip <==> m.timestamp.None? && m.level <= watermark && !Audited(m)
  {
    if m.timestamp.Some? then Exclude
    else if m.level > watermark then Keep
    else if Audited(m) then Exclude
    else Skip
  }

  function SkippedMessage(level: int, ns: string): string
  {
    "Migration " + IntToString(level) + " from namespace: " + ns + " was skipped"
  }

  /** The records the filter keeps, when none of them is skipped. */
  function Kept(ms: seq<Migration>, watermark: int): (r: seq<Migration>)
    ensures forall m :: m in r <==> m in ms && Classify(m, watermark) == Keep
    ensures |r| <= |ms|
  {
    if ms == [] then []
    else if Classify(ms[0], watermark) == Keep then [ms[0]] + Kept(ms[1..], watermark)
    else Kept(ms[1..], watermark)
  }

  /** The filter works piece by piece: it keeps order and every copy of a kept record. */
  lemma {:induction false} KeptAppend(a: seq<Migration>, b: seq<Migration>, watermark: int)
    ensures Kept(a + b, watermark) == Kept(a, watermark) + Kept(b, watermark)
  {
    if a == [] {
      assert a + b == b;
    } else {
      assert (a + b)[0] == a[0] && (a + b)[1..] == a[1..] + b;
      KeptAppend(a[1..], b, watermark);
      if Classify(a[0], watermark) == Keep {
        ConcatAssoc([a[0]], Kept(a[1..], watermark), Kept(b, watermark));
      }
    }
  }

  /** A kept record is kept as many times as it occurs. */
  lemma {:induction false} KeptCount(ms: seq<Migration>, watermark: int, m: Migration)
    ensures multiset(Kept(ms, watermark))[m] == if Classify(m, watermark) == Keep then multiset(ms)[m] else 0
  {
    if ms != [] {
      KeptCount(ms[1..], watermark, m);
      assert ms == [ms[0]] + ms[1..];
    }
  }

  /** The position of the first skipped record, if any. */
  function FirstSkipped(ms: seq<Migration>, watermark: int): (r: Option<nat>)
    ensures r.Some? ==> r.value < |ms| && Classify(ms[r.value], watermark) == Skip
                        && forall i :: 0 <= i < r.value ==> Classify(ms[i], watermark) != Skip
    ensures r.None? ==> forall i :: 0 <= i < |ms| ==> Classify(ms[i], watermark) != Skip
  {
    if ms == [] then None
    else if Classify(ms[0], watermark) == Skip then Some(0)
    else
      match FirstSkipped(ms[1..], watermark)
      case None => None
      case Some(i) => Some(i + 1)
  }

  /** The filter step, which throws at the first skipped record. */
  function FilterMerged(ms: seq<Migration>, ns: string, watermark: int): Result<seq<Migration>>
  {
    if ms == [] then Ok([])
    else
      match Classify(ms[0], watermark)
      case Skip => Err(Error(SkippedMessage(ms[0].level, ns)))
      case Exclude => FilterMerged(ms[1..], ns, watermark)
      case Keep =>
        match FilterMerged(ms[1..], ns, watermark)
        case Err(e) => Err(e)
        case Ok(rest) => Ok([ms[0]] + rest)
  }

  /** The filter fails exactly at the first skipped record, and otherwise keeps
      the records above the watermark that were not applied. */
  lemma {:induction false} FilterMergedSpec(ms: seq<Migration>, ns: string, watermark: int)
    ensures FilterMerged(ms, ns, watermark) ==
      match FirstSkipped(ms, watermark)
      case Some(i) => Err(Error(SkippedMessage(ms[i].level, ns)))
      case None => Ok(Kept(ms, watermark))
  {
    if ms != [] {
      FilterMergedSpec(ms[1..], ns, watermark);
    }
  }

  /** `_.merge({ timestamp: now, checksum: md5(script) }, migration)`: the record's
      own fields win. */
  function Stamp(m: Migration, now: Timestamp, hash: string -> string): (r: Migration)
    ensures r.level == m.level
    ensures r.timestamp == Or(m.timestamp, Some(now))
    ensures r.checksum == Or(m.checksum, Some(hash(m.script)))
    ensures r.(timestamp := m.timestamp, checksum := m.checksum) == m
  {
    m.(timestamp := Or(m.timestamp, Some(now)), checksum := Or(m.checksum, Some(hash(m.script))))
  }

  function StampAll(ms: seq<Migration>, now: Timestamp, hash: string -> string): (r: seq<Migration>)
    ensures |r| == |ms|
    ensures forall i :: 0 <= i < |ms| ==> r[i] == Stamp(ms[i], now, hash)
  {
    if ms == [] then [] else [Stamp(ms[0], now, hash)] + StampAll(ms[1..], now, hash)
  }

  lemma StampAllCons(a: Migration, t: seq<Migration>, now: Timestamp, hash: string -> string)
    ensures StampAll([a] + t, now, hash) == [Stamp(a, now, hash)] + StampAll(t, now, hash)
  {
    assert ([a] + t)[1..] == t;
  }

  /** Stamping keeps levels, so it commutes with inserting by level. */
  lemma {:induction false} StampAllInsert(x: Migration, s: seq<Migration>, now: Timestamp, hash: string -> string)
    ensures StampAll(Insert(x, s), now, hash) == Insert(Stamp(x, now, hash), StampAll(s, now, hash))
  {
    var y := Stamp(x, now, hash);
    if s == [] {
      StampAllCons(x, [], now, hash);
    } else {
      var t := StampAll(s, now, hash);
      StampAllCons(s[0], s[1..], now, hash);
      assert s == [s[0]] + s[1..];
      assert t == [Stamp(s[0], now, hash)] + StampAll(s[1..], now, hash);
      if x.level <= s[0].level {
        StampAllCons(x, s, now, hash);
        assert Insert(y, t) == [y] + t;
      } else {
        var a := Stamp(s[0], now, hash);
        var rest := StampAll(s[1..], now, hash);
        calc {
          StampAll(Insert(x, s), now, hash);
          StampAll([s[0]] + Insert(x, s[1..]), now, hash);
          { StampAllCons(s[0], Insert(x, s[1..]), now, hash); }
          [a] + StampAll(Insert(x, s[1..]), now, hash);
          { StampAllInsert(x, s[1..], now, hash); }
          [a] + Insert(y, rest);
          { assert ([a] + rest)[1..] == rest; }
          Insert(y, [a] + rest);
        }
      }
    }
  }

  /** Stamping commutes with sorting by level. */
  lemma {:induction false} StampAllSort(s: seq<Migration>, now: Timestamp, hash: string -> string)
    ensures StampAll(SortByLevel(s), now, hash) == SortByLevel(StampAll(s, now, hash))
  {
    if s != [] {
      StampAllSort(s[1..], now, hash);
      StampAllInsert(s[0], SortByLevel(s[1..]), now, hash);
      assert StampAll(s, now, hash)[1..] == StampAll(s[1..], now, hash);
    }
  }

  /** `getEligibleMigrations`: merge, filter (or throw), sort by level, stamp. */
  function Eligible(ns: string, watermark: int, applied: seq<Migration>, proposed: seq<Migration>,
                    now: Timestamp, hash: string -> string): Result<seq<Migration>>
  {
    match FilterMerged(MergeAll(proposed, applied), ns, watermark)
    case Err(e) => Err(e)
    case Ok(kept) => Ok(StampAll(SortByLevel(kept), now, hash))
  }

  /** The selection, stated outright: it fails with the message of the first
      proposed record that is neither applied, above the watermark nor audited;
      otherwise it yields exactly the merged records above the watermark without
      a timestamp, sorted by level, each stamped with `now` and its checksum. */
  lemma EligibleSpec(ns: string, watermark: int, applied: seq<Migration>, proposed: seq<Migration>,
                     now: Timestamp, hash: string -> string)
    ensures var merged := MergeAll(proposed, applied);
      Eligible(ns, watermark, applied, proposed, now, hash) ==
        match FirstSkipped(merged, watermark)
        case Some(i) => Err(Error(SkippedMessage(proposed[i].level, ns)))
        case None => Ok(StampAll(SortByLevel(Kept(merged, watermark)), now, hash))
  {
    FilterMergedSpec(MergeAll(proposed, applied), ns, watermark);
  }

  /** What the eligible records look like: ascending levels, all above the
      watermark, each timestamped with `now`, and one stamped record for every
      kept merged record, copies included (duplicate levels are kept). */
  lemma EligibleRecords(ns: string, watermark: int, applied: seq<Migration>, proposed: seq<Migration>,
                        now: Timestamp, hash: string -> string)
    requires Eligible(ns, watermark, applied, proposed, now, hash).Ok?
    ensures var es := Eligible(ns, watermark, applied, proposed, now, hash).value;
      && SortedByLevel(es)
      && (forall i :: 0 <= i < |es| ==> es[i].level > watermark && es[i].timestamp == Some(now))
      && es == StampAll(SortByLevel(Kept(MergeAll(proposed, applied), watermark)), now, hash)
      && |es| == |Kept(MergeAll(proposed, applied), watermark)|
      && multiset(es) == multiset(StampAll(Kept(MergeAll(proposed, applied), watermark), now, hash))
  {
    var merged := MergeAll(proposed, applied);
    EligibleSpec(ns, watermark, applied, proposed, now, hash);
    assert FirstSkipped(merged, watermark).None?;
    var kept := Kept(merged, watermark);
    var sorted := SortByLevel(kept);
    SortedMembers(kept);
    var es := StampAll(sorted, now, hash);
    assert Eligible(ns, watermark, applied, proposed, now, hash).value == es;
    StampAllSort(kept, now, hash);
    forall i | 0 <= i < |es| ensures es[i].level == sorted[i].level && es[i].timestamp == Some(now) {
      assert sorted[i] in kept;
      assert es[i] == Stamp(sorted[i], now, hash);
    }
    forall i | 0 <= i < |es| ensures es[i].level > watermark {
      assert sorted[i] in kept;
    }
    forall i, j | 0 <= i < j < |es| ensures es[i].level <= es[j].level {
      assert sorted[i].level <= sorted[j].level;
    }
  }

  /** Sorting draws its records from its input. */
  lemma SortedMembers(s: seq<Migration>)
    ensures forall i :: 0 <= i < |SortByLevel(s)| ==> SortByLevel(s)[i] in s
  {
    var r := SortByLevel(s);
    forall i | 0 <= i < |r| ensures r[i] in s {
      assert r[i] in multiset(r);
      assert r[i] in multiset(s);
    }
  }

  /** A namespace whose every proposed level was applied (with a timestamp)
      runs nothing: a second run after a successful one is a no-op. */
  lemma FullyAppliedSelectsNothing(ns: string, applied: seq<Migration>, proposed: seq<Migration>,
                                   now: Timestamp, hash: string -> string)
    requires forall m :: m in applied ==> m.timestamp.Some?
    requires forall p :: p in proposed ==> exists m :: m in applied && m.level == p.level
    ensures Eligible(ns, Watermark(applied), applied, proposed, now, hash) == Ok([])
  {
    var merged := MergeAll(proposed, applied);
    forall i | 0 <= i < |merged| ensures merged[i].timestamp.Some? {
      assert proposed[i] in proposed;
      var found := FindLevel(applied, proposed[i].level);
      assert found.Some?;
    }
    AllTimestampedExcluded(merged, Watermark(applied));
    EligibleSpec(ns, Watermark(applied), applied, proposed, now, hash);
  }

  /** Every eligible record carries the namespace it was selected for: the applied
      record's namespace wins in the merge, and it is either that namespace or
      absent (grouped under `"undefined"`), in which case the proposed record's
      stamped namespace stays. */
  lemma EligibleInNamespace(ns: string, watermark: int, applied: seq<Migration>, proposed: seq<Migration>,
                            now: Timestamp, hash: string -> string)
    requires forall m :: m in applied ==> NamespaceKey(m) == ns
    requires forall p :: p in proposed ==> p.namespace == Some(ns)
    requires Eligible(ns, watermark, applied, proposed, now, hash).Ok?
    ensures forall m :: m in Eligible(ns, watermark, applied, proposed, now, hash).value ==> m.namespace == Some(ns)
  {
    EligibleSpec(ns, watermark, applied, proposed, now, hash);
    var merged := MergeAll(proposed, applied);
    var kept := Kept(merged, watermark);
    var sorted := SortByLevel(kept);
    var es := StampAll(sorted, now, hash);
    SortedMembers(kept);
    forall i | 0 <= i < |merged| ensures merged[i].namespace == Some(ns) {
      assert proposed[i] in proposed;
    }
    forall m | m in es ensures m.namespace == Some(ns) {
      var i :| 0 <= i < |es| && es[i] == m;
      assert es[i] == Stamp(sorted[i], now, hash);
      assert sorted[i] in kept;
      assert sorted[i] in merged;
    }
  }

  lemma AllTimestampedExcluded(ms: seq<Migration>, watermark: int)
    requires forall i :: 0 <= i < |ms| ==> ms[i].timestamp.Some?
    ensures FirstSkipped(ms, watermark).None? && Kept(ms, watermark) == []
  {
    var kept := Kept(ms, watermark);
    if kept != [] {
      assert kept[0] in ms;
    }
  }
}
