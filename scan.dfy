/** lib/scan.js: turns a directory listing into migration records. The listing
    is stat-ed and its directories dropped, a `.marvrc` entry is read into the
    configuration and removed, every remaining file is read and built into a
    record when its name is a migration name the filter accepts, and the result
    is refused when two records share a level. */
module Scan {
  import opened Base
  import opened Records
  import opened Filenames
  import ScanDirectives

  /** An entry of the directory listing: its name, what `fs.lstat` says about
      whether it is a directory, and what `fs.readFile` gives for it. */
  datatype Entry = Entry(name: string, isDirectory: Result<bool>, content: Result<string>)

  /** The configuration that building reads: the filter (a regular expression
      applied to file names, taken here as a predicate), the directives every record
      starts from, and the namespace every record gets. */
  datatype Config = Config(filter: string -> bool, directives: map<string, Value>, namespace: Option<string>)

  /** `/.*\/` accepts every name. */
  predicate MatchAll(file: string)
  {
    true
  }

  /** `_.merge({ filter: /.*\/, directives: {} }, options)`: options given override the defaults. */
  function InitialConfig(filter: Option<string -> bool>, directives: Option<map<string, Value>>, namespace: Option<string>): (r: Config)
    ensures r.directives == (if directives.Some? then directives.value else map[])
    ensures r.namespace == namespace
    ensures forall file :: r.filter(file) == (filter.None? || filter.value(file))
  {
    Config(if filter.Some? then filter.value else MatchAll, if directives.Some? then directives.value else map[], namespace)
  }

  /** Directives merged key by key, those of `over` winning. */
  function MergeDirectives(base: map<string, Value>, over: map<string, Value>): (r: map<string, Value>)
    ensures forall k :: k in r <==> k in base || k in over
    ensures forall k :: k in over ==> r[k] == over[k]
    ensures forall k :: k in base && k !in over ==> r[k] == base[k]
  {
    base + over
  }

  /** What a parsed `.marvrc` holds of the configuration; absent fields stay as they are. */
  datatype RcConfig = RcConfig(filter: Option<string -> bool>, directives: map<string, Value>, namespace: Option<string>)

  /** `_.merge(config, JSON.parse(marvrc))`. */
  function MergeRc(config: Config, rc: RcConfig): (r: Config)
    ensures r.directives == MergeDirectives(config.directives, rc.directives)
    ensures rc.namespace.Some? ==> r.namespace == rc.namespace
    ensures rc.namespace.None? ==> r.namespace == config.namespace
    ensures forall file :: r.filter(file) == if rc.filter.Some? then rc.filter.value(file) else config.filter(file)
  {
    Config(if rc.filter.Some? then rc.filter.value else config.filter,
           MergeDirectives(config.directives, rc.directives),
           if rc.namespace.Some? then rc.namespace else config.namespace)
  }

  function Lookup(m: map<string, Value>, key: string): (r: Option<Value>)
    ensures r.Some? <==> key in m
    ensures r.Some? ==> r.value == m[key]
  {
    if key in m then Some(m[key]) else None
  }

  /** Parsed directive values are strings. */
  function AsValues(parsed: map<string, string>): (r: map<string, Value>)
    ensures forall k :: k in r <==> k in parsed
    ensures forall k :: k in r ==> r[k] == Str(parsed[k])
  {
    map k | k in parsed :: Str(parsed[k])
  }

  /** `buildMigration(file, script)`: no record when the name is no migration name or
      the filter refuses it; otherwise the level and comment come from the name, the
      directives of the configuration are overridden by those of the script, and the
      audit flag and namespace are those of the configuration. */
  function BuildMigration(file: string, script: string, config: Config): (r: Option<Migration>)
    ensures r.Some? <==> MatchName(file).Some? && config.filter(file)
    ensures r.Some? ==>
      var m := r.value;
      var name := MatchName(file).value;
      && m.filename == Some(file)
      && m.level == DecimalValue(name.digits)
      && m.comment == Some(NormalizeComment(name.comment))
      && m.script == script
      && m.directives.Some?
      && (forall k :: k in m.directives.value <==> k in config.directives || k in ScanDirectives.Parse(script))
      && (forall k :: k in ScanDirectives.Parse(script) ==> m.directives.value[k] == Str(ScanDirectives.Parse(script)[k]))
      && (forall k :: k in config.directives && k !in ScanDirectives.Parse(script) ==> m.directives.value[k] == config.directives[k])
      && m.audit == Lookup(config.directives, "audit")
      && m.namespace == config.namespace
      && m.timestamp.None? && m.checksum.None?
  {
    match MatchName(file)
    case None => None
    case Some(name) =>
      if !config.filter(file) then None
      else
        Some(Migration(
          Level(name), script, Some(file), Some(NormalizeComment(name.comment)),
          Some(MergeDirectives(config.directives, AsValues(ScanDirectives.Parse(script)))),
          Lookup(config.directives, "audit"), config.namespace, None, None))
  }

  // Directory entries

  /** The error of the first entry that could not be stat-ed. */
  function StatError(entries: seq<Entry>): (r: Option<Error>)
    ensures r.None? <==> forall i :: 0 <= i < |entries| ==> entries[i].isDirectory.Ok?
  {
    if entries == [] then None
    else if entries[0].isDirectory.Err? then Some(entries[0].isDirectory.error)
    else StatError(entries[1..])
  }

  predicate IsFile(e: Entry)
  {
    e.isDirectory == Ok(false)
  }

  /** The entries that are no directories, in listing order. */
  function FileEntries(entries: seq<Entry>): (r: seq<Entry>)
    ensures forall e :: e in r ==> e in entries && IsFile(e)
  {
    if entries == [] then []
    else (if IsFile(entries[0]) then [entries[0]] else []) + FileEntries(entries[1..])
  }

  /** `ensureFilesNotFolders`: fails when an entry cannot be stat-ed, otherwise
      drops the directories. */
  function Files(entries: seq<Entry>): (r: Result<seq<Entry>>)
    ensures r.Err? <==> exists i :: 0 <= i < |entries| && entries[i].isDirectory.Err?
  {
    match StatError(entries)
    case Some(e) => Err(e)
    case None => Ok(FileEntries(entries))
  }

  /** Every file of the listing is kept. */
  lemma {:induction false} FileEntriesKeepsFiles(entries: seq<Entry>, e: Entry)
    requires e in entries && IsFile(e)
    ensures e in FileEntries(entries)
  {
    if entries[0] != e {
      FileEntriesKeepsFiles(entries[1..], e);
    }
  }

  /** The name of the runtime configuration file. */
  const RcName := ".marvrc"

  /** `_.without(files, '.marvrc')`. */
  function Without(files: seq<Entry>, name: string): (r: seq<Entry>)
    ensures forall e :: e in r <==> e in files && e.name != name
  {
    if files == [] then []
    else (if files[0].name != name then [files[0]] else []) + Without(files[1..], name)
  }

  /** The first entry with the given name. */
  function Find(files: seq<Entry>, name: string): (r: Option<Entry>)
    ensures r.Some? ==> r.value in files && r.value.name == name
    ensures r.None? <==> forall e :: e in files ==> e.name != name
  {
    if files == [] then None
    else if files[0].name == name then Some(files[0])
    else Find(files[1..], name)
  }

  /** The files left to build and the configuration to build them with. */
  datatype Prepared = Prepared(files: seq<Entry>, config: Config)

  /** `getMarvRc`: without a `.marvrc` entry nothing changes; otherwise its content,
      parsed by `parseRc`, is merged into the configuration and the entry is removed,
      unless reading it fails. */
  function RcStep(files: seq<Entry>, config: Config, parseRc: string -> RcConfig): (r: Result<Prepared>)
    ensures Find(files, RcName).None? ==> r == Ok(Prepared(files, config))
    ensures r.Ok? ==> forall e :: e in r.value.files <==> e in files && e.name != RcName
  {
    match Find(files, RcName)
    case None => Ok(Prepared(files, config))
    case Some(rc) =>
      match rc.content
      case Err(e) => Err(e)
      case Ok(text) => Ok(Prepared(Without(files, RcName), MergeRc(config, parseRc(text))))
  }

  // Building the records

  /** The `getMigrations` reduce, as a left fold: each file is read, then built,
      and an unread file stops the fold with its error. */
  function BuildAll(files: seq<Entry>, config: Config): (r: Result<seq<Migration>>)
    ensures r.Ok? <==> forall i :: 0 <= i < |files| ==> files[i].content.Ok?
    ensures r.Ok? ==> |r.value| <= |files|
  {
    assert forall i :: 0 <= i < |files| - 1 ==> files[..|files| - 1][i] == files[i];
    if files == [] then Ok([])
    else
      match BuildAll(files[..|files| - 1], config)
      case Err(e) => Err(e)
      case Ok(ms) =>
        var file := files[|files| - 1];
        if file.content.Err? then Err(file.content.error) else Ok(ms + Record(file, config))
  }

  /** The error of the first file that cannot be read. */
  function ReadError(files: seq<Entry>): (r: Option<Error>)
    ensures r.None? <==> forall i :: 0 <= i < |files| ==> files[i].content.Ok?
  {
    if files == [] then None
    else if files[0].content.Err? then Some(files[0].content.error)
    else ReadError(files[1..])
  }

  /** Whether an entry gives a record. */
  predicate Accepted(e: Entry, config: Config)
  {
    MatchName(e.name).Some? && config.filter(e.name)
  }

  /** The record a readable file gives, if any. */
  function Record(e: Entry, config: Config): seq<Migration>
  {
    match e.content
    case Err(_) => []
    case Ok(script) =>
      match BuildMigration(e.name, script, config)
      case None => []
      case Some(m) => [m]
  }

  /** The records of the readable files, in listing order: the reference for `BuildAll`. */
  function Built(files: seq<Entry>, config: Config): seq<Migration>
  {
    if files == [] then [] else Record(files[0], config) + Built(files[1..], config)
  }

  lemma {:induction false} BuiltLast(files: seq<Entry>, config: Config)
    requires files != []
    ensures Built(files, config) == Built(files[..|files| - 1], config) + Record(files[|files| - 1], config)
    decreases |files|
  {
    var n := |files|;
    var last := Record(files[n - 1], config);
    if n == 1 {
      assert files[..0] == [];
      assert Built(files, config) == Record(files[0], config) + [];
    } else {
      BuiltLast(files[1..], config);
      assert files[1..][..n - 2] == files[1..n - 1];
      assert files[..n - 1][1..] == files[1..n - 1];
      var head := Record(files[0], config);
      var middle := Built(files[1..n - 1], config);
      assert Built(files, config) == head + (middle + last);
      assert Built(files[..n - 1], config) == head + middle;
      ConcatAssoc(head, middle, last);
    }
  }

  lemma {:induction false} ReadErrorLast(files: seq<Entry>)
    requires files != []
    ensures var init, last := files[..|files| - 1], files[|files| - 1];
      ReadError(files) == if ReadError(init).Some? then ReadError(init)
                          else if last.content.Err? then Some(last.content.error)
                          else None
    decreases |files|
  {
    var n := |files|;
    if n == 1 {
      assert files[1..] == [];
      assert files[..0] == [];
    } else {
      ReadErrorLast(files[1..]);
      assert files[1..][..n - 2] == files[1..n - 1];
      assert files[..n - 1][1..] == files[1..n - 1];
      assert files[..n - 1][0] == files[0];
    }
  }

  /** The fold fails with the first read error, and otherwise gives the records of
      the accepted files in listing order. */
  lemma {:induction false} BuildAllSpec(files: seq<Entry>, config: Config)
    ensures BuildAll(files, config) == match ReadError(files)
                                       case Some(e) => Err(e)
                                       case None => Ok(Built(files, config))
  {
    if files != [] {
      BuildAllSpec(files[..|files| - 1], config);
      BuiltLast(files, config);
      ReadErrorLast(files);
    }
  }

  /** The names of the accepted files, in listing order. */
  function AcceptedNames(files: seq<Entry>, config: Config): seq<Option<string>>
  {
    if files == [] then []
    else (if Accepted(files[0], config) then [Some(files[0].name)] else []) + AcceptedNames(files[1..], config)
  }

  function FilenamesOf(ms: seq<Migration>): (r: seq<Option<string>>)
    ensures |r| == |ms| && forall i :: 0 <= i < |ms| ==> r[i] == ms[i].filename
  {
    if ms == [] then [] else [ms[0].filename] + FilenamesOf(ms[1..])
  }

  lemma FilenamesOfAppend(a: seq<Migration>, b: seq<Migration>)
    ensures FilenamesOf(a + b) == FilenamesOf(a) + FilenamesOf(b)
  {
  }

  /** The records keep the listing order of their files, and every accepted file
      gives a record. */
  lemma {:induction false} BuiltOrder(files: seq<Entry>, config: Config)
    requires ReadError(files).None?
    ensures FilenamesOf(Built(files, config)) == AcceptedNames(files, config)
  {
    if files != [] {
      BuiltOrder(files[1..], config);
      FilenamesOfAppend(Record(files[0], config), Built(files[1..], config));
    }
  }

  /** Each record is built from one of the files, with the contract of `BuildMigration`. */
  lemma {:induction false} BuiltFrom(files: seq<Entry>, config: Config, m: Migration)
    requires m in Built(files, config)
    ensures exists e :: e in files && e.content.Ok? && BuildMigration(e.name, e.content.value, config) == Some(m)
  {
    if files[0].content.Ok? && BuildMigration(files[0].name, files[0].content.value, config) == Some(m) {
      assert files[0] in files;
    } else {
      BuiltFrom(files[1..], config, m);
      var e :| e in files[1..] && e.content.Ok? && BuildMigration(e.name, e.content.value, config) == Some(m);
      assert e in files;
    }
  }

  // Duplicate levels

  /** `_.findIndex(migrations, ...)` on the level. */
  function FirstLevelIndex(ms: seq<Migration>, level: int): (r: int)
    ensures -1 <= r < |ms|
    ensures r == -1 <==> forall i :: 0 <= i < |ms| ==> ms[i].level != level
    ensures r >= 0 ==> ms[r].level == level && forall i :: 0 <= i < r ==> ms[i].level != level
  {
    if ms == [] then -1
    else if ms[0].level == level then 0
    else
      var r := FirstLevelIndex(ms[1..], level);
      if r == -1 then -1 else r + 1
  }

  /** The `toDuplicateLevels` reduce over the first `n` records: a level is added,
      once, at a record that is not the first with its level. */
  function DuplicateLevels(ms: seq<Migration>, n: nat): (r: seq<int>)
    requires n <= |ms|
    ensures |r| <= n
    ensures forall i, j :: 0 <= i < j < |r| ==> r[i] != r[j]
  {
    if n == 0 then []
    else
      var dups := DuplicateLevels(ms, n - 1);
      var m := ms[n - 1];
      if FirstLevelIndex(ms, m.level) != n - 1 && m.level !in dups then dups + [m.level] else dups
  }

  /** How many of the first `n` records carry the level. */
  function CountLevel(ms: seq<Migration>, n: nat, level: int): nat
    requires n <= |ms|
  {
    if n == 0 then 0 else CountLevel(ms, n - 1, level) + (if ms[n - 1].level == level then 1 else 0)
  }

  lemma {:induction false} CountPositive(ms: seq<Migration>, n: nat, level: int)
    requires n <= |ms|
    ensures CountLevel(ms, n, level) > 0 <==> exists i :: 0 <= i < n && ms[i].level == level
  {
    if n > 0 {
      CountPositive(ms, n - 1, level);
    }
  }

  /** A count of two or more means two distinct records carry the level. */
  lemma {:induction false} CountRepeated(ms: seq<Migration>, n: nat, level: int)
    requires n <= |ms|
    ensures CountLevel(ms, n, level) >= 2 <==>
      exists i, j :: 0 <= i < j < n && ms[i].level == level && ms[j].level == level
  {
    if n > 0 {
      CountRepeated(ms, n - 1, level);
      CountPositive(ms, n - 1, level);
      if exists i, j :: 0 <= i < j < n && ms[i].level == level && ms[j].level == level {
        var i, j :| 0 <= i < j < n && ms[i].level == level && ms[j].level == level;
        if j < n - 1 {
          assert exists i, j :: 0 <= i < j < n - 1 && ms[i].level == level && ms[j].level == level;
        } else {
          assert exists i :: 0 <= i < n - 1 && ms[i].level == level;
        }
      }
      if CountLevel(ms, n, level) >= 2 && CountLevel(ms, n - 1, level) < 2 {
        var i :| 0 <= i < n - 1 && ms[i].level == level;
        assert 0 <= i < n - 1 < n && ms[i].level == level && ms[n - 1].level == level;
      }
    }
  }

  /** The `n`-th record is not the first with its level exactly when an earlier
      record carries it. */
  lemma NotFirstIndex(ms: seq<Migration>, n: nat)
    requires 0 < n <= |ms|
    ensures FirstLevelIndex(ms, ms[n - 1].level) != n - 1 <==> CountLevel(ms, n - 1, ms[n - 1].level) > 0
  {
    var level := ms[n - 1].level;
    var first := FirstLevelIndex(ms, level);
    CountPositive(ms, n - 1, level);
    if CountLevel(ms, n - 1, level) > 0 {
      var i :| 0 <= i < n - 1 && ms[i].level == level;
      assert first <= i;
    }
    if first != n - 1 {
      assert 0 <= first < n - 1 && ms[first].level == level;
    }
  }

  /** A level is listed exactly when two or more records carry it. */
  lemma {:induction false} DuplicateLevelsSpec(ms: seq<Migration>, n: nat, level: int)
    requires n <= |ms|
    ensures level in DuplicateLevels(ms, n) <==> CountLevel(ms, n, level) >= 2
  {
    if n > 0 {
      var dups := DuplicateLevels(ms, n - 1);
      var m := ms[n - 1];
      var earlier := CountLevel(ms, n - 1, m.level);
      DuplicateLevelsSpec(ms, n - 1, level);
      DuplicateLevelsSpec(ms, n - 1, m.level);
      NotFirstIndex(ms, n);
      if FirstLevelIndex(ms, m.level) != n - 1 && m.level !in dups {
        assert DuplicateLevels(ms, n) == dups + [m.level];
        assert level in dups + [m.level] <==> level in dups || level == m.level;
      } else {
        assert DuplicateLevels(ms, n) == dups;
      }
      if level == m.level {
        assert CountLevel(ms, n, level) == earlier + 1;
      } else {
        assert CountLevel(ms, n, level) == CountLevel(ms, n - 1, level);
      }
    }
  }

  /** Whether two or more records carry the level of `m`. */
  predicate HasTwin(ms: seq<Migration>, m: Migration)
  {
    CountLevel(ms, |ms|, m.level) >= 2
  }

  /** The records whose level is in `levels`, in order. */
  function WithLevels(ms: seq<Migration>, levels: seq<int>): seq<Migration>
  {
    if ms == [] then []
    else (if ms[0].level in levels then [ms[0]] else []) + WithLevels(ms[1..], levels)
  }

  /** `_.map(migrations, 'filename')` as `join` prints it; an absent name prints as nothing. */
  function FilenameText(m: Migration): string
  {
    if m.filename.Some? then m.filename.value else ""
  }

  function FilenameTexts(ms: seq<Migration>): (r: seq<string>)
    ensures |r| == |ms| && forall i :: 0 <= i < |ms| ==> r[i] == FilenameText(ms[i])
  {
    if ms == [] then [] else [FilenameText(ms[0])] + FilenameTexts(ms[1..])
  }

  /** The message naming the records with a duplicated level. */
  function DuplicateMessage(duplicates: seq<Migration>): string
  {
    "Found migrations with duplicate levels: " + Join(FilenameTexts(duplicates), ", ")
  }

  /** `validateMigrations`. */
  function Validate(ms: seq<Migration>): (r: Result<seq<Migration>>)
    ensures r.Ok? ==> r.value == ms
    ensures |ms| <= 1 ==> r.Ok?
  {
    assert |ms| == 1 ==> DuplicateLevels(ms, 0) == [] && FirstLevelIndex(ms, ms[0].level) == 0;
    assert |ms| == 1 ==> DuplicateLevels(ms, |ms|) == [];
    assert |ms| == 1 ==> ms[1..] == [] && WithLevels(ms, []) == [];
    var duplicates := WithLevels(ms, DuplicateLevels(ms, |ms|));
    if |duplicates| > 0 then Err(Error(DuplicateMessage(duplicates))) else Ok(ms)
  }

  /** The records that have a twin, in order: the reference for the duplicate filter. */
  function Twinned(ms: seq<Migration>, all: seq<Migration>): seq<Migration>
  {
    if ms == [] then []
    else (if HasTwin(all, ms[0]) then [ms[0]] else []) + Twinned(ms[1..], all)
  }

  lemma {:induction false} WithLevelsTwinned(ms: seq<Migration>, all: seq<Migration>)
    ensures WithLevels(ms, DuplicateLevels(all, |all|)) == Twinned(ms, all)
  {
    if ms != [] {
      WithLevelsTwinned(ms[1..], all);
      DuplicateLevelsSpec(all, |all|, ms[0].level);
    }
  }

  lemma {:induction false} TwinnedEmpty(ms: seq<Migration>, all: seq<Migration>)
    ensures Twinned(ms, all) == [] <==> forall i :: 0 <= i < |ms| ==> !HasTwin(all, ms[i])
  {
    if ms != [] {
      TwinnedEmpty(ms[1..], all);
      assert forall i :: 1 <= i < |ms| ==> ms[1..][i - 1] == ms[i];
    }
  }

  /** Validation passes the records through unchanged when all levels differ, and
      otherwise fails naming every record that shares its level with another, in
      order. */
  lemma ValidateSpec(ms: seq<Migration>)
    ensures Validate(ms).Ok? <==> forall i, j :: 0 <= i < j < |ms| ==> ms[i].level != ms[j].level
    ensures Validate(ms).Ok? ==> Validate(ms).value == ms
    ensures Validate(ms).Err? ==> Validate(ms).error == Error(DuplicateMessage(Twinned(ms, ms)))
  {
    WithLevelsTwinned(ms, ms);
    TwinnedEmpty(ms, ms);
    if exists i, j :: 0 <= i < j < |ms| && ms[i].level == ms[j].level {
      var i, j :| 0 <= i < j < |ms| && ms[i].level == ms[j].level;
      CountRepeated(ms, |ms|, ms[i].level);
      assert HasTwin(ms, ms[i]);
    }
    if exists i :: 0 <= i < |ms| && HasTwin(ms, ms[i]) {
      var i :| 0 <= i < |ms| && HasTwin(ms, ms[i]);
      CountRepeated(ms, |ms|, ms[i].level);
    }
  }

  // The scan

  /** The whole scan of a listing, from the configuration built from the options. */
  function ScanSpec(listing: Result<seq<Entry>>, config: Config, parseRc: string -> RcConfig): (r: Result<seq<Migration>>)
    ensures listing.Err? ==> r == Err(listing.error)
    ensures r.Ok? ==> forall i, j :: 0 <= i < j < |r.value| ==> r.value[i].level != r.value[j].level
  {
    match listing
    case Err(e) => Err(e)
    case Ok(entries) =>
      match Files(entries)
      case Err(e) => Err(e)
      case Ok(files) =>
        match RcStep(files, config, parseRc)
        case Err(e) => Err(e)
        case Ok(prepared) =>
          match BuildAll(prepared.files, prepared.config)
          case Err(e) => Err(e)
          case Ok(ms) =>
            ValidateSpec(ms);
            Validate(ms)
  }

  /** An early read error decides the fold. */
  lemma {:induction false} BuildAllStops(files: seq<Entry>, k: nat, config: Config)
    requires k <= |files| && BuildAll(files[..k], config).Err?
    ensures BuildAll(files, config) == BuildAll(files[..k], config)
    decreases |files|
  {
    if k < |files| {
      var init := files[..|files| - 1];
      assert init[..k] == files[..k];
      BuildAllStops(init, k, config);
    } else {
      assert files[..k] == files;
    }
  }

  /** The runtime state of one scan: the configuration that `getMarvRc` updates in
      place and that building reads. */
  class Scanner {
    var config: Config

    constructor (config: Config)
      ensures this.config == config
    {
      this.config := config;
    }

    /** `getMarvRc`. */
    method GetMarvRc(files: seq<Entry>, parseRc: string -> RcConfig) returns (r: Result<seq<Entry>>)
      modifies this
      ensures match RcStep(files, old(config), parseRc)
              case Err(e) => r == Err(e) && config == old(config)
              case Ok(prepared) => r == Ok(prepared.files) && config == prepared.config
    {
      var rc := Find(files, RcName);
      if rc.None? {
        return Ok(files);
      }
      match rc.value.content
      case Err(e) =>
        r := Err(e);
      case Ok(text) =>
        config := MergeRc(config, parseRc(text));
        r := Ok(Without(files, RcName));
    }

    /** `getMigrations`: the reduce reading and building one file at a time. */
    method GetMigrations(files: seq<Entry>) returns (r: Result<seq<Migration>>)
      ensures r == BuildAll(files, config)
    {
      var ms: seq<Migration> := [];
      var i := 0;
      while i < |files|
        invariant 0 <= i <= |files|
        invariant BuildAll(files[..i], config) == Ok(ms)
      {
        var file := files[i];
        assert files[..i + 1][..i] == files[..i];
        if file.content.Err? {
          BuildAllStops(files, i + 1, config);
          return Err(file.content.error);
        }
        var m := BuildMigration(file.name, file.content.value, config);
        assert files[..i + 1][i] == file;
        assert BuildAll(files[..i + 1], config) == Ok(ms + Record(file, config));
        if m.Some? {
          ms := ms + [m.value];
        } else {
          assert ms + Record(file, config) == ms;
        }
        i := i + 1;
      }
      assert files[..i] == files;
      r := Ok(ms);
    }

    /** The `async.seq` of the scan steps, each stopping the scan with its error. */
    method Run(listing: Result<seq<Entry>>, parseRc: string -> RcConfig) returns (r: Result<seq<Migration>>)
      modifies this
      ensures r == ScanSpec(listing, old(config), parseRc)
    {
      if listing.Err? {
        return Err(listing.error);
      }
      var files := Files(listing.value);
      if files.Err? {
        return Err(files.error);
      }
      var kept := GetMarvRc(files.value, parseRc);
      if kept.Err? {
        return Err(kept.error);
      }
      var ms := GetMigrations(kept.value);
      if ms.Err? {
        return Err(ms.error);
      }
      r := Validate(ms.value);
    }
  }

  /** The options a caller passes, which the scan rewrites in place. */
  class Options {
    var migrations: Option<map<string, Value>>
    var directives: Option<map<string, Value>>
    var quiet: bool
    var filter: Option<string -> bool>
    var namespace: Option<string>

    constructor (migrations: Option<map<string, Value>>, directives: Option<map<string, Value>>, quiet: bool,
                 filter: Option<string -> bool>, namespace: Option<string>)
      ensures this.migrations == migrations && this.directives == directives && this.quiet == quiet
      ensures this.filter == filter && this.namespace == namespace
    {
      this.migrations := migrations;
      this.directives := directives;
      this.quiet := quiet;
      this.filter := filter;
      this.namespace := namespace;
    }

    /** The deprecated `migrations` option is moved to `directives`, with a warning
        unless `quiet` is set. */
    method RewriteDeprecated() returns (warned: bool)
      modifies this
      ensures old(migrations).Some? ==> directives == old(migrations) && warned == !quiet
      ensures old(migrations).None? ==> directives == old(directives) && !warned
      ensures migrations.None?
      ensures quiet == old(quiet) && filter == old(filter) && namespace == old(namespace)
    {
      warned := false;
      if migrations.Some? {
        warned := !quiet;
        directives := migrations;
        migrations := None;
      }
    }
  }

  /** `scan(directory, options)` over the listing of `directory`. */
  method Scan(options: Options, listing: Result<seq<Entry>>, parseRc: string -> RcConfig) returns (r: Result<seq<Migration>>, warned: bool)
    modifies options
    ensures warned == (old(options.migrations).Some? && !old(options.quiet))
    ensures r == ScanSpec(listing, InitialConfig(old(options.filter),
                                                 if old(options.migrations).Some? then old(options.migrations) else old(options.directives),
                                                 old(options.namespace)), parseRc)
  {
    warned := options.RewriteDeprecated();
    var scanner := new Scanner(InitialConfig(options.filter, options.directives, options.namespace));
    r := scanner.Run(listing, parseRc);
  }

  // Properties of the whole scan

  /** The configuration the records are built with: the given one, with the
      `.marvrc` of the listing merged in when there is one. */
  function EffectiveConfig(entries: seq<Entry>, config: Config, parseRc: string -> RcConfig): Config
  {
    match RcStep(FileEntries(entries), config, parseRc)
    case Ok(prepared) => prepared.config
    case Err(_) => config
  }

  /** The names of the listing that give records: files other than `.marvrc` whose
      names are migration names the filter accepts, in listing order. */
  function CandidateNames(entries: seq<Entry>, config: Config): seq<Option<string>>
  {
    if entries == [] then []
    else
      var e := entries[0];
      (if IsFile(e) && e.name != RcName && Accepted(e, config) then [Some(e.name)] else [])
      + CandidateNames(entries[1..], config)
  }

  lemma FileEntriesCons(e: Entry, rest: seq<Entry>)
    ensures FileEntries([e] + rest) == (if IsFile(e) then [e] else []) + FileEntries(rest)
  {
    assert ([e] + rest)[1..] == rest;
  }

  lemma WithoutCons(e: Entry, rest: seq<Entry>, name: string)
    ensures Without([e] + rest, name) == (if e.name != name then [e] else []) + Without(rest, name)
  {
    assert ([e] + rest)[1..] == rest;
  }

  lemma AcceptedNamesCons(e: Entry, rest: seq<Entry>, config: Config)
    ensures AcceptedNames([e] + rest, config) == (if Accepted(e, config) then [Some(e.name)] else []) + AcceptedNames(rest, config)
  {
    assert ([e] + rest)[1..] == rest;
  }

  lemma {:induction false} CandidateNamesCompose(entries: seq<Entry>, config: Config)
    ensures AcceptedNames(Without(FileEntries(entries), RcName), config) == CandidateNames(entries, config)
  {
    if entries != [] {
      var e, tail := entries[0], entries[1..];
      CandidateNamesCompose(tail, config);
      var rest := FileEntries(tail);
      var cands := CandidateNames(tail, config);
      assert entries == [e] + tail;
      FileEntriesCons(e, tail);
      if !IsFile(e) {
        assert FileEntries(entries) == [] + rest == rest;
        assert CandidateNames(entries, config) == [] + cands;
      } else {
        assert FileEntries(entries) == [e] + rest;
        WithoutCons(e, rest, RcName);
        if e.name == RcName {
          assert Without([e] + rest, RcName) == [] + Without(rest, RcName) == Without(rest, RcName);
          assert CandidateNames(entries, config) == [] + cands;
        } else {
          assert Without([e] + rest, RcName) == [e] + Without(rest, RcName);
          AcceptedNamesCons(e, Without(rest, RcName), config);
        }
      }
    }
  }

  lemma {:induction false} WithoutAbsent(files: seq<Entry>, name: string)
    requires forall e :: e in files ==> e.name != name
    ensures Without(files, name) == files
  {
    if files != [] {
      WithoutAbsent(files[1..], name);
    }
  }

  /** What a successful scan went through: every entry was stat-ed, `.marvrc`
      (if any) was read and taken out, every remaining file was read, and the
      built records passed validation unchanged. */
  lemma ScanSucceeded(entries: seq<Entry>, config: Config, parseRc: string -> RcConfig)
    requires ScanSpec(Ok(entries), config, parseRc).Ok?
    ensures Files(entries) == Ok(FileEntries(entries))
    ensures RcStep(FileEntries(entries), config, parseRc).Ok?
    ensures var prepared := RcStep(FileEntries(entries), config, parseRc).value;
      && prepared.config == EffectiveConfig(entries, config, parseRc)
      && prepared.files == Without(FileEntries(entries), RcName)
      && ReadError(prepared.files).None?
      && ScanSpec(Ok(entries), config, parseRc).value == Built(prepared.files, prepared.config)
      && forall i, j :: 0 <= i < j < |Built(prepared.files, prepared.config)| ==>
           Built(prepared.files, prepared.config)[i].level != Built(prepared.files, prepared.config)[j].level
  {
    var files := FileEntries(entries);
    assert Files(entries) == Ok(files);
    var prepared := RcStep(files, config, parseRc).value;
    BuildAllSpec(prepared.files, prepared.config);
    var ms := Built(prepared.files, prepared.config);
    assert BuildAll(prepared.files, prepared.config) == Ok(ms);
    ValidateSpec(ms);
    if Find(files, RcName).None? {
      WithoutAbsent(files, RcName);
    }
  }

  /** A successful scan returns one record per candidate file, in listing order. */
  lemma ScanKeepsListingOrder(entries: seq<Entry>, config: Config, parseRc: string -> RcConfig)
    requires ScanSpec(Ok(entries), config, parseRc).Ok?
    ensures FilenamesOf(ScanSpec(Ok(entries), config, parseRc).value)
            == CandidateNames(entries, EffectiveConfig(entries, config, parseRc))
  {
    ScanSucceeded(entries, config, parseRc);
    var prepared := RcStep(FileEntries(entries), config, parseRc).value;
    BuiltOrder(prepared.files, prepared.config);
    CandidateNamesCompose(entries, prepared.config);
  }

  /** Every record of a successful scan is built from a file of the listing other
      than `.marvrc`, and no two records share a level. */
  lemma ScanRecords(entries: seq<Entry>, config: Config, parseRc: string -> RcConfig)
    requires ScanSpec(Ok(entries), config, parseRc).Ok?
    ensures var ms := ScanSpec(Ok(entries), config, parseRc).value;
      && (forall m :: m in ms ==>
            exists e :: && e in entries && IsFile(e) && e.name != RcName && e.content.Ok?
                        && BuildMigration(e.name, e.content.value, EffectiveConfig(entries, config, parseRc)) == Some(m))
      && (forall i, j :: 0 <= i < j < |ms| ==> ms[i].level != ms[j].level)
  {
    ScanSucceeded(entries, config, parseRc);
    var prepared := RcStep(FileEntries(entries), config, parseRc).value;
    var ms := Built(prepared.files, prepared.config);
    forall m | m in ms
      ensures exists e :: && e in entries && IsFile(e) && e.name != RcName && e.content.Ok?
                          && BuildMigration(e.name, e.content.value, prepared.config) == Some(m)
    {
      BuiltFrom(prepared.files, prepared.config, m);
    }
  }

  /** A scan whose records share a level fails with the message naming them. */
  lemma ScanRefusesDuplicates(entries: seq<Entry>, config: Config, parseRc: string -> RcConfig, ms: seq<Migration>)
    requires Files(entries).Ok? && RcStep(Files(entries).value, config, parseRc).Ok?
    requires var prepared := RcStep(Files(entries).value, config, parseRc).value;
      BuildAll(prepared.files, prepared.config) == Ok(ms)
    requires exists i, j :: 0 <= i < j < |ms| && ms[i].level == ms[j].level
    ensures ScanSpec(Ok(entries), config, parseRc) == Err(Error(DuplicateMessage(Twinned(ms, ms))))
  {
    ValidateSpec(ms);
  }
}
