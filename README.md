# marv migration engine in Dafny

marv is a schema-migration sequencer. This project models its core:

- **Scanning.** A directory listing becomes a list of migration records. Each record has a level taken from its file name, a comment, its script, and directives that come from the configuration and from `-- @MARV key = value` lines in the script.
- **Migrating.** A run connects to a storage driver and ensures and locks the history store. It reads the applied history and, for each namespace, selects the records still to run and runs them one by one. It then unlocks and disconnects.
- **Dropping.** The history store is dropped between a connect and a disconnect.

The model is organised by the program's own modules:

| Dafny module | file | models |
|---|---|---|
| `Base` | base.dfy | options, results, errors, directive values, the character classes and string operations the regular expressions rely on |
| `Records` | records.dfy | the migration record and the driver, as an object that records its call trace and answers as a script says |
| `Selection` | selection.dfy | the pure part of lib/migrate.js: default namespace, grouping, watermark, merge, classification, sort and stamp |
| `Migrate` | migrate.dfy | the run protocol of lib/migrate.js: a reference definition `Protocol` and the procedure `Migrate` proved to make exactly its calls |
| `Directives` | directives.dfy | the directive syntax both parsers share, and the map-filling loop |
| `ScanDirectives` | scan_directives.dfy | the directive parser inside lib/scan.js (value = rest of the line, trimmed) |
| `LegacyDirectives` | legacy_directives.dfy | lib/parseDirectives.js (value = first token) |
| `Filenames` | filenames.dfy | the migration file-name pattern, the level and the comment |
| `Scan` | scan.dfy | lib/scan.js: stat filtering, `.marvrc`, building, the reduce, validation, the option rewrite |
| `Drop` | drop.dfy | lib/drop.js |
| `Scenarios`, `ScanScenarios` | scenarios.dfy, scan_scenarios.dfy | concrete runs and readings matching the repository's test suites |

**The driver.** A `Records.Driver` holds the trace of calls made to it (`trace`). It also holds a `DriverScript`: the history it returns and a map from trace positions to errors. The call made at trace position `n` fails exactly when `n` is a key of that map. `Migrate.Migrate` and `Drop.Drop` are proved to leave the trace equal to the old trace followed by the calls of a pure reference function (`Migrate.Protocol`, `Drop.DropRun`), and to return that function's error. The scanner makes no driver call; `Scan.Scanner.Run` is proved to return exactly the reference scan `Scan.ScanSpec`. The lemmas about the reference functions carry the properties of the protocol:

- call order: `Migrate.MainSequenceCalls`, `Migrate.OpeningCalls`, `Migrate.RunEligibleCalls`;
- fail-fast, and which error is reported: `Migrate.OpeningStops`, `Migrate.RunEligibleStops`, `Migrate.NamespacesRunStops`, `Migrate.MainSequenceStops`;
- cleanup exactly when connect succeeded, with cleanup errors discarded: `Migrate.ExecutionCleanup`;
- only eligible records are ever run: `Migrate.RunsOnlyEligible`;
- each namespace's selection depends only on its own history and proposals: `Migrate.SelectIsLocal`.

**Where the code decides.** In these places the written description of marv differs from the code, and the model follows the code:

- **Audit.** A skipped record is excluded silently when `directives.audit` is *truthy* (lib/migrate.js:90). The description says an explicit `false`.
- **No mirroring of `audit`.** lib/migrate.js never copies a top-level `audit` field into `directives.audit` at run time.
- **Cleanup.** Disconnect is not attempted after a failed unlock, and cleanup errors are discarded (lib/migrate.js:19-25, 117-125). The description says disconnect is always attempted and a cleanup error may be reported.
- **Drop.** drop.js disconnects even when connect failed (lib/drop.js:6-10).
- **Which gap is reported.** The error names the *first* skipped record in proposed order. With history `[3]` and proposals `1..5`, that is level 1, not level 2.
- **Tests that expect success.** Some tests use stub histories whose records carry no `timestamp`. They expect only the records above the history to run, but the code does otherwise:
  - test/callback-api.test.js:25-42 and :44-63, and the same scenarios in test/promise-api.test.js. The stub gives the history the namespace `default`. Level 1 is then untimestamped and at or below the watermark, so lib/migrate.js:88-91 reports "Migration 1 from namespace: default was skipped". `Scenarios.UntimestampedHistoryIsSkipped` states this outcome for the first of them.
  - test/callback-api.test.js:78-105 and its promise twin. `outer space` is the first namespace processed. Its applied level 2 has no timestamp and merges with the proposed level 2, so the code reports "Migration 2 from namespace: outer space was skipped".
  - test/suite.js:19-55. That stub returns history records without a namespace. They group under `"undefined"` (lib/migrate.js:54, 60), so `default` has watermark 0 and every proposed record runs, with no error. `Scenarios.UnnamespacedHistoryIsIgnored` states this grouping.

## Model

| member | source | states |
|---|---|---|
| Base.LowerChar | lib/scan.js:88 | upper-case ASCII letters map to lower-case letters; every other character stays as it is |
| Base.Lower | lib/scan.js:88 | `toLowerCase` keeps the length and lower-cases each character |
| Base.NatToString | lib/migrate.js:91 | the decimal notation of a level is a non-empty string of digits |
| Base.IntToString | lib/migrate.js:91 | `${level}` for an integer level, a minus sign before the digits of a negative one (definition only; the digits are stated by `NatToString`) |
| Base.DecimalRoundTrip | lib/scan.js:103 | `parseInt` of the decimal notation of a number gives the number back |
| Base.LeadingZeroIgnored | lib/scan.js:103 | a leading `0` does not change the value `parseInt` reads |
| Base.DecimalValue | lib/scan.js:103 | `parseInt(digits, 10)` read most significant digit first (definition only; `DecimalRoundTrip` and `LeadingZeroIgnored` state it) |
| Base.Truthy | lib/migrate.js:90 | JavaScript truthiness of a directive value: a non-empty string, `true`, a non-zero number; never `null` (definition only; used by `Selection.Audited`) |
| Base.Join | lib/scan.js:69 | `join(sep)`: the parts with the separator between neighbours only (definition only; `ScanScenarios.ExampleDuplicates` shows it on the duplicate message) |
| Base.Trim | lib/scan.js:88 | `trim` gives a slice of the input with only white space cut at either end, and the result neither starts nor ends with white space |
| Records.DriverScript.Outcome | lib/migrate.js:28-35 | a driver call fails exactly at the scripted positions, with the scripted error |
| Records.Driver.constructor | lib/migrate.js:9 | a new driver has an empty trace and the given script |
| Records.Driver.Connect | lib/migrate.js:30 | appends `connect` to the trace and answers as scripted |
| Records.Driver.EnsureMigrations | lib/migrate.js:39 | appends `ensureMigrations` to the trace and answers as scripted |
| Records.Driver.LockMigrations | lib/migrate.js:44 | appends `lockMigrations` to the trace and answers as scripted |
| Records.Driver.GetMigrations | lib/migrate.js:49 | appends `getMigrations`; on success yields the scripted history |
| Records.Driver.RunMigration | lib/migrate.js:111 | appends `runMigration(m)` for the given record and answers as scripted |
| Records.Driver.UnlockMigrations | lib/migrate.js:119 | appends `unlockMigrations` to the trace and answers as scripted |
| Records.Driver.Disconnect | lib/migrate.js:124 | appends `disconnect` to the trace and answers as scripted |
| Records.Driver.DropMigrations | lib/drop.js:19 | appends `dropMigrations` to the trace and answers as scripted |
| Selection.StampDefaultNamespace | lib/migrate.js:133-135 | a nil namespace becomes `"default"`; a record with a namespace is returned unchanged; no other field changes |
| Selection.StampDefaultNamespaces | lib/migrate.js:55 | every proposed record is stamped, in order |
| Selection.NamespaceKey | lib/migrate.js:54 | the key `_.groupBy` files a record under: its namespace, or `"undefined"` when it has none (definition only; `InNamespace` and `Scenarios.UnnamespacedHistoryIsIgnored` state its use) |
| Selection.InNamespace | lib/migrate.js:54 | a group holds exactly the records whose namespace key is that namespace |
| Selection.InNamespaceAppend | lib/migrate.js:54-55 | grouping distributes over concatenation, so a group keeps its records in their original relative order |
| Selection.InNamespaceCount | lib/migrate.js:54-55 | a record occurs in the group of its own key exactly as often as in the input, and in no other group |
| Selection.FirstIndex | lib/migrate.js:58 | the first occurrence of a key |
| Selection.FirstSeen | lib/migrate.js:55-58 | group keys are distinct and are exactly the keys that occur |
| Selection.FirstSeenOrder | lib/migrate.js:55-58 | groups are listed in the order their keys first occur |
| Selection.FirstIndexPrefix | lib/migrate.js:55-58 | appending a key does not move an earlier first occurrence |
| Selection.Keys | lib/migrate.js:54-55 | the grouping key of each record, in order |
| Selection.Namespaces | lib/migrate.js:55-58 | the key of every proposed record is among the namespaces processed, and no namespace is listed twice |
| Selection.NamespacesComplete | lib/migrate.js:57-58 | every namespace of a proposed record is processed, only those are, and each once |
| Selection.Insert | lib/migrate.js:93 | insertion adds exactly one record, a permutation of the input plus it |
| Selection.InsertSorted | lib/migrate.js:93 | insertion keeps a level-sorted sequence sorted |
| Selection.SortByLevel | lib/migrate.js:93 | `sortBy('level')` gives an ascending permutation of its input |
| Selection.InsertAtLevel | lib/migrate.js:93 | insertion puts the record first among those of its level |
| Selection.SortByLevelStable | lib/migrate.js:93 | the sort is stable: records of one level keep their relative order |
| Selection.SortedMembers | lib/migrate.js:93 | every sorted record comes from the input |
| Selection.Watermark | lib/migrate.js:72-75 | 0 for an empty history; otherwise the maximum applied level, attained by some record |
| Selection.FindLevel | lib/migrate.js:84 | the applied record found has the candidate's level and is the first such record of the history; none is found only when no applied record has that level |
| Selection.Overlay | lib/migrate.js:85 | the object spread `{ ...candidate, ...previous }` (definition only; its effect is stated by `MergeApplied`) |
| Selection.MergeApplied | lib/migrate.js:84-85 | the merge keeps the level; an unmatched candidate is unchanged; with a match, the script is the applied record's and every optional field (directives, audit, namespace, timestamp, checksum, file name, comment) is the applied record's when it has one and the candidate's otherwise |
| Selection.MergeAll | lib/migrate.js:83-86 | every proposed record is merged, in order |
| Selection.Audited | lib/migrate.js:90 | a record is audited when it has directives whose `audit` entry is truthy (definition only; used by `Classify`) |
| Selection.Classify | lib/migrate.js:87-91 | kept iff untimestamped and above the watermark; skipped iff untimestamped, at or below the watermark and not audited; otherwise excluded |
| Selection.SkippedMessage | lib/migrate.js:91 | the text of the error thrown for a skipped record (definition only; its use is stated by `FilterMergedSpec`) |
| Selection.Kept | lib/migrate.js:87-90 | the filter keeps exactly the records classified as kept |
| Selection.KeptAppend | lib/migrate.js:87-90 | the filter distributes over concatenation, so kept records stay in their original relative order |
| Selection.KeptCount | lib/migrate.js:87-90 | a kept record is kept as many times as it occurs, so duplicates are not removed; other records are never kept |
| Selection.FirstSkipped | lib/migrate.js:91 | the position of the first skipped record, and none only when no record is skipped |
| Selection.FilterMerged | lib/migrate.js:87-92 | the filter step that throws at a skipped record (definition only; its behaviour is stated by `FilterMergedSpec`) |
| Selection.FilterMergedSpec | lib/migrate.js:87-92 | the filter throws the "was skipped" message at the first skipped record, and otherwise yields the kept records |
| Selection.Stamp | lib/migrate.js:94 | timestamp and checksum default to `now` and `md5(script)`; fields the record has win; nothing else changes |
| Selection.StampAll | lib/migrate.js:94 | every record is stamped, in order |
| Selection.StampAllInsert | lib/migrate.js:93-94 | stamping keeps levels, so stamping after an insertion by level gives the stamped record inserted into the stamped sequence |
| Selection.StampAllSort | lib/migrate.js:93-94 | stamping commutes with the sort by level: sorting then stamping equals stamping then sorting |
| Selection.Eligible | lib/migrate.js:77-100 | merge, filter or throw, sort by level, stamp (definition only; stated outright by `EligibleSpec` and `EligibleRecords`) |
| Selection.EligibleSpec | lib/migrate.js:77-100 | the selection fails with the first skipped record's message, and otherwise is the kept records sorted by level and stamped |
| Selection.EligibleRecords | lib/migrate.js:77-100 | eligible records are in ascending level order, above the watermark and timestamped `now`; they are the stamped kept merged records, one for each, copies included (same length and same multiset) |
| Selection.FullyAppliedSelectsNothing | lib/migrate.js:84-88 | a namespace whose every proposed level is applied with a timestamp selects nothing and raises no error |
| Selection.EligibleInNamespace | lib/migrate.js:60-63 | when the history and the proposals are one namespace's, every eligible record carries that namespace |
| Selection.AllTimestampedExcluded | lib/migrate.js:88 | timestamped records are never kept and never skipped |
| Migrate.Select | lib/migrate.js:59-63 | one namespace's watermark and eligible records, computed from that namespace's history and proposals (definition only; `SelectIsLocal` and `SelectEligible` state what it promises) |
| Migrate.Selections | lib/migrate.js:57-63 | one selection per namespace, the k-th for the k-th namespace; `SelectIsLocal` states that each depends on that namespace's records only |
| Migrate.RunSelections | lib/migrate.js:54-63 | a run's namespaces and their selections: stamp the default namespace, group, select per namespace (definition only; `RunSelectionsPromise` and `RunSelectionIsLocal` state it) |
| Migrate.SelectIsLocal | lib/migrate.js:60-63 | a namespace's selection is the same for any two histories and any two proposal lists that agree on that namespace's records |
| Migrate.RunSelectionIsLocal | lib/migrate.js:54-63 | in a run, a namespace's selection does not change when the history changes only in other namespaces |
| Migrate.RunMigrations | lib/migrate.js:106-115 | the procedure makes exactly the calls of the reference run over the eligible records and reports its error |
| Migrate.MigrateNamespace | lib/migrate.js:59-66 | a failed selection makes no call and is the namespace's error; otherwise the records run |
| Migrate.NamespaceMigrations | lib/migrate.js:52-70 | the namespace loop makes exactly the reference calls over the run's selections and reports the reference error |
| Migrate.MigrateSelections | lib/migrate.js:57-69 | the loop over the namespaces' selections stops at the first error and matches the reference run |
| Migrate.Open | lib/migrate.js:12-16 | connect, ensure, lock and getMigrations run in order and make exactly the calls of `Opening`, whose fail-fast behaviour `OpeningStops` states; `connected` is set exactly when connect succeeded |
| Migrate.MainSteps | lib/migrate.js:12-18 | the main sequence makes exactly the reference calls and reports whether connect succeeded |
| Migrate.Migrate | lib/migrate.js:6-26 | a whole run leaves the trace extended by exactly the calls of `Protocol` and reports exactly its error |
| Migrate.RunCalls | lib/migrate.js:108-112 | the `runMigration` calls for the given records, one per record, in order |
| Migrate.RunEligible | lib/migrate.js:106-115 | the eligible records run in turn, stopping at the first failed call (definition only; stated by `RunEligibleCalls` and `RunEligibleStops`) |
| Migrate.RunEligibleCalls | lib/migrate.js:108-114 | records are run in order, a prefix of them, and all of them on success |
| Migrate.RunEligibleStops | lib/migrate.js:108-114 | success iff no run call fails; on failure the error is the last call's and every earlier call succeeded |
| Migrate.NamespacesRunCalls | lib/migrate.js:57-69 | the namespace loop runs a prefix of the planned records, all of them on success, and succeeds only if every selection did; `NamespacesRunStops` states where it stops |
| Migrate.NamespacesRun | lib/migrate.js:57-69 | the namespace loop succeeds only if every selection still to process succeeded |
| Migrate.NamespaceRun | lib/migrate.js:59-66 | one namespace's step: a failed selection is its error with no call, otherwise its records run (definition only; `NamespacesRunStops` states the loop over it) |
| Migrate.FirstSelectionError | lib/migrate.js:63-64 | none exactly when every selection from that position on succeeded; otherwise the first failed selection's error |
| Migrate.NamespacesRunStops | lib/migrate.js:57-69 | the namespace loop is fail-fast: on success no call failed; on failure either its last call failed, every earlier one succeeded and that error is reported, or no call failed, every planned record ran and the error is the first failed selection's |
| Migrate.NamespacesRunSucceeds | lib/migrate.js:57-69 | when every selection succeeds and no run call fails, the namespace loop succeeds |
| Migrate.OnlyRunCalls | lib/migrate.js:111 | the namespace loop makes `runMigration` calls only, for planned records only |
| Migrate.SelectEligible | lib/migrate.js:59-63 | a namespace's records are ascending, in that namespace, timestamped `now` and above its watermark |
| Migrate.RunSelectionsPromise | lib/migrate.js:54-63 | every selection of a run keeps that promise for its own namespace |
| Migrate.PlannedEligible | lib/migrate.js:57-66 | every planned record is eligible in its own namespace, one still to be processed |
| Migrate.ConnectFailure | lib/migrate.js:19 | when connect fails, that error is reported and connect is the only call: no unlock, no disconnect |
| Migrate.Opening | lib/migrate.js:28-50 | connected iff connect succeeded; the calls are a non-empty prefix of connect, ensure, lock, getMigrations, and all four on success |
| Migrate.OpeningStops | lib/migrate.js:12-16 | the opening is fail-fast: on success all four calls were made and none failed; on failure the last call made failed, every earlier one succeeded, and its error is reported |
| Migrate.MainSequence | lib/migrate.js:12-18 | connected iff connect succeeded, and the first call is always connect |
| Migrate.MainSequenceStops | lib/migrate.js:12-18 | the main sequence is fail-fast: on success no call failed; on failure either its last call failed (every earlier one having succeeded) and that error is reported, or no call failed, the header and every planned record ran, and the error is the first failed selection's |
| Migrate.MainSequenceRuns | lib/migrate.js:12-18 | the main sequence makes a prefix of connect, ensure, lock, getMigrations and the planned runs; all of them on success; success when no selection and no call fails (where it stops is `MainSequenceStops`) |
| Migrate.MainSequenceCalls | lib/migrate.js:12-18 | the main sequence makes a prefix of the header and planned runs, all of them on success (where it stops is `MainSequenceStops`) |
| Migrate.MainSequenceSucceeds | lib/migrate.js:12-18 | with every selection successful and no call failing, the main sequence succeeds |
| Migrate.Cleanup | lib/migrate.js:20-22 | unlock is always called first; disconnect is called exactly when unlock succeeded |
| Migrate.Execution | lib/migrate.js:18-26 | the reported error is always the main sequence's, whatever unlock and disconnect do |
| Migrate.Protocol | lib/migrate.js:6-26 | every run begins with connect |
| Migrate.ExecutionCleanup | lib/migrate.js:19-25 | the reported error is the main sequence's; without connect nothing follows; after connect, unlock follows, then disconnect unless unlock failed |
| Migrate.OpeningCalls | lib/migrate.js:28-50 | the opening makes a non-empty prefix of the header; connected iff connect succeeded; never unlock or disconnect (where it stops is `OpeningStops`) |
| Migrate.RunsOnlyEligible | lib/migrate.js:77-115 | every record run is timestamped `now`, carries a proposed namespace, and lies above that namespace's watermark |
| Migrate.RunsOnlyPlanned | lib/migrate.js:57-69 | every record the driver is asked to run is a planned one |
| Migrate.FaultlessExecution | lib/migrate.js:6-26 | with a faultless driver and successful selections: header, every planned run, unlock, disconnect, and no error |
| Migrate.FirstRunFails | lib/migrate.js:106-125 | when the first run call fails, its error is reported, nothing else runs, and unlock and disconnect follow |
| Migrate.FirstSelectionFails | lib/migrate.js:63-64 | when the first selection fails, nothing runs, its error is reported, and unlock and disconnect follow |
| Directives.Lines | lib/scan.js:9 | the lines of a script hold no line terminator |
| Directives.Terminators | lib/scan.js:9 | the terminators between the lines |
| Directives.LinesRoundTrip | lib/scan.js:9 | the lines and their terminators put back together give the script |
| Directives.KeyFrom | lib/scan.js:9 | the key part of a directive line ends just after an `=` |
| Directives.MatchHead | lib/scan.js:9 | a matched head ends just after an `=` |
| Directives.KeyFromSound | lib/scan.js:9 | what the key reader finds has the `\s+(\w+)\s*=` shape |
| Directives.KeyFromComplete | lib/scan.js:9 | every `\s+(\w+)\s*=` shape is found, with its lower-cased key |
| Directives.MatchHeadSound | lib/scan.js:9 | a matched head is `--`, white space, `@MARV` in any case, white space, a word key and `=` |
| Directives.MatchHeadComplete | lib/scan.js:9 | every such head is matched with its lower-cased key |
| Directives.MatchHeadLowerKey | lib/scan.js:88 | keys are lower-case |
| Directives.CollectDirectives | lib/scan.js:86-90 | the loop filling the directive map gives the fold over the lines |
| Directives.CollectKeys | lib/scan.js:87-88 | a key is in the map iff some line defines it |
| Directives.CollectLastWins | lib/scan.js:88 | a key's value is that of the last line defining it |
| Directives.CollectEmpty | lib/scan.js:86-90 | the map is empty iff no line is a directive line |
| Directives.Collect | lib/scan.js:86-90 | the key of every line read as a directive is in the map |
| ScanDirectives.ParseDirectives | lib/scan.js:85-91 | the scanner's loop gives the directives of the script |
| ScanDirectives.Parse | lib/scan.js:85-91 | the key of every directive line of the script is in the map |
| ScanDirectives.HeadAndRest | lib/scan.js:9 | a matching head followed by text gives its key and the trimmed rest of the line |
| ScanDirectives.ScanDirective | lib/scan.js:9 | a line read as a directive has a matching head and its key; a non-empty value neither starts nor ends with white space |
| ScanDirectives.ScanDirectiveSound | lib/scan.js:9 | a line read as a directive has the directive shape with text after its `=` |
| ScanDirectives.ScanDirectiveComplete | lib/scan.js:9 | every such line is read, with its lower-cased key and the trimmed rest of the line |
| ScanDirectives.NothingAfterEquals | lib/scan.js:9 | a directive head with nothing after `=` is no directive |
| ScanDirectives.ParseLastWins | lib/scan.js:87-88 | keys come from directive lines only, and the last definition of a key wins |
| ScanDirectives.ParseShape | lib/scan.js:88 | keys are lower-case; values have no white space at either end |
| ScanDirectives.ParseEmpty | lib/scan.js:85-91 | no directive line iff the empty map |
| LegacyDirectives.Token | lib/parseDirectives.js:2 | the token found is a maximal run of non-space characters after optional white space |
| LegacyDirectives.TokenComplete | lib/parseDirectives.js:2 | wherever there is a token, it is found |
| LegacyDirectives.ParseDirectives | lib/parseDirectives.js:4-10 | the loop gives the directives of the script |
| LegacyDirectives.Parse | lib/parseDirectives.js:4-10 | the key of every directive line of the script is in the map |
| LegacyDirectives.LegacyDirectiveSound | lib/parseDirectives.js:2 | a line read as a directive has the head shape, and its value is the first token after `=` |
| LegacyDirectives.HeadAndToken | lib/parseDirectives.js:2 | a matching head followed by a token gives its key and that token |
| LegacyDirectives.LegacyDirective | lib/parseDirectives.js:2 | a line read as a directive has a matching head and its key; the value is non-empty and holds no white space |
| LegacyDirectives.LegacyDirectiveComplete | lib/parseDirectives.js:2 | every line of that shape is read, with its lower-cased key and first token |
| LegacyDirectives.LegacyDirectiveShape | lib/parseDirectives.js:7 | values are non-empty and hold no white space; keys are lower-case |
| LegacyDirectives.ParseLastWins | lib/parseDirectives.js:6-8 | keys come from directive lines only, and the last definition of a key wins |
| LegacyDirectives.ParseShape | lib/parseDirectives.js:7 | keys are lower-case; values are single tokens |
| LegacyDirectives.ParseEmpty | lib/parseDirectives.js:4-10 | no directive line iff the empty map |
| Filenames.MatchName | lib/scan.js:8 | a matched level is a non-empty string of digits |
| Filenames.Level | lib/scan.js:103 | the level is `parseInt` of the matched digits (definition only; `ScanScenarios.ExampleName` and `Base.DecimalRoundTrip` state it) |
| Filenames.MatchNameSound | lib/scan.js:8 | a match has the pattern's shape (maximal digits, a non-digit separator, a comment up to the first dot) with these groups |
| Filenames.MatchNameComplete | lib/scan.js:8 | every name of that shape matches, with those groups |
| Filenames.NonMatchingNames | lib/scan.js:8 | names not starting with a digit, or without a dot, are no migration names |
| Filenames.NormalizeComment | lib/scan.js:104 | the normalised comment holds no `-` or `_` and is no longer than the original |
| Filenames.NormalizeWithoutDashes | lib/scan.js:104 | a comment without `-` or `_` is unchanged |
| Filenames.NormalizeIdempotent | lib/scan.js:104 | normalising twice is normalising once |
| Filenames.NormalizeRun | lib/scan.js:104 | a run of `-` and `_` becomes exactly one space |
| Filenames.NormalizeLeadingRun | lib/scan.js:104 | a leading run is replaced by one space and the rest is normalised |
| Filenames.NormalizeDashesThen | lib/scan.js:104 | a run followed by other text becomes one space followed by that text normalised |
| Filenames.NormalizeConcat | lib/scan.js:104 | normalisation distributes over a cut that does not split a run |
| Scan.InitialConfig | lib/scan.js:24 | the given options override the defaults: a match-all filter and no directives |
| Scan.MergeDirectives | lib/scan.js:106 | key-wise merge: the overriding side's keys win, the others stay |
| Scan.MergeRc | lib/scan.js:47 | `.marvrc` fields present override the configuration; directives merge key-wise |
| Scan.Lookup | lib/scan.js:114 | a lookup finds a value exactly when the key is present |
| Scan.AsValues | lib/scan.js:88 | parsed directive values are strings, for the same keys |
| Scan.BuildMigration | lib/scan.js:93-117 | a record is built iff the name matches and the filter accepts it; level, comment, script, merged directives, configuration audit and namespace are set as the code sets them |
| Scan.StatError | lib/scan.js:33-34 | no error iff every entry could be stat-ed |
| Scan.FileEntries | lib/scan.js:35 | only non-directory entries of the listing remain |
| Scan.Files | lib/scan.js:30-38 | fails iff some entry could not be stat-ed |
| Scan.FileEntriesKeepsFiles | lib/scan.js:35 | every file of the listing is kept |
| Scan.Without | lib/scan.js:48 | exactly the entries with another name remain |
| Scan.Find | lib/scan.js:41 | the found entry has the name; none only when no entry does |
| Scan.RcStep | lib/scan.js:40-50 | without `.marvrc` nothing changes; on success the `.marvrc` entry is removed and nothing else |
| Scan.ReadError | lib/scan.js:80-81 | no error iff every file could be read |
| Scan.BuiltLast | lib/scan.js:53-63 | the records of a listing are those of its prefix followed by the last file's |
| Scan.ReadErrorLast | lib/scan.js:58 | the first read error is the prefix's, or else the last file's |
| Scan.BuildAllSpec | lib/scan.js:52-64 | the reduce fails with the first read error, and otherwise yields the records of the accepted files in listing order |
| Scan.BuildAll | lib/scan.js:52-64 | the reduce succeeds iff every file could be read, and gives at most one record per file |
| Scan.FilenamesOf | lib/scan.js:69 | the file names of the records, in order |
| Scan.BuiltOrder | lib/scan.js:52-64 | records keep listing order, and every accepted file gives one |
| Scan.BuiltFrom | lib/scan.js:57-59 | every record is built from one readable file of the listing |
| Scan.FirstLevelIndex | lib/scan.js:74 | `findIndex` on the level: -1 iff absent, otherwise the first position with it |
| Scan.CountPositive | lib/scan.js:74 | a positive count means the level occurs |
| Scan.CountRepeated | lib/scan.js:74 | a count of two or more means two distinct records carry the level |
| Scan.NotFirstIndex | lib/scan.js:74 | a record is not the first of its level iff an earlier record has it |
| Scan.DuplicateLevelsSpec | lib/scan.js:67-75 | a level is collected iff two or more records carry it |
| Scan.DuplicateLevels | lib/scan.js:67-75 | the duplicated levels collected from the first n records: at most n of them, none twice |
| Scan.FilenameTexts | lib/scan.js:69 | the printed file names, in order |
| Scan.WithLevelsTwinned | lib/scan.js:68 | the duplicate filter keeps exactly the records that share their level with another |
| Scan.WithLevels | lib/scan.js:68 | the records whose level is among the duplicated levels, in order (definition only; stated by `WithLevelsTwinned`) |
| Scan.DuplicateMessage | lib/scan.js:69 | "Found migrations with duplicate levels: " followed by the file names joined with ", " (definition only; stated by `ValidateSpec` and `ScanScenarios.ExampleDuplicates`) |
| Scan.TwinnedEmpty | lib/scan.js:69 | no duplicates iff no record shares its level |
| Scan.ValidateSpec | lib/scan.js:66-71 | validation passes the records through unchanged iff all levels are distinct, and otherwise fails with the message naming every duplicated record in order |
| Scan.Validate | lib/scan.js:66-71 | validation passes the records through unchanged when it succeeds, and always succeeds for at most one record |
| Scan.BuildAllStops | lib/scan.js:53-63 | an early read error decides the whole reduce |
| Scan.Scanner.constructor | lib/scan.js:24 | a scanner starts with the given configuration |
| Scan.Scanner.GetMarvRc | lib/scan.js:40-50 | on a read error the configuration is unchanged; otherwise it becomes the configuration with `.marvrc` merged in, and the remaining files are returned |
| Scan.Scanner.GetMigrations | lib/scan.js:52-64 | the reduce loop gives the reference fold |
| Scan.Scanner.Run | lib/scan.js:22 | the scan steps in sequence give the reference scan |
| Scan.ScanSpec | lib/scan.js:22 | a listing error is reported as is; a successful scan gives records with pairwise distinct levels |
| Scan.Options.constructor | lib/scan.js:14 | options hold what the caller passed |
| Scan.Options.RewriteDeprecated | lib/scan.js:15-20 | `migrations` moves to `directives` and is deleted, with a warning unless `quiet`; other options are unchanged |
| Scan.Scan | lib/scan.js:12-24 | a scan gives the reference scan from the rewritten options and warns exactly when the deprecated option was given without `quiet` |
| Scan.CandidateNamesCompose | lib/scan.js:35-48 | the candidates are the files other than `.marvrc` that give records |
| Scan.WithoutAbsent | lib/scan.js:48 | `without` of an absent name changes nothing |
| Scan.ScanSucceeded | lib/scan.js:22 | a successful scan stat-ed every entry, read `.marvrc` and every file, and passed validation |
| Scan.ScanKeepsListingOrder | lib/scan.js:52-64 | a successful scan returns one record per candidate file, in listing order |
| Scan.ScanRecords | lib/scan.js:93-117 | every record comes from a listed file other than `.marvrc`; no two share a level |
| Scan.ScanRefusesDuplicates | lib/scan.js:66-71 | a scan whose records share a level fails with the message naming them |
| Drop.Drop | lib/drop.js:4-10 | drop makes exactly the reference calls and reports the reference error |
| Drop.DropRun | lib/drop.js:4-10 | two or three calls, connect first and disconnect last; on success exactly connect, dropMigrations, disconnect |
| Drop.FirstFailure | lib/drop.js:8 | no error iff none of the calls fails |
| Drop.DropCalls | lib/drop.js:6-20 | connect first; dropMigrations iff connect succeeded; disconnect exactly once, last, in every outcome |
| Drop.DropReportsFirstFailure | lib/drop.js:8 | the connect or drop error wins over the disconnect error; success iff no call failed |
| Drop.FaultlessDrop | test/callback-api.test.js:179-186 | with a faultless driver: connect, drop, disconnect, and no error |
| Scenarios.OnlyDefaultNamespace | test/callback-api.test.js:65-76 | two unnamespaced records both go to `"default"`, the run's only namespace |
| Scenarios.FreshEligible | test/callback-api.test.js:9-23 | with no history both records are eligible, in level order |
| Scenarios.FreshSelections | test/callback-api.test.js:9-23 | with no history the run selects both records, stamped, for `"default"` |
| Scenarios.CleanRunOfTwo | test/callback-api.test.js:9-23 | the calls of a faultless run of two records |
| Scenarios.FreshRunOfTwo | test/callback-api.test.js:9-23 | with no history and a faultless driver, both records run in level order, then unlock and disconnect |
| Scenarios.EmptyHistoryRunsAll | test/callback-api.test.js:9-23 | levels 1 and 2 both run in order, and the driver is unlocked and disconnected |
| Scenarios.DuplicateLevelsBothRun | test/callback-api.test.js:210-220 | two records of one level both run; a top-level `audit` is ignored |
| Scenarios.RunFailureStillCleansUp | test/callback-api.test.js:116-128 | a failing runMigration is reported, the second record never runs, and unlock and disconnect follow |
| Scenarios.FailedRunOfTwo | test/callback-api.test.js:116-128 | with no history and the first `runMigration` failing, its error is reported, the second record never runs, and unlock and disconnect follow |
| Scenarios.UntimestampedHistoryIsSkipped | lib/migrate.js:88-91 | with the stub history, level 1 is reported skipped, nothing runs, and cleanup follows |
| Scenarios.SkippedFirst | lib/migrate.js:87-91 | the stub history's only selection is the skipped error for level 1 |
| Scenarios.SkippedEligible | lib/migrate.js:87-91 | selection at watermark 2 fails at level 1 |
| Scenarios.StubMerge | lib/migrate.js:84-85 | merging with the untimestamped history changes no record |
| Scenarios.StubWatermark | lib/migrate.js:72-75 | the stub history's watermark is 2 |
| Scenarios.SingleKey | lib/migrate.js:55-58 | records sharing one namespace form a single group |
| Scenarios.UnnamespacedHistoryIsIgnored | lib/migrate.js:54-60 | applied records without a namespace group under `"undefined"`, so the `"default"` namespace sees no history and its selection is the one an empty history gives |
| ScanScenarios.ExampleName | test/callback-api.test.js:130-144 | `002.test-2.sql` is level 2 with comment `test 2` |
| ScanScenarios.ExampleDirectiveLine | lib/scan.js:9 | `--@marv Key=b c` gives `key` = `b c` to the scanner and `key` = `b` to the exported parser |
| ScanScenarios.ExampleScanValue | lib/scan.js:88 | the scanner keeps the trimmed rest of the line |
| ScanScenarios.ExampleLegacyValue | lib/parseDirectives.js:2 | the exported parser keeps the first token |
| ScanScenarios.ExampleDuplicates | test/callback-api.test.js:171-177 | three level-2 files beside one level-1 file give the exact duplicate-levels message naming the three |
| ScanScenarios.ExampleTwinned | lib/scan.js:68 | the duplicate filter keeps the three level-2 records in order |
| ScanScenarios.ExampleCounts | lib/scan.js:74 | level 1 occurs once and level 2 three times |

## Left out

- File-system I/O (`fs.readdir`, `fs.lstat`, `fs.readFile`) is not modelled. The directory is a given listing of entries, each with a name, a stat result and a read result, and a failed stat or read is an error value.
- `Scan.Files`: `async.map` stats in parallel and reports whichever error comes first. The model reports the first failing entry in listing order.
- `Scan.RcStep`: `.marvrc` is read through the first listing entry of that name.
- `JSON.parse` of `.marvrc` is a parameter `parseRc`. A malformed file is therefore not a separate error.
- `Scan.MergeRc`: lodash's deep merge is modelled for the scalar fields and the directive map shown. Values nested inside a directive are not merged recursively.
- The user-supplied `filter` regular expression is an opaque predicate on file names.
- The two fixed patterns are written out as string functions. The XRegExp and RegExp engines are not modelled.
- Directive lines are read one line at a time. `\s*` in the patterns can span a line break in a script; the model does not capture that case.
- `Base.DecimalValue`: `parseInt` is exact on unbounded integers. Double-precision loss on very long digit strings is not modelled.
- md5 (lib/migrate.js:102-104) is an uninterpreted function parameter `hash`. `new Date()` is a parameter `now`.
- `async.seq`, `eachSeries`, `reduce`, `guard`, the promise wrappers, and the arity shims (lib/migrate.js:7, lib/scan.js:13) become sequential code over results.
- `debug` logging is not modelled. `console.warn` is the returned `warned` flag.
- `Selection.Namespaces`: groups are taken in first-seen order. lodash enumerates integer-like namespace strings before the others; the model ignores that exception.
- `Migrate.NamespaceMigrations`: every namespace's selection is computed before the loop rather than inside it. Selection is pure and depends only on the proposals and the history, so the calls and errors are the same.
- The real driver's behaviour (SQL, locking, persistence) is not modelled. Only the call trace and the scripted answers matter.
- The example programs and their wiring to external drivers are not part of this model. api/promise.js is not part of this model either, beyond the exported parser it re-exports.
- One `now` stands for every `new Date()` at lib/migrate.js:94. The code evaluates it once per eligible record, and at a different moment in each namespace.
- A present `timestamp` stands for a truthy one (lib/migrate.js:88). A timestamp that is present but falsy (`null`, `0`) cannot be expressed.
- An applied record with `namespace: null` groups under `"null"` in lodash. In the model every absent namespace groups under `"undefined"`.
- Migrate.Select: a namespace named after a member of `Object.prototype` (`constructor`, `toString`, `valueOf`, `__proto__` and the like) with no applied record is not modelled. lib/migrate.js:60 then reads the inherited member instead of `[]`, and the `find` at :84 throws a TypeError that the run reports after `getMigrations`. The model selects such a namespace like any other, with an empty history.
- Directives.Collect: a directive whose key is `__proto__` is kept in the map. The plain-object assignment at lib/scan.js:88 and lib/parseDirectives.js:7 calls the inherited `__proto__` setter, which ignores a string, so the code drops that key. `CollectKeys` and both `ParseLastWins` therefore do not hold for that one key in the code.
- `Value.Num` holds an integer. Fractional JSON numbers, and so the truthiness of a value such as `0.5`, are not represented.
