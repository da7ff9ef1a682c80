/** Concrete readings of file names and directive lines by lib/scan.js and
    lib/parseDirectives.js, in the situations the repository's test suites use. */
module ScanScenarios {
  import opened Base
  import opened Records
  import opened Directives
  import opened Filenames
  import ScanDirectives
  import LegacyDirectives
  import Scan

  /** `002.test-2.sql` is migration 2 with the comment `test 2`: the first dot is
      the separator and the comment runs to the next dot. */
  lemma ExampleName()
    ensures MatchName("002.test-2.sql") == Some(NameMatch("002", "test-2"))
    ensures Level(NameMatch("002", "test-2")) == 2
    ensures NormalizeComment("test-2") == "test 2"
  {
    ExampleNameGroups();
    ExampleLevel();
    ExampleComment();
  }

  lemma ExampleNameGroups()
    ensures MatchName("002.test-2.sql") == Some(NameMatch("002", "test-2"))
  {
    var file := "002.test-2.sql";
    assert NameShape(file, 3, 10);
    MatchNameComplete(file, 3, 10);
    assert file[..3] == "002" && file[4..10] == "test-2";
  }

  lemma ExampleLevel()
    ensures Level(NameMatch("002", "test-2")) == 2
  {
    assert "002"[..2] == "00" && "00"[..1] == "0" && "0"[..0] == "";
  }

  lemma ExampleComment()
    ensures NormalizeComment("test-2") == "test 2"
  {
    var tail := "-2";
    assert SkipWhile(tail, 0, IsDash) == 1;
    assert tail[1..] == "2" && "2"[1..] == [];
    assert NormalizeComment(tail) == " 2";
    assert "test-2"[1..] == "est-2" && "est-2"[1..] == "st-2" && "st-2"[1..] == "t-2" && "t-2"[1..] == tail;
  }

  /** The line `--@marv Key=b c` read by both parsers: the scanner keeps the
      trimmed rest of the line, the exported parser its first token only. */
  lemma ExampleDirectiveLine()
    ensures ScanDirectives.ScanDirective("--@marv Key=b c") == Some(Directive("key", "b c"))
    ensures LegacyDirectives.LegacyDirective("--@marv Key=b c") == Some(Directive("key", "b"))
  {
    ExampleHead();
    ExampleScanValue();
    ExampleLegacyValue();
  }

  lemma ExampleHead()
    ensures HeadShape("--@marv Key=b c", 2, 8, 11, 11)
    ensures Lower("--@marv Key=b c"[8..11]) == "key"
  {
    var line := "--@marv Key=b c";
    assert line[8..11] == "Key";
  }

  lemma ExampleScanValue()
    ensures ScanDirectives.ScanDirective("--@marv Key=b c") == Some(Directive("key", "b c"))
  {
    var line := "--@marv Key=b c";
    ExampleHead();
    ScanDirectives.ScanDirectiveComplete(line, 2, 8, 11, 11);
    assert line[12..] == "b c";
    ExampleTrim();
  }

  lemma ExampleTrim()
    ensures Trim("b c") == "b c"
  {
    var rest := "b c";
    assert !IsSpace(rest[0]) && !IsSpace(rest[2]);
    TrimmedAlready(rest);
  }

  lemma ExampleLegacyValue()
    ensures LegacyDirectives.LegacyDirective("--@marv Key=b c") == Some(Directive("key", "b"))
  {
    var line := "--@marv Key=b c";
    ExampleHead();
    ExampleToken();
    LegacyDirectives.LegacyDirectiveComplete(line, 2, 8, 11, 11, 12, 13);
  }

  lemma ExampleToken()
    ensures LegacyDirectives.ValueToken("--@marv Key=b c", 12, 12, 13)
    ensures "--@marv Key=b c"[12..13] == "b"
  {
    var line := "--@marv Key=b c";
    assert line[12] == 'b' && line[13] == ' ';
    assert !IsSpace('b') && IsSpace(' ');
  }

  /** A built record carrying only a level and a file name. */
  function Named(level: int, name: string): Migration
  {
    Migration(level, "", Some(name), None, None, None, None, None, None)
  }

  const Dupes: seq<Migration> :=
    [Named(1, "001.test-1.sql"), Named(2, "002.test-2.sql"), Named(2, "002.test-3.sql"), Named(2, "002.test-4.sql")]

  /** Three records of level 2 beside one of level 1: validation names the three,
      in listing order. */
  lemma ExampleDuplicates()
    ensures Scan.Validate(Dupes)
         == Err(Error("Found migrations with duplicate levels: " + Join(["002.test-2.sql", "002.test-3.sql", "002.test-4.sql"], ", ")))
  {
    var ms := Dupes;
    assert ms[1].level == ms[2].level;
    Scan.ValidateSpec(ms);
    ExampleTwinned();
    var texts := Scan.FilenameTexts(Dupes[1..]);
    assert texts[0] == "002.test-2.sql" && texts[1] == "002.test-3.sql" && texts[2] == "002.test-4.sql";
    assert texts == ["002.test-2.sql", "002.test-3.sql", "002.test-4.sql"];
  }

  lemma ExampleTwinned()
    ensures Scan.Twinned(Dupes, Dupes) == Dupes[1..]
  {
    ExampleCounts();
    var ms := Dupes;
    assert ms[1..][1..] == [ms[2], ms[3]] && ms[1..][1..][1..] == [ms[3]] && ms[1..][1..][1..][1..] == [];
  }

  lemma ExampleCounts()
    ensures Scan.CountLevel(Dupes, 4, 1) == 1
    ensures Scan.CountLevel(Dupes, 4, 2) == 3
  {
  }
}
