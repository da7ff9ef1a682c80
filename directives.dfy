/** The syntax shared by the two directive parsers (lib/scan.js:9 and
    lib/parseDirectives.js:2): a script is read line by line, a directive line
    starts with `--`, optional white space, the marker `@MARV` in any case, white
    space, a word key, optional white space and `=`; the key is lower-cased, and a
    later line overwrites the value of an earlier line with the same key. The two
    parsers differ only in how they read the value after the `=`. */
module Directives {
  import opened Base

  /** The lines of a script: the maximal runs of characters without a line
      terminator, which is where `^` and `$` of a multi-line pattern anchor. */
  function Lines(s: string): (r: seq<string>)
    ensures |r| > 0
    ensures forall i, j :: 0 <= i < |r| && 0 <= j < |r[i]| ==> !IsLineTerminator(r[i][j])
  {
    if s == [] then [""]
    else if IsLineTerminator(s[0]) then [""] + Lines(s[1..])
    else
      var rest := Lines(s[1..]);
      [[s[0]] + rest[0]] + rest[1..]
  }

  /** The line terminators of a script, in order. */
  function Terminators(s: string): (r: seq<char>)
    ensures forall i :: 0 <= i < |r| ==> IsLineTerminator(r[i])
  {
    if s == [] then []
    else if IsLineTerminator(s[0]) then [s[0]] + Terminators(s[1..])
    else Terminators(s[1..])
  }

  /** Lines put back together with the terminators between them. */
  function Unlines(lines: seq<string>, seps: seq<char>): string
    requires |lines| == |seps| + 1
  {
    if seps == [] then lines[0]
    else lines[0] + [seps[0]] + Unlines(lines[1..], seps[1..])
  }

  /** Splitting into lines loses nothing: the lines and the terminators between
      them make up the script again. */
  lemma {:induction false} LinesRoundTrip(s: string)
    ensures |Lines(s)| == |Terminators(s)| + 1
    ensures Unlines(Lines(s), Terminators(s)) == s
  {
    if s != [] {
      LinesRoundTrip(s[1..]);
      var rest := Lines(s[1..]);
      var seps := Terminators(s[1..]);
      if IsLineTerminator(s[0]) {
        assert Lines(s)[1..] == rest;
      } else {
        var lines := Lines(s);
        assert lines[1..] == rest[1..];
        if seps == [] {
          assert Unlines(lines, seps) == [s[0]] + rest[0];
        } else {
          assert Unlines(lines, seps) == [s[0]] + (rest[0] + [seps[0]] + Unlines(rest[1..], seps[1..]));
        }
      }
    }
  }

  /** `@MARV` at position `i`, with the letters in any case. */
  predicate IsMarkerAt(line: string, i: nat)
  {
    && i + 5 <= |line|
    && line[i] == '@'
    && LowerChar(line[i + 1]) == 'm'
    && LowerChar(line[i + 2]) == 'a'
    && LowerChar(line[i + 3]) == 'r'
    && LowerChar(line[i + 4]) == 'v'
  }

  /** The part `\s+(\w+)\s*=` of a directive line from `p2` on: the key occupies
      `[p3, p4)` and the `=` is at `p5`. */
  predicate KeyShape(line: string, p2: nat, p3: nat, p4: nat, p5: nat)
  {
    && p2 < p3 < p4 <= p5 < |line|
    && (forall k :: p2 <= k < p3 ==> IsSpace(line[k]))
    && (forall k :: p3 <= k < p4 ==> IsWordChar(line[k]))
    && (forall k :: p4 <= k < p5 ==> IsSpace(line[k]))
    && line[p5] == '='
  }

  /** The start of a directive line, `^--\s*@MARV\s+(\w+)\s*=`, cut at its parts:
      the marker starts at `p1`, the key occupies `[p3, p4)` and the `=` is at `p5`. */
  predicate HeadShape(line: string, p1: nat, p3: nat, p4: nat, p5: nat)
  {
    && 2 <= p1
    && KeyShape(line, p1 + 5, p3, p4, p5)
    && line[0] == '-' && line[1] == '-'
    && (forall k :: 2 <= k < p1 ==> IsSpace(line[k]))
    && IsMarkerAt(line, p1)
  }

  /** The lower-cased key of a directive line and the position just after its `=`. */
  datatype Head = Head(key: string, valueStart: nat)

  /** Matches `\s+(\w+)\s*=` at `p2`. */
  function KeyFrom(line: string, p2: nat): (r: Option<Head>)
    requires p2 <= |line|
    ensures r.Some? ==> 0 < r.value.valueStart <= |line| && line[r.value.valueStart - 1] == '='
  {
    var p3 := SkipWhile(line, p2, IsSpace);
    if p3 == p2 then None
    else
      var p4 := SkipWhile(line, p3, IsWordChar);
      if p4 == p3 then None
      else
        var p5 := SkipWhile(line, p4, IsSpace);
        if p5 < |line| && line[p5] == '=' then Some(Head(Lower(line[p3..p4]), p5 + 1)) else None
  }

  /** Matches the start of a directive line. */
  function MatchHead(line: string): (r: Option<Head>)
    ensures r.Some? ==> 0 < r.value.valueStart <= |line| && line[r.value.valueStart - 1] == '='
  {
    if |line| < 2 || line[0] != '-' || line[1] != '-' then None
    else
      var p1 := SkipWhile(line, 2, IsSpace);
      if !IsMarkerAt(line, p1) then None else KeyFrom(line, p1 + 5)
  }

  lemma KeyFromSound(line: string, p2: nat)
    requires p2 <= |line| && KeyFrom(line, p2).Some?
    ensures exists p3: nat, p4: nat, p5: nat ::
      KeyShape(line, p2, p3, p4, p5) && KeyFrom(line, p2).value == Head(Lower(line[p3..p4]), p5 + 1)
  {
    var p3 := SkipWhile(line, p2, IsSpace);
    var p4 := SkipWhile(line, p3, IsWordChar);
    var p5 := SkipWhile(line, p4, IsSpace);
    assert KeyShape(line, p2, p3, p4, p5);
  }

  lemma KeyFromComplete(line: string, p2: nat, p3: nat, p4: nat, p5: nat)
    requires KeyShape(line, p2, p3, p4, p5)
    ensures KeyFrom(line, p2) == Some(Head(Lower(line[p3..p4]), p5 + 1))
  {
    SkipWhileUnique(line, p2, p3, IsSpace);
    SkipWhileUnique(line, p3, p4, IsWordChar);
    SkipWhileUnique(line, p4, p5, IsSpace);
  }

  /** What `MatchHead` finds is the start of a directive line. */
  lemma MatchHeadSound(line: string)
    requires MatchHead(line).Some?
    ensures var h := MatchHead(line).value;
      exists p1: nat, p3: nat, p4: nat, p5: nat ::
        HeadShape(line, p1, p3, p4, p5) && h == Head(Lower(line[p3..p4]), p5 + 1)
  {
    var p1 := SkipWhile(line, 2, IsSpace);
    KeyFromSound(line, p1 + 5);
    var p3: nat, p4: nat, p5: nat :|
      KeyShape(line, p1 + 5, p3, p4, p5) && KeyFrom(line, p1 + 5).value == Head(Lower(line[p3..p4]), p5 + 1);
    assert HeadShape(line, p1, p3, p4, p5);
  }

  /** Every start of a directive line is found, with its key and the position after
      its `=`: the pattern can cut a line in one way only. */
  lemma MatchHeadComplete(line: string, p1: nat, p3: nat, p4: nat, p5: nat)
    requires HeadShape(line, p1, p3, p4, p5)
    ensures MatchHead(line) == Some(Head(Lower(line[p3..p4]), p5 + 1))
  {
    SkipWhileUnique(line, 2, p1, IsSpace);
    KeyFromComplete(line, p1 + 5, p3, p4, p5);
  }

  /** Keys are lower-cased. */
  lemma MatchHeadLowerKey(line: string)
    requires MatchHead(line).Some?
    ensures Lower(MatchHead(line).value.key) == MatchHead(line).value.key
  {
  }

  /** A parsed directive. */
  datatype Directive = Directive(key: string, value: string)

  predicate Defines(d: Option<Directive>, key: string)
  {
    d.Some? && d.value.key == key
  }

  /** The directives of a sequence of lines, read with the line reader `parse`, as the
      map the source fills in line order: a later line overwrites an earlier one. */
  function Collect(lines: seq<string>, parse: string -> Option<Directive>): (r: map<string, string>)
    ensures forall i :: 0 <= i < |lines| && parse(lines[i]).Some? ==> parse(lines[i]).value.key in r
  {
    assert forall i :: 0 <= i < |lines| - 1 ==> lines[..|lines| - 1][i] == lines[i];
    if lines == [] then map[]
    else
      var m := Collect(lines[..|lines| - 1], parse);
      match parse(lines[|lines| - 1])
      case None => m
      case Some(d) => m[d.key := d.value]
  }

  /** The loop filling the map, one line at a time. */
  method CollectDirectives(lines: seq<string>, parse: string -> Option<Directive>) returns (directives: map<string, string>)
    ensures directives == Collect(lines, parse)
  {
    directives := map[];
    var i := 0;
    while i < |lines|
      invariant 0 <= i <= |lines|
      invariant directives == Collect(lines[..i], parse)
    {
      assert lines[..i + 1][..i] == lines[..i];
      var d := parse(lines[i]);
      if d.Some? {
        directives := directives[d.value.key := d.value.value];
      }
      i := i + 1;
    }
    assert lines[..i] == lines;
  }

  /** A key is in the map exactly when some line defines it. */
  lemma {:induction false} CollectKeys(lines: seq<string>, parse: string -> Option<Directive>, key: string)
    ensures key in Collect(lines, parse) <==> exists i :: 0 <= i < |lines| && Defines(parse(lines[i]), key)
  {
    if lines != [] {
      var init := lines[..|lines| - 1];
      CollectKeys(init, parse, key);
      if exists i :: 0 <= i < |lines| && Defines(parse(lines[i]), key) {
        var i :| 0 <= i < |lines| && Defines(parse(lines[i]), key);
        if i < |init| {
          assert init[i] == lines[i];
        }
      }
      if exists i :: 0 <= i < |init| && Defines(parse(init[i]), key) {
        var i :| 0 <= i < |init| && Defines(parse(init[i]), key);
        assert lines[i] == init[i];
      }
    }
  }

  /** The value of a key is that of the last line defining it. */
  lemma {:induction false} CollectLastWins(lines: seq<string>, parse: string -> Option<Directive>, key: string)
    requires key in Collect(lines, parse)
    ensures exists i :: && 0 <= i < |lines|
                        && parse(lines[i]) == Some(Directive(key, Collect(lines, parse)[key]))
                        && forall j :: i < j < |lines| ==> !Defines(parse(lines[j]), key)
  {
    var last := |lines| - 1;
    var init := lines[..last];
    if Defines(parse(lines[last]), key) {
      assert parse(lines[last]) == Some(Directive(key, Collect(lines, parse)[key]));
    } else {
      CollectLastWins(init, parse, key);
      var i :| && 0 <= i < |init|
               && parse(init[i]) == Some(Directive(key, Collect(init, parse)[key]))
               && forall j :: i < j < |init| ==> !Defines(parse(init[j]), key);
      assert lines[i] == init[i];
      forall j | i < j < |lines|
        ensures !Defines(parse(lines[j]), key)
      {
        if j < last {
          assert lines[j] == init[j];
        }
      }
    }
  }

  /** The map is empty exactly when no line is a directive line. */
  lemma CollectEmpty(lines: seq<string>, parse: string -> Option<Directive>)
    ensures Collect(lines, parse) == map[] <==> forall i :: 0 <= i < |lines| ==> parse(lines[i]).None?
  {
    if Collect(lines, parse) != map[] {
      var key :| key in Collect(lines, parse);
      CollectKeys(lines, parse, key);
    }
    if exists i :: 0 <= i < |lines| && parse(lines[i]).Some? {
      var i :| 0 <= i < |lines| && parse(lines[i]).Some?;
      CollectKeys(lines, parse, parse(lines[i]).value.key);
    }
  }
}
