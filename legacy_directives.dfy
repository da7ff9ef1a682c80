/** lib/parseDirectives.js: the exported directive parser, whose value is the first
    run of non-white-space characters after the `=`. */
module LegacyDirectives {
  import opened Base
  import opened Directives

  predicate NotSpace(c: char)
  {
    !IsSpace(c)
  }

  /** The value of `(?<value>\S+)` after the `=` at `start`: white space in
      `[start, i)`, then the maximal run of other characters `[i, j)`. */
  predicate ValueToken(line: string, start: nat, i: nat, j: nat)
  {
    && start <= i < j <= |line|
    && (forall k :: start <= k < i ==> IsSpace(line[k]))
    && (forall k :: i <= k < j ==> !IsSpace(line[k]))
    && (j == |line| || IsSpace(line[j]))
  }

  /** Matches `\s*(\S+)` at `start`, giving the bounds of the token. */
  function Token(line: string, start: nat): (r: Option<(nat, nat)>)
    requires start <= |line|
    ensures r.Some? ==> ValueToken(line, start, r.value.0, r.value.1)
  {
    var i := SkipWhile(line, start, IsSpace);
    var j := SkipWhile(line, i, NotSpace);
    if i < j then Some((i, j)) else None
  }

  /** The token is found wherever there is one. */
  lemma TokenComplete(line: string, start: nat, i: nat, j: nat)
    requires ValueToken(line, start, i, j)
    ensures Token(line, start) == Some((i, j))
  {
    SkipWhileUnique(line, start, i, IsSpace);
    SkipWhileUnique(line, i, j, NotSpace);
  }

  /** Reads one line: `^--\s*@MARV\s+(?<key>\w+)\s*=\s*(?<value>\S+)`. */
  function LegacyDirective(line: string): (r: Option<Directive>)
    ensures r.Some? ==> MatchHead(line).Some? && r.value.key == MatchHead(line).value.key
    ensures r.Some? ==> r.value.value != [] && forall k :: 0 <= k < |r.value.value| ==> !IsSpace(r.value.value[k])
  {
    match MatchHead(line)
    case None => None
    case Some(h) =>
      match Token(line, h.valueStart)
      case None => None
      case Some(t) => Some(Directive(h.key, line[t.0..t.1]))
  }

  /** The directives of a script. */
  function Parse(script: string): (r: map<string, string>)
    ensures forall i :: 0 <= i < |Lines(script)| && LegacyDirective(Lines(script)[i]).Some? ==>
      LegacyDirective(Lines(script)[i]).value.key in r
  {
    Collect(Lines(script), LegacyDirective)
  }

  /** `parseDirectives(script)`: the loop over the matches filling the map. */
  method ParseDirectives(script: string) returns (directives: map<string, string>)
    ensures directives == Parse(script)
  {
    directives := CollectDirectives(Lines(script), LegacyDirective);
  }

  /** A line read as a directive has the directive form, and its value is the first
      token after the `=`. */
  lemma LegacyDirectiveSound(line: string)
    requires LegacyDirective(line).Some?
    ensures exists p1: nat, p3: nat, p4: nat, p5: nat, i: nat, j: nat ::
      && HeadShape(line, p1, p3, p4, p5)
      && ValueToken(line, p5 + 1, i, j)
      && LegacyDirective(line).value == Directive(Lower(line[p3..p4]), line[i..j])
  {
    MatchHeadSound(line);
    var h := MatchHead(line).value;
    var p1: nat, p3: nat, p4: nat, p5: nat :| HeadShape(line, p1, p3, p4, p5) && h == Head(Lower(line[p3..p4]), p5 + 1);
    var t := Token(line, h.valueStart).value;
    assert ValueToken(line, p5 + 1, t.0, t.1);
  }

  /** A line whose start matches is read as its key and the token after the `=`. */
  lemma HeadAndToken(line: string, h: Head, i: nat, j: nat)
    requires MatchHead(line) == Some(h)
    requires Token(line, h.valueStart) == Some((i, j))
    ensures LegacyDirective(line) == Some(Directive(h.key, line[i..j]))
  {
  }

  /** Every line of the directive form is read, with its key and first token. */
  lemma LegacyDirectiveComplete(line: string, p1: nat, p3: nat, p4: nat, p5: nat, i: nat, j: nat)
    requires HeadShape(line, p1, p3, p4, p5)
    requires ValueToken(line, p5 + 1, i, j)
    ensures LegacyDirective(line) == Some(Directive(Lower(line[p3..p4]), line[i..j]))
  {
    MatchHeadComplete(line, p1, p3, p4, p5);
    var h := MatchHead(line).value;
    TokenComplete(line, h.valueStart, i, j);
    HeadAndToken(line, h, i, j);
  }

  /** A value is never empty and never holds white space; a key is lower-case. */
  lemma LegacyDirectiveShape(line: string)
    requires LegacyDirective(line).Some?
    ensures var d := LegacyDirective(line).value;
      && d.value != []
      && (forall k :: 0 <= k < |d.value| ==> !IsSpace(d.value[k]))
      && Lower(d.key) == d.key
  {
  }

  /** A key is in the result exactly when some line of the script is a directive line
      for that key, and its value is the one the last such line gives. */
  lemma ParseLastWins(script: string, key: string)
    ensures key in Parse(script) <==> exists i :: 0 <= i < |Lines(script)| && Defines(LegacyDirective(Lines(script)[i]), key)
    ensures key in Parse(script) ==>
      exists i :: && 0 <= i < |Lines(script)|
                  && LegacyDirective(Lines(script)[i]) == Some(Directive(key, Parse(script)[key]))
                  && forall j :: i < j < |Lines(script)| ==> !Defines(LegacyDirective(Lines(script)[j]), key)
  {
    assert Parse(script) == Collect(Lines(script), LegacyDirective);
    CollectKeys(Lines(script), LegacyDirective, key);
    if key in Parse(script) {
      CollectLastWins(Lines(script), LegacyDirective, key);
    }
  }

  /** Keys are lower-case and values are single tokens. */
  lemma ParseShape(script: string)
    ensures forall key :: key in Parse(script) ==> Lower(key) == key
    ensures forall key :: key in Parse(script) ==> forall k :: 0 <= k < |Parse(script)[key]| ==> !IsSpace(Parse(script)[key][k])
  {
    forall key | key in Parse(script)
      ensures Lower(key) == key
      ensures forall k :: 0 <= k < |Parse(script)[key]| ==> !IsSpace(Parse(script)[key][k])
    {
      ParseLastWins(script, key);
      var i :| 0 <= i < |Lines(script)| && LegacyDirective(Lines(script)[i]) == Some(Directive(key, Parse(script)[key]));
      LegacyDirectiveShape(Lines(script)[i]);
    }
  }

  /** A script without a directive line gives the empty map, and only such a script does. */
  lemma ParseEmpty(script: string)
    ensures Parse(script) == map[] <==> forall i :: 0 <= i < |Lines(script)| ==> LegacyDirective(Lines(script)[i]).None?
  {
    assert Parse(script) == Collect(Lines(script), LegacyDirective);
    CollectEmpty(Lines(script), LegacyDirective);
  }
}
