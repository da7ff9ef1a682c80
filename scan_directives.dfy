/** The directive parser local to lib/scan.js (lines 9 and 85-91), whose value is
    the rest of the line after the `=`, trimmed. */
module ScanDirectives {
  import opened Base
  import opened Directives

  /** Reads one line: `^--\s*@MARV\s+(?<key>\w+)\s*=\s*(?<value>.+)$`, keeping the
      value trimmed. `.+` needs at least one character after the `=`; since `\s*`
      gives characters back to it, the trimmed value is that of the whole rest. */
  function ScanDirective(line: string): (r: Option<Directive>)
    ensures r.Some? ==> MatchHead(line).Some? && r.value.key == MatchHead(line).value.key
    ensures r.Some? && r.value.value != [] ==>
      !IsSpace(r.value.value[0]) && !IsSpace(r.value.value[|r.value.value| - 1])
  {
    match MatchHead(line)
    case None => None
    case Some(h) =>
      if h.valueStart < |line| then Some(Directive(h.key, Trim(line[h.valueStart..]))) else None
  }

  /** The directives of a script. */
  function Parse(script: string): (r: map<string, string>)
    ensures forall i :: 0 <= i < |Lines(script)| && ScanDirective(Lines(script)[i]).Some? ==>
      ScanDirective(Lines(script)[i]).value.key in r
  {
    Collect(Lines(script), ScanDirective)
  }

  /** `parseDirectives(script)`: the loop over the matches filling the map. */
  method ParseDirectives(script: string) returns (directives: map<string, string>)
    ensures directives == Parse(script)
  {
    directives := CollectDirectives(Lines(script), ScanDirective);
  }

  /** A line whose start matches and that goes on after the `=` is read as its key
      and the trimmed rest. */
  lemma HeadAndRest(line: string, h: Head)
    requires MatchHead(line) == Some(h)
    requires h.valueStart < |line|
    ensures ScanDirective(line) == Some(Directive(h.key, Trim(line[h.valueStart..])))
  {
  }

  /** A line read as a directive has the directive form, with at least one character
      after its `=`, and its value is the trimmed rest of the line. */
  lemma ScanDirectiveSound(line: string)
    requires ScanDirective(line).Some?
    ensures exists p1: nat, p3: nat, p4: nat, p5: nat ::
      && HeadShape(line, p1, p3, p4, p5)
      && p5 + 1 < |line|
      && ScanDirective(line).value == Directive(Lower(line[p3..p4]), Trim(line[p5 + 1..]))
  {
    MatchHeadSound(line);
    var h := MatchHead(line).value;
    var p1: nat, p3: nat, p4: nat, p5: nat :| HeadShape(line, p1, p3, p4, p5) && h == Head(Lower(line[p3..p4]), p5 + 1);
    assert ScanDirective(line).value == Directive(Lower(line[p3..p4]), Trim(line[p5 + 1..]));
  }

  /** Every line of the directive form with something after its `=` is read. */
  lemma ScanDirectiveComplete(line: string, p1: nat, p3: nat, p4: nat, p5: nat)
    requires HeadShape(line, p1, p3, p4, p5)
    requires p5 + 1 < |line|
    ensures ScanDirective(line) == Some(Directive(Lower(line[p3..p4]), Trim(line[p5 + 1..])))
  {
    MatchHeadComplete(line, p1, p3, p4, p5);
    var h := MatchHead(line).value;
    assert h.valueStart == p5 + 1 && h.key == Lower(line[p3..p4]);
    assert line[h.valueStart..] == line[p5 + 1..];
    HeadAndRest(line, h);
  }

  /** A line of the directive form that ends right after its `=` is no directive. */
  lemma NothingAfterEquals(line: string, p1: nat, p3: nat, p4: nat)
    requires |line| > 0 && HeadShape(line, p1, p3, p4, |line| - 1)
    ensures ScanDirective(line).None?
  {
    MatchHeadComplete(line, p1, p3, p4, |line| - 1);
  }

  /** A key is in the result exactly when some line of the script is a directive line
      for that key, and its value is the one the last such line gives. */
  lemma ParseLastWins(script: string, key: string)
    ensures key in Parse(script) <==> exists i :: 0 <= i < |Lines(script)| && Defines(ScanDirective(Lines(script)[i]), key)
    ensures key in Parse(script) ==>
      exists i :: && 0 <= i < |Lines(script)|
                  && ScanDirective(Lines(script)[i]) == Some(Directive(key, Parse(script)[key]))
                  && forall j :: i < j < |Lines(script)| ==> !Defines(ScanDirective(Lines(script)[j]), key)
  {
    assert Parse(script) == Collect(Lines(script), ScanDirective);
    CollectKeys(Lines(script), ScanDirective, key);
    if key in Parse(script) {
      CollectLastWins(Lines(script), ScanDirective, key);
    }
  }

  /** Keys are lower-case and values carry no white space at either end. */
  lemma ParseShape(script: string)
    ensures forall key :: key in Parse(script) ==> Lower(key) == key
    ensures forall key :: key in Parse(script) && Parse(script)[key] != [] ==>
      var v := Parse(script)[key]; !IsSpace(v[0]) && !IsSpace(v[|v| - 1])
  {
    forall key | key in Parse(script)
      ensures Lower(key) == key
      ensures var v := Parse(script)[key]; v != [] ==> !IsSpace(v[0]) && !IsSpace(v[|v| - 1])
    {
      ParseLastWins(script, key);
      var i :| 0 <= i < |Lines(script)| && ScanDirective(Lines(script)[i]) == Some(Directive(key, Parse(script)[key]));
      var h := MatchHead(Lines(script)[i]).value;
      MatchHeadLowerKey(Lines(script)[i]);
    }
  }

  /** A script without a directive line gives the empty map, and only such a script does. */
  lemma ParseEmpty(script: string)
    ensures Parse(script) == map[] <==> forall i :: 0 <= i < |Lines(script)| ==> ScanDirective(Lines(script)[i]).None?
  {
    assert Parse(script) == Collect(Lines(script), ScanDirective);
    CollectEmpty(Lines(script), ScanDirective);
  }
}
