/** How lib/scan.js reads a migration out of a file name (lines 8 and 94-104):
    the pattern `^(?<level>\d+)[^\d](?<comment>.*?)\.`, the level as the decimal
    value of the leading digits, and the comment with every run of `-` and `_`
    turned into one space. */
module Filenames {
  import opened Base

  /** The two groups of a matching file name. */
  datatype NameMatch = NameMatch(digits: string, comment: string)

  /** A character `.` of a regular expression matches that is not the dot itself. */
  predicate CommentChar(c: char)
  {
    c != '.' && !IsLineTerminator(c)
  }

  /** A file name cut at the parts of the pattern: digits in `[0, d)`, the separator
      at `d`, the comment in `(d, k)` and the dot at `k`. The `i` flag of the pattern
      changes nothing, as the pattern holds no letter. */
  predicate NameShape(file: string, d: nat, k: nat)
  {
    && 0 < d < k < |file|
    && (forall i :: 0 <= i < d ==> IsDigit(file[i]))
    && !IsDigit(file[d])
    && (forall i :: d < i < k ==> CommentChar(file[i]))
    && file[k] == '.'
  }

  /** `XRegExp.exec(file, migrationFilePattern)`: the greedy digits cannot give a digit
      back to the separator, and the lazy comment stops at the first dot. */
  function MatchName(file: string): (r: Option<NameMatch>)
    ensures r.Some? ==> r.value.digits != [] && AllDigits(r.value.digits)
  {
    var d := SkipWhile(file, 0, IsDigit);
    if d == 0 || d == |file| then None
    else
      var k := SkipWhile(file, d + 1, CommentChar);
      if k < |file| && file[k] == '.' then Some(NameMatch(file[..d], file[d + 1..k])) else None
  }

  /** A matching name has the shape of the pattern. */
  lemma MatchNameSound(file: string)
    requires MatchName(file).Some?
    ensures exists d: nat, k: nat :: NameShape(file, d, k) && MatchName(file).value == NameMatch(file[..d], file[d + 1..k])
  {
    var d := SkipWhile(file, 0, IsDigit);
    var k := SkipWhile(file, d + 1, CommentChar);
    assert NameShape(file, d, k);
  }

  /** Every name of the shape of the pattern matches, with these groups. */
  lemma MatchNameComplete(file: string, d: nat, k: nat)
    requires NameShape(file, d, k)
    ensures MatchName(file) == Some(NameMatch(file[..d], file[d + 1..k]))
  {
    SkipWhileUnique(file, 0, d, IsDigit);
    SkipWhileUnique(file, d + 1, k, CommentChar);
  }

  /** A name without a dot after its separator is no migration, nor is one that
      does not start with a digit. */
  lemma NonMatchingNames(file: string)
    ensures file == [] || !IsDigit(file[0]) ==> MatchName(file).None?
    ensures (forall i :: 0 <= i < |file| ==> file[i] != '.') ==> MatchName(file).None?
  {
  }

  /** `parseInt(match.groups.level, 10)`. */
  function Level(m: NameMatch): nat
    requires AllDigits(m.digits)
  {
    DecimalValue(m.digits)
  }

  predicate IsDash(c: char)
  {
    c == '-' || c == '_'
  }

  /** `comment.replace(/[-_]+/g, ' ')`. */
  function NormalizeComment(s: string): (r: string)
    ensures |r| <= |s|
    ensures forall i :: 0 <= i < |r| ==> !IsDash(r[i])
    decreases |s|
  {
    if s == [] then []
    else if IsDash(s[0]) then [' '] + NormalizeComment(s[SkipWhile(s, 0, IsDash)..])
    else [s[0]] + NormalizeComment(s[1..])
  }

  /** A comment without `-` or `_` is kept as it is; so normalising twice changes
      nothing more than normalising once. */
  lemma {:induction false} NormalizeWithoutDashes(s: string)
    requires forall i :: 0 <= i < |s| ==> !IsDash(s[i])
    ensures NormalizeComment(s) == s
  {
    if s != [] {
      NormalizeWithoutDashes(s[1..]);
    }
  }

  lemma NormalizeIdempotent(s: string)
    ensures NormalizeComment(NormalizeComment(s)) == NormalizeComment(s)
  {
    NormalizeWithoutDashes(NormalizeComment(s));
  }

  /** A run of `-` and `_` becomes exactly one space. */
  lemma NormalizeRun(s: string)
    requires s != [] && forall i :: 0 <= i < |s| ==> IsDash(s[i])
    ensures NormalizeComment(s) == " "
  {
    SkipWhileUnique(s, 0, |s|, IsDash);
  }

  /** A leading run of `-` and `_` followed by something else in `a` is cut off the same
      way with or without `b` after it. */
  lemma NormalizeLeadingRun(a: string, b: string, j: nat)
    requires 0 < j < |a| && j == SkipWhile(a, 0, IsDash)
    ensures NormalizeComment(a + b) == [' '] + NormalizeComment(a[j..] + b)
  {
    SkipWhileUnique(a + b, 0, j, IsDash);
    assert (a + b)[j..] == a[j..] + b;
  }

  /** A string of `-` and `_` only, followed by something else. */
  lemma NormalizeDashesThen(a: string, b: string)
    requires a != [] && forall i :: 0 <= i < |a| ==> IsDash(a[i])
    requires b != [] && !IsDash(b[0])
    ensures NormalizeComment(a + b) == " " + NormalizeComment(b)
  {
    SkipWhileUnique(a + b, 0, |a|, IsDash);
    assert (a + b)[|a|..] == b;
  }

  /** Normalising works piece by piece, wherever the cut does not split a run. */
  lemma {:induction false} NormalizeConcat(a: string, b: string)
    requires a == [] || b == [] || !IsDash(a[|a| - 1]) || !IsDash(b[0])
    ensures NormalizeComment(a + b) == NormalizeComment(a) + NormalizeComment(b)
    decreases |a|
  {
    if a == [] {
      assert a + b == b;
    } else if b == [] {
      assert a + b == a;
    } else if !IsDash(a[0]) {
      assert (a + b)[1..] == a[1..] + b;
      NormalizeConcat(a[1..], b);
      ConcatAssoc([a[0]], NormalizeComment(a[1..]), NormalizeComment(b));
    } else {
      var j := SkipWhile(a, 0, IsDash);
      if j < |a| {
        NormalizeLeadingRun(a, b, j);
        NormalizeConcat(a[j..], b);
        ConcatAssoc([' '], NormalizeComment(a[j..]), NormalizeComment(b));
      } else {
        NormalizeDashesThen(a, b);
        NormalizeRun(a);
      }
    }
  }
}
