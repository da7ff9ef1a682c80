/** Values shared by every part of the migration engine: optional values, results
    carrying a JavaScript-style error message, directive values with JavaScript
    truthiness, and the character and string helpers that the engine's regular
    expressions and string methods rely on. */
module Base {

  datatype Option<+T> = None | Some(value: T)

  /** An error as the engine reports it: a JavaScript `Error` carries a message. */
  datatype Error = Error(message: string)

  datatype Result<+T> = Ok(value: T) | Err(error: Error)

  /** A directive value. Values parsed out of scripts are always strings; values
      from options or a `.marvrc` file may be any JSON scalar. */
  datatype Value = Str(s: string) | Bool(b: bool) | Num(n: int) | Null

  /** JavaScript truthiness of a directive value. */
  predicate Truthy(v: Value)
  {
    match v
    case Str(s) => s != ""
    case Bool(b) => b
    case Num(n) => n != 0
    case Null => false
  }

  /** `\d` of a JavaScript regular expression without the `u` flag. */
  predicate IsDigit(c: char)
  {
    '0' <= c <= '9'
  }

  /** `\w` of a JavaScript regular expression. */
  predicate IsWordChar(c: char)
  {
    IsDigit(c) || 'a' <= c <= 'z' || 'A' <= c <= 'Z' || c == '_'
  }

  /** The line terminators of JavaScript: `.` does not match them and, with the
      `m` flag, `^` and `$` match next to them. */
  predicate IsLineTerminator(c: char)
  {
    c == '\n' || c == '\r' || c == '\U{2028}' || c == '\U{2029}'
  }

  /** `\s` of a JavaScript regular expression; `String.prototype.trim` removes
      exactly these characters. */
  predicate IsSpace(c: char)
  {
    || c == ' ' || c == '\t' || c == '\U{000B}' || c == '\U{000C}'
    || c == '\U{00A0}' || c == '\U{1680}' || '\U{2000}' <= c <= '\U{200A}'
    || c == '\U{202F}' || c == '\U{205F}' || c == '\U{3000}' || c == '\U{FEFF}'
    || IsLineTerminator(c)
  }

  /** `String.prototype.toLowerCase` on the ASCII letters (the only letters a
      `\w` key can hold). */
  function LowerChar(c: char): (r: char)
    ensures 'A' <= c <= 'Z' ==> 'a' <= r <= 'z'
    ensures !('A' <= c <= 'Z') ==> r == c
  {
    if 'A' <= c <= 'Z' then (c as int + 32) as char else c
  }

  function Lower(s: string): (r: string)
    ensures |r| == |s|
    ensures forall i :: 0 <= i < |s| ==> r[i] == LowerChar(s[i])
  {
    if s == [] then [] else [LowerChar(s[0])] + Lower(s[1..])
  }

  predicate AllDigits(s: string)
  {
    forall i :: 0 <= i < |s| ==> IsDigit(s[i])
  }

  /** `parseInt(s, 10)` of a string of decimal digits, read most significant first. */
  function DecimalValue(s: string): nat
    requires AllDigits(s)
  {
    if s == [] then 0
    else DecimalValue(s[..|s| - 1]) * 10 + (s[|s| - 1] as int - '0' as int)
  }

  /** Leading zeros do not change the value of a digit string. */
  lemma {:induction false} LeadingZeroIgnored(s: string)
    requires AllDigits(s)
    ensures AllDigits(['0'] + s)
    ensures DecimalValue(['0'] + s) == DecimalValue(s)
  {
    if s != [] {
      assert (['0'] + s)[..|s|] == ['0'] + s[..|s| - 1];
      LeadingZeroIgnored(s[..|s| - 1]);
    }
  }

  /** The decimal notation of a natural number, as a template literal writes it. */
  function NatToString(n: nat): (r: string)
    ensures |r| > 0 && AllDigits(r)
    decreases n
  {
    if n < 10 then [('0' as int + n) as char]
    else NatToString(n / 10) + [('0' as int + n % 10) as char]
  }

  /** `${n}` for an integer. */
  function IntToString(n: int): string
  {
    if n < 0 then "-" + NatToString(-n) else NatToString(n)
  }

  /** Reading back the decimal notation of a number gives the number. */
  lemma {:induction false} DecimalRoundTrip(n: nat)
    ensures DecimalValue(NatToString(n)) == n
  {
    if n >= 10 {
      var s := NatToString(n);
      assert s[..|s| - 1] == NatToString(n / 10);
      DecimalRoundTrip(n / 10);
    }
  }

  /** `Array.prototype.join(sep)` over strings. */
  function Join(parts: seq<string>, sep: string): string
  {
    if parts == [] then ""
    else if |parts| == 1 then parts[0]
    else parts[0] + sep + Join(parts[1..], sep)
  }

  /** The end of the longest run of characters satisfying `p` from position `i`. */
  function SkipWhile(line: string, i: nat, p: char -> bool): (j: nat)
    requires i <= |line|
    ensures i <= j <= |line|
    ensures forall k :: i <= k < j ==> p(line[k])
    ensures j == |line| || !p(line[j])
    decreases |line| - i
  {
    if i < |line| && p(line[i]) then SkipWhile(line, i + 1, p) else i
  }

  /** A run is maximal in one way only. */
  lemma {:induction false} SkipWhileUnique(line: string, i: nat, j: nat, p: char -> bool)
    requires i <= j <= |line|
    requires forall k :: i <= k < j ==> p(line[k])
    requires j == |line| || !p(line[j])
    ensures SkipWhile(line, i, p) == j
    decreases j - i
  {
    if i < j {
      SkipWhileUnique(line, i + 1, j, p);
    }
  }

  /** The end of `s[lo..hi]` once its trailing white space is cut. */
  function TrimmedEnd(s: string, lo: nat, hi: nat): (j: nat)
    requires lo <= hi <= |s|
    ensures lo <= j <= hi
    ensures forall k :: j <= k < hi ==> IsSpace(s[k])
    ensures j == lo || !IsSpace(s[j - 1])
    decreases hi
  {
    if lo < hi && IsSpace(s[hi - 1]) then TrimmedEnd(s, lo, hi - 1) else hi
  }

  /** `String.prototype.trim`: the part of `s` between its leading and its
      trailing white space. */
  function Trim(s: string): (r: string)
    ensures r != [] ==> !IsSpace(r[0]) && !IsSpace(r[|r| - 1])
    ensures exists i: nat, j: nat :: && i <= j <= |s| && r == s[i..j]
                                     && (forall k :: 0 <= k < i ==> IsSpace(s[k]))
                                     && (forall k :: j <= k < |s| ==> IsSpace(s[k]))
  {
    var i := SkipWhile(s, 0, IsSpace);
    var j := TrimmedEnd(s, i, |s|);
    s[i..j]
  }

  /** A string that neither starts nor ends with white space is its own trim. */
  lemma TrimmedAlready(s: string)
    requires s != [] && !IsSpace(s[0]) && !IsSpace(s[|s| - 1])
    ensures Trim(s) == s
  {
    SkipWhileUnique(s, 0, 0, IsSpace);
    assert TrimmedEnd(s, 0, |s|) == |s|;
  }

  /** Concatenation is associative; stated once so that proofs can call it rather
      than rediscover it. */
  lemma ConcatAssoc<T>(a: seq<T>, b: seq<T>, c: seq<T>)
    ensures a + b + c == a + (b + c)
  {
  }
}
