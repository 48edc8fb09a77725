/**
 * The JavaScript string and number built-ins the core relies on, stated in
 * Dafny terms: `String.prototype.trim`, `String.prototype.split` with a
 * one-character separator, `Number(s)` on decimal strings (NaN is `None`),
 * the `Number(s) || 0` idiom, and `n.toString()` for a non-negative integer
 * such as `Date.now()`.
 */
module JsText {
  import opened Seqs

  datatype Option<T> = None | Some(value: T)

  /** The WhiteSpace and LineTerminator code points that `trim` strips. */
  predicate IsJsWhitespace(c: char)
  {
    c == '\t' || c == '\n' || c == '\U{000B}' || c == '\U{000C}' || c == '\r' || c == ' '
    || c == '\U{00A0}' || c == '\U{1680}' || ('\U{2000}' <= c <= '\U{200A}')
    || c == '\U{2028}' || c == '\U{2029}' || c == '\U{202F}' || c == '\U{205F}'
    || c == '\U{3000}' || c == '\U{FEFF}'
  }

  function TrimStart(s: string): (r: string)
    ensures |r| <= |s| && r == s[|s| - |r|..]
    ensures r == [] || !IsJsWhitespace(r[0])
    ensures forall i :: 0 <= i < |s| - |r| ==> IsJsWhitespace(s[i])
  {
    if |s| > 0 && IsJsWhitespace(s[0]) then TrimStart(s[1..]) else s
  }

  function TrimEnd(s: string): (r: string)
    ensures |r| <= |s| && r == s[..|r|]
    ensures r == [] || !IsJsWhitespace(r[|r| - 1])
    ensures forall i :: |r| <= i < |s| ==> IsJsWhitespace(s[i])
  {
    if |s| > 0 && IsJsWhitespace(s[|s| - 1]) then TrimEnd(s[..|s| - 1]) else s
  }

  /** `s.trim()`: `s` without its leading and trailing whitespace. */
  function Trim(s: string): (r: string)
    ensures |r| <= |s|
    ensures r == [] || (!IsJsWhitespace(r[0]) && !IsJsWhitespace(r[|r| - 1]))
  {
    TrimEnd(TrimStart(s))
  }

  /** `!s.trim()`: the string is empty once trimmed. */
  predicate IsBlank(s: string)
  {
    Trim(s) == ""
  }

  /** A string is blank exactly when every one of its characters is whitespace. */
  lemma BlankIffAllWhitespace(s: string)
    ensures IsBlank(s) <==> forall i :: 0 <= i < |s| ==> IsJsWhitespace(s[i])
  {
    var a := TrimStart(s);
    if a != [] {
      assert a[0] == s[|s| - |a|];
    }
  }

  /** A string with no whitespace at either end is its own trim. */
  lemma TrimUnpadded(s: string)
    requires s != [] ==> !IsJsWhitespace(s[0]) && !IsJsWhitespace(s[|s| - 1])
    ensures Trim(s) == s
  {
  }

  /** A string that is not blank is not empty. */
  lemma NotBlankIsNonEmpty(s: string)
    requires !IsBlank(s)
    ensures s != ""
  {
  }

  /** `s.split(sep)`: the pieces between occurrences of `sep`; always at least one piece. */
  function Split(s: string, sep: char): (r: seq<string>)
    ensures |r| >= 1
    ensures forall i :: 0 <= i < |r| ==> sep !in r[i]
    ensures Join(r, sep) == s
    decreases |s|
  {
    if sep !in s then [s]
    else
      var k := IndexOf(s, sep);
      assert s == s[..k] + [sep] + s[k + 1..];
      [s[..k]] + Split(s[k + 1..], sep)
  }

  /** `pieces.join(sep)`, the inverse of `Split`. */
  function Join(pieces: seq<string>, sep: char): string
  {
    if |pieces| <= 1 then (if pieces == [] then "" else pieces[0])
    else pieces[0] + [sep] + Join(pieces[1..], sep)
  }

  /** The first piece of a split is the text before the first separator. */
  lemma SplitHead(a: string, sep: char, b: string)
    requires sep !in a
    ensures Split(a + [sep] + b, sep)[0] == a
  {
    var s := a + [sep] + b;
    assert s[|a|] == sep;
    assert IndexOf(s, sep) == |a|;
    assert s[..|a|] == a;
  }

  /** Splitting a string of pieces joined around single separators gives the pieces back. */
  lemma SplitJoined3(a: string, b: string, c: string, sep: char)
    requires sep !in a && sep !in b && sep !in c
    ensures Split(a + [sep] + b + [sep] + c, sep) == [a, b, c]
  {
    var s := a + [sep] + b + [sep] + c;
    var t := b + [sep] + c;
    assert s == a + [sep] + t;
    SplitHead(a, sep, t);
    assert s[|a| + 1..] == t;
    SplitHead(b, sep, c);
    assert t[|b| + 1..] == c;
  }

  lemma SplitJoined2(a: string, b: string, sep: char)
    requires sep !in a && sep !in b
    ensures Split(a + [sep] + b, sep) == [a, b]
  {
    var s := a + [sep] + b;
    SplitHead(a, sep, b);
    assert s[|a| + 1..] == b;
  }

  predicate IsDigit(c: char)
  {
    '0' <= c <= '9'
  }

  predicate AllDigits(s: string)
  {
    forall i :: 0 <= i < |s| ==> IsDigit(s[i])
  }

  /** The value of a string of decimal digits, read most significant digit first. */
  function DigitsValue(s: string): nat
    requires AllDigits(s)
  {
    if s == [] then 0 else DigitsValue(s[..|s| - 1]) * 10 + (s[|s| - 1] as int - '0' as int)
  }

  function Pow10(k: nat): (r: nat)
    ensures r >= 1
  {
    if k == 0 then 1 else 10 * Pow10(k - 1)
  }

  /** An unsigned decimal literal: digits, optionally a '.', optionally more digits; at least one digit. */
  function ParseUnsigned(u: string): Option<real>
  {
    if '.' in u then
      var k := IndexOf(u, '.');
      var whole, frac := u[..k], u[k + 1..];
      if AllDigits(whole) && AllDigits(frac) && |whole| + |frac| > 0
      then Some(DigitsValue(whole) as real + DigitsValue(frac) as real / Pow10(|frac|) as real)
      else None
    else if |u| > 0 && AllDigits(u) then Some(DigitsValue(u) as real)
    else None
  }

  /** A literal with no surrounding whitespace: the empty string is 0, then an optional sign. */
  function ParseTrimmed(t: string): Option<real>
  {
    if t == [] then Some(0.0)
    else if t[0] == '-' then
      match ParseUnsigned(t[1..])
      case Some(v) => Some(-v)
      case None => None
    else if t[0] == '+' then ParseUnsigned(t[1..])
    else ParseUnsigned(t)
  }

  /**
   * `Number(s)` on a string: whitespace at either end is ignored and what is
   * left is read by `ParseTrimmed`; NaN is written `None`.
   */
  function ParseNumber(s: string): Option<real>
    decreases |s|
  {
    if |s| > 0 && IsJsWhitespace(s[0]) then ParseNumber(s[1..])
    else if |s| > 0 && IsJsWhitespace(s[|s| - 1]) then ParseNumber(s[..|s| - 1])
    else ParseTrimmed(s)
  }

  /** Peeling whitespace one character at a time reads the same literal as `trim()` would leave. */
  lemma {:induction false} ParseNumberReadsTrimmed(s: string)
    ensures ParseNumber(s) == ParseTrimmed(Trim(s))
    decreases |s|
  {
    if |s| > 0 && IsJsWhitespace(s[0]) {
      ParseNumberReadsTrimmed(s[1..]);
    } else if |s| > 0 && IsJsWhitespace(s[|s| - 1]) {
      var u := s[..|s| - 1];
      ParseNumberReadsTrimmed(u);
      assert u[0] == s[0];
    } else {
      TrimUnpadded(s);
    }
  }

  /** `Number(s) || 0`: NaN and zero both give 0. */
  function NumberOrZero(s: string): real
  {
    match ParseNumber(s)
    case Some(v) => v
    case None => 0.0
  }

  function DigitChar(d: nat): (c: char)
    requires d < 10
    ensures IsDigit(c) && c as int - '0' as int == d
  {
    ('0' as int + d) as char
  }

  /** `n.toString()` for a non-negative integer: its decimal digits, no sign, no leading zero. */
  function NatToString(n: nat): (s: string)
    ensures |s| >= 1 && AllDigits(s)
    ensures s[0] == '0' ==> n == 0
  {
    if n < 10 then [DigitChar(n)] else NatToString(n / 10) + [DigitChar(n % 10)]
  }

  lemma {:induction false} DigitsOfNatToString(n: nat)
    ensures DigitsValue(NatToString(n)) == n
  {
    var s := NatToString(n);
    if n < 10 {
      assert s[..0] == [];
    } else {
      DigitsOfNatToString(n / 10);
      assert s[..|s| - 1] == NatToString(n / 10);
    }
  }

  /** A non-empty run of decimal digits reads as its value. */
  lemma ParseDigits(s: string)
    requires |s| > 0 && AllDigits(s)
    ensures ParseNumber(s) == Some(DigitsValue(s) as real)
  {
    assert '.' !in s by {
      assert forall i :: 0 <= i < |s| ==> s[i] != '.';
    }
    assert IsDigit(s[0]) && IsDigit(s[|s| - 1]);
  }

  /** Round trip: `Number(n.toString())` gives `n` back. */
  lemma NumberOfNatToString(n: nat)
    ensures ParseNumber(NatToString(n)) == Some(n as real)
  {
    ParseDigits(NatToString(n));
    DigitsOfNatToString(n);
  }
}
