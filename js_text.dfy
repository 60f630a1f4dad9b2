/** The JavaScript string operations the visualisation parser relies on:
    `String.prototype.trim`, `.length` (counted in UTF-16 code units) and
    the decimal text of a non-negative integer (`"e" + i`)
    (dsl_vis/script/graph.js). `split` on one character cuts exactly as
    Python's does, so the parser uses `Text.Split`. */
module JsText {

  /** A character `trim` removes: ECMAScript white space and line
      terminators. */
  predicate IsJsSpace(c: char)
  {
    || c == ' ' || '\t' <= c <= '\r' || c == '\U{A0}' || c == '\U{1680}'
    || '\U{2000}' <= c <= '\U{200A}' || c == '\U{2028}' || c == '\U{2029}'
    || c == '\U{202F}' || c == '\U{205F}' || c == '\U{3000}' || c == '\U{FEFF}'
  }

  /** The number of white-space characters `s` starts with. */
  function LeadingJsSpace(s: string): (k: nat)
    ensures k <= |s| && (k < |s| ==> !IsJsSpace(s[k]))
  {
    if s != [] && IsJsSpace(s[0]) then 1 + LeadingJsSpace(s[1..]) else 0
  }

  /** The length of `s` once its trailing white space is cut. */
  function TrailingJsStart(s: string): (k: nat)
    ensures k <= |s| && (k > 0 ==> !IsJsSpace(s[k - 1]))
  {
    if s != [] && IsJsSpace(s[|s| - 1]) then TrailingJsStart(s[..|s| - 1]) else |s|
  }

  lemma {:induction false} LeadingAllJsSpace(s: string)
    ensures forall i | 0 <= i < LeadingJsSpace(s) :: IsJsSpace(s[i])
  {
    if s != [] && IsJsSpace(s[0]) {
      LeadingAllJsSpace(s[1..]);
      assert forall i | 1 <= i < |s| :: s[i] == s[1..][i - 1];
    }
  }

  lemma {:induction false} TrailingAllJsSpace(s: string)
    ensures forall i | TrailingJsStart(s) <= i < |s| :: IsJsSpace(s[i])
  {
    if s != [] && IsJsSpace(s[|s| - 1]) {
      TrailingAllJsSpace(s[..|s| - 1]);
    }
  }

  /** `s.trim()`: neither end of the result is white space. */
  function Trim(s: string): (r: string)
    ensures |r| <= |s|
    ensures r == [] || (!IsJsSpace(r[0]) && !IsJsSpace(r[|r| - 1]))
  {
    var t := s[LeadingJsSpace(s)..];
    t[..TrailingJsStart(t)]
  }

  /** `r` is the slice of `s` from `lo` on, with only white space
      outside it. */
  predicate AmidJsSpace(s: string, r: string, lo: nat)
  {
    && lo + |r| <= |s| && r == s[lo..lo + |r|]
    && (forall i | 0 <= i < lo :: IsJsSpace(s[i]))
    && (forall i | lo + |r| <= i < |s| :: IsJsSpace(s[i]))
  }

  /** `trim` removes white space only: the result is a slice of `s` with
      nothing but white space around it. */
  lemma TrimIsSlice(s: string)
    ensures exists lo: nat :: AmidJsSpace(s, Trim(s), lo)
  {
    var lo := LeadingJsSpace(s);
    var t := s[lo..];
    LeadingAllJsSpace(s);
    TrailingAllJsSpace(t);
    var r := Trim(s);
    assert r == t[..TrailingJsStart(t)];
    assert forall i | lo + |r| <= i < |s| :: s[i] == t[i - lo];
    assert AmidJsSpace(s, r, lo);
  }

  /** Trimming twice trims nothing more. */
  lemma TrimIdempotent(s: string)
    ensures Trim(Trim(s)) == Trim(s)
  {
    var r := Trim(s);
    if r != [] {
      assert LeadingJsSpace(r) == 0;
      assert r[0..] == r;
      assert TrailingJsStart(r) == |r|;
    }
  }

  /** `.length`: the number of UTF-16 code units, two for a character
      outside the Basic Multilingual Plane. */
  function Utf16Length(s: string): (n: nat)
    ensures |s| <= n <= 2 * |s|
  {
    if s == [] then 0 else (if s[0] > '\U{FFFF}' then 2 else 1) + Utf16Length(s[1..])
  }

  /** On text inside the Basic Multilingual Plane `.length` counts
      characters. */
  lemma {:induction false} Utf16LengthBmp(s: string)
    requires forall i | 0 <= i < |s| :: s[i] <= '\U{FFFF}'
    ensures Utf16Length(s) == |s|
  {
    if s != [] {
      Utf16LengthBmp(s[1..]);
    }
  }

  /** The digit character for `d`. */
  function Digit(d: nat): (c: char)
    requires d < 10
    ensures '0' <= c <= '9'
  {
    ['0', '1', '2', '3', '4', '5', '6', '7', '8', '9'][d]
  }

  /** The decimal text of `n`, as JavaScript writes a non-negative
      integer: no sign, no leading zero. */
  function Decimal(n: nat): (r: string)
    ensures r != [] && (|r| > 1 ==> r[0] != '0')
    ensures forall i | 0 <= i < |r| :: '0' <= r[i] <= '9'
    ensures (|r| == 1) == (n < 10)
  {
    if n < 10 then [Digit(n)] else Decimal(n / 10) + [Digit(n % 10)]
  }

  lemma DigitInjective(a: nat, b: nat)
    requires a < 10 && b < 10 && Digit(a) == Digit(b)
    ensures a == b
  {
  }

  /** Different numbers have different decimal texts. */
  lemma {:induction false} DecimalInjective(a: nat, b: nat)
    requires Decimal(a) == Decimal(b)
    ensures a == b
  {
    var s := Decimal(a);
    if a >= 10 {
      assert b >= 10;
      assert s[|s| - 1] == Digit(a % 10) == Digit(b % 10);
      DigitInjective(a % 10, b % 10);
      assert Decimal(a / 10) == s[..|s| - 1] == Decimal(b / 10);
      DecimalInjective(a / 10, b / 10);
    } else {
      DigitInjective(a, b);
    }
  }
}
