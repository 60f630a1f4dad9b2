/** The string helpers the script parser relies on, as Python defines them:
    `str.splitlines`, `str.strip`, `str.split` on a one-character separator,
    and the comment removal `re.sub(r'#.*', "", line)`
    (api/network_factory.py). */
module Text {

  /** A character `str.strip` removes: Python's whitespace characters. */
  predicate IsSpace(c: char)
  {
    || c == ' ' || '\t' <= c <= '\r' || '\U{1C}' <= c <= '\U{1F}'
    || c == '\U{85}' || c == '\U{A0}' || c == '\U{1680}' || '\U{2000}' <= c <= '\U{200A}'
    || c == '\U{2028}' || c == '\U{2029}' || c == '\U{202F}' || c == '\U{205F}' || c == '\U{3000}'
  }

  /** A character at which `str.splitlines` ends a line. */
  predicate IsLineBreak(c: char)
  {
    || c == '\n' || c == '\r' || c == '\U{0B}' || c == '\U{0C}' || '\U{1C}' <= c <= '\U{1E}'
    || c == '\U{85}' || c == '\U{2028}' || c == '\U{2029}'
  }

  /** The number of whitespace characters `s` starts with. */
  function LeadingSpace(s: string): (k: nat)
    ensures k <= |s| && (k < |s| ==> !IsSpace(s[k]))
  {
    if s != [] && IsSpace(s[0]) then 1 + LeadingSpace(s[1..]) else 0
  }

  /** The length of `s` once its trailing whitespace is cut. */
  function TrailingStart(s: string): (k: nat)
    ensures k <= |s| && (k > 0 ==> !IsSpace(s[k - 1]))
  {
    if s != [] && IsSpace(s[|s| - 1]) then TrailingStart(s[..|s| - 1]) else |s|
  }

  lemma {:induction false} LeadingAllSpace(s: string)
    ensures forall i | 0 <= i < LeadingSpace(s) :: IsSpace(s[i])
  {
    if s != [] && IsSpace(s[0]) {
      LeadingAllSpace(s[1..]);
      assert forall i | 1 <= i < |s| :: s[i] == s[1..][i - 1];
    }
  }

  lemma {:induction false} TrailingAllSpace(s: string)
    ensures forall i | TrailingStart(s) <= i < |s| :: IsSpace(s[i])
  {
    if s != [] && IsSpace(s[|s| - 1]) {
      TrailingAllSpace(s[..|s| - 1]);
    }
  }

  /** `s` without its leading whitespace. */
  function TrimLeft(s: string): string
  {
    s[LeadingSpace(s)..]
  }

  /** `s` without its trailing whitespace. */
  function TrimRight(s: string): string
  {
    s[..TrailingStart(s)]
  }

  /** `r` is the slice of `s` from `lo` on, and only whitespace lies
      outside it. */
  predicate SliceAmidSpace(s: string, r: string, lo: nat)
  {
    && lo + |r| <= |s| && r == s[lo..lo + |r|]
    && (forall i | 0 <= i < lo :: IsSpace(s[i]))
    && (forall i | lo + |r| <= i < |s| :: IsSpace(s[i]))
  }

  /** `str.strip()`: neither end of the result is whitespace. */
  function Strip(s: string): (r: string)
    ensures |r| <= |s|
    ensures r == [] || (!IsSpace(r[0]) && !IsSpace(r[|r| - 1]))
  {
    TrimRight(TrimLeft(s))
  }

  /** `str.strip()` keeps a slice of its argument and cuts only whitespace
      from either end. */
  lemma StripIsSlice(s: string)
    ensures exists lo :: SliceAmidSpace(s, Strip(s), lo)
  {
    var lo := LeadingSpace(s);
    var left := s[lo..];
    var r := Strip(s);
    assert r == left[..TrailingStart(left)] == s[lo..lo + |r|];
    LeadingAllSpace(s);
    TrailingAllSpace(left);
    assert forall i | lo + |r| <= i < |s| :: IsSpace(s[i]) by {
      forall i | lo + |r| <= i < |s| ensures IsSpace(s[i]) {
        assert s[i] == left[i - lo];
      }
    }
    assert SliceAmidSpace(s, r, lo);
  }

  /** Stripping twice is stripping once. */
  lemma StripIdempotent(s: string)
    ensures Strip(Strip(s)) == Strip(s)
  {
    var r := Strip(s);
    if r != [] {
      assert LeadingSpace(r) == 0;
      assert r[0..] == r;
      assert TrailingStart(r) == |r|;
    }
  }

  /** The position of the first `#` in `s`, or `|s|` when there is none. */
  function CommentStart(s: string): (k: nat)
    ensures k <= |s| && '#' !in s[..k] && (k < |s| ==> s[k] == '#')
  {
    if s == [] || s[0] == '#' then 0
    else
      var k := 1 + CommentStart(s[1..]);
      assert s[..k] == [s[0]] + s[1..][..k - 1];
      k
  }

  /** `re.sub(r'#.*', "", line)` on one line: everything from the first `#`
      on is dropped. */
  function RemoveComment(s: string): (r: string)
    ensures |r| <= |s| && r == s[..|r|] && '#' !in r
    ensures |r| < |s| ==> s[|r|] == '#'
  {
    s[..CommentStart(s)]
  }

  /** `s.split(d)`: the pieces between the occurrences of `d`, one more than
      there are occurrences; no piece contains `d`. */
  function Split(s: string, d: char): (r: seq<string>)
    ensures |r| == Count(s, d) + 1
    ensures forall k | 0 <= k < |r| :: d !in r[k]
  {
    if d !in s then
      CountAbsent(s, d);
      [s]
    else
      var i := IndexOf(s, d);
      CountSplitAt(s, d, i);
      [s[..i]] + Split(s[i + 1..], d)
  }

  /** The number of occurrences of `d` in `s`. */
  function Count(s: string, d: char): nat
  {
    if s == [] then 0 else (if s[0] == d then 1 else 0) + Count(s[1..], d)
  }

  /** The position of the first `d` in `s`. */
  function IndexOf(s: string, d: char): (i: nat)
    requires d in s
    ensures i < |s| && s[i] == d && d !in s[..i]
  {
    if s[0] == d then 0 else 1 + IndexOf(s[1..], d)
  }

  lemma {:induction false} CountSplitAt(s: string, d: char, i: nat)
    requires i < |s| && s[i] == d && d !in s[..i]
    ensures Count(s, d) == 1 + Count(s[i + 1..], d)
  {
    if i > 0 {
      assert s[1..][..i - 1] == s[1..i];
      assert s[1..][i..] == s[i + 1..];
      CountSplitAt(s[1..], d, i - 1);
    }
  }

  lemma {:induction false} CountAbsent(s: string, d: char)
    requires d !in s
    ensures Count(s, d) == 0
  {
    if s != [] {
      CountAbsent(s[1..], d);
    }
  }

  /** `d.join(pieces)`. */
  function Join(pieces: seq<string>, d: char): string
  {
    if |pieces| <= 1 then (if pieces == [] then [] else pieces[0])
    else pieces[0] + [d] + Join(pieces[1..], d)
  }

  /** Joining the pieces of a split with the separator gives back the
      string. */
  lemma {:induction false} SplitJoin(s: string, d: char)
    ensures Join(Split(s, d), d) == s
  {
    if d in s {
      var i := IndexOf(s, d);
      SplitJoin(s[i + 1..], d);
      assert s == s[..i] + [d] + s[i + 1..];
    }
  }

  /** The length of the line break at `i`: `\r\n` counts as one break. */
  function BreakLength(s: string, i: nat): nat
    requires i < |s|
  {
    if s[i] == '\r' && i + 1 < |s| && s[i + 1] == '\n' then 2 else 1
  }

  /** The position of the first line break in `s`, or `|s|`. */
  function FirstBreak(s: string): (i: nat)
    ensures i <= |s| && (i < |s| ==> IsLineBreak(s[i]))
    ensures forall k | 0 <= k < i :: !IsLineBreak(s[k])
  {
    if s == [] || IsLineBreak(s[0]) then 0 else 1 + FirstBreak(s[1..])
  }

  /** `str.splitlines()`: the lines without their breaks; a break at the
      very end does not start another line. */
  function Lines(s: string): (r: seq<string>)
    ensures forall k, j | 0 <= k < |r| && 0 <= j < |r[k]| :: !IsLineBreak(r[k][j])
    ensures s == [] <==> r == []
    decreases |s|
  {
    if s == [] then []
    else
      var i := FirstBreak(s);
      if i == |s| then [s]
      else [s[..i]] + Lines(s[i + BreakLength(s, i)..])
  }

  /** A nonzero count means `d` occurs. */
  lemma {:induction false} CountPresent(s: string, d: char)
    requires Count(s, d) != 0
    ensures d in s
  {
    if s[0] != d {
      CountPresent(s[1..], d);
    }
  }

  /** A zero count means `d` does not occur. */
  lemma {:induction false} CountZeroAbsent(s: string, d: char)
    requires Count(s, d) == 0
    ensures d !in s
  {
    if s != [] {
      CountZeroAbsent(s[1..], d);
      assert forall k | 1 <= k < |s| :: s[k] == s[1..][k - 1];
    }
  }

  /** Counting is additive over concatenation. */
  lemma {:induction false} CountConcat(a: string, b: string, d: char)
    ensures Count(a + b, d) == Count(a, d) + Count(b, d)
  {
    if a != [] {
      assert (a + b)[1..] == a[1..] + b;
      CountConcat(a[1..], b, d);
    } else {
      assert a + b == b;
    }
  }

  /** `a`, the character `d`, then `b`. */
  function Around(a: string, d: char, b: string): (r: string)
    ensures |r| == |a| + 1 + |b| && r[|a|] == d
  {
    a + [d] + b
  }

  /** With `d` in neither `a` nor `b`, the string `Around(a, d, b)` holds `d`
      once, at `|a|`, with `a` before it and `b` after it. */
  lemma AroundOnce(a: string, d: char, b: string)
    requires d !in a && d !in b
    ensures var s := Around(a, d, b);
      && Count(s, d) == 1 && d in s && IndexOf(s, d) == |a|
      && s[..|a|] == a && s[|a| + 1..] == b
  {
    var s := Around(a, d, b);
    assert s[..|a|] == a && s[|a| + 1..] == b;
    CountAbsent(a, d);
    CountAbsent(b, d);
    CountConcat(a + [d], b, d);
    CountConcat(a, [d], d);
    assert [d][1..] == [];
    CountAbsent(s[..|a|], d);
    assert IndexOf(s, d) == |a|;
  }

  /** Every character of `s` is whitespace. */
  predicate AllSpace(s: string)
  {
    forall i | 0 <= i < |s| :: IsSpace(s[i])
  }

  lemma {:induction false} LeadingSpaces(l: string, s: string)
    requires AllSpace(l) && (s == [] || !IsSpace(s[0]))
    ensures LeadingSpace(l + s) == |l|
  {
    if l != [] {
      assert (l + s)[1..] == l[1..] + s;
      LeadingSpaces(l[1..], s);
    } else {
      assert l + s == s;
    }
  }

  lemma {:induction false} TrailingSpaces(s: string, r: string)
    requires AllSpace(r) && (s == [] || !IsSpace(s[|s| - 1]))
    ensures TrailingStart(s + r) == |s|
  {
    if r != [] {
      assert (s + r)[..|s + r| - 1] == s + r[..|r| - 1];
      TrailingSpaces(s, r[..|r| - 1]);
    } else {
      assert s + r == s;
    }
  }

  /** Stripping removes exactly the whitespace around a string that neither
      starts nor ends with whitespace. */
  lemma StripPadded(l: string, s: string, r: string)
    requires AllSpace(l) && AllSpace(r)
    requires s != [] && !IsSpace(s[0]) && !IsSpace(s[|s| - 1])
    ensures Strip(l + s + r) == s
  {
    assert l + s + r == l + (s + r);
    LeadingSpaces(l, s + r);
    assert TrimLeft(l + s + r) == s + r;
    TrailingSpaces(s, r);
    assert TrimRight(s + r) == s;
  }

  /** A line without `#` has no comment to remove. */
  lemma {:induction false} RemoveCommentAbsent(s: string)
    requires '#' !in s
    ensures RemoveComment(s) == s
  {
    if s != [] {
      RemoveCommentAbsent(s[1..]);
      assert s[1..][..|s| - 1] == s[1..];
    }
  }
}
