/** Names of nodes, ports and terminals, and the ordering Python's `sorted()`
    uses on them: strings compare lexicographically by code point. */
module Names {

  type Name = string

  /** Python's `a < b` on str. */
  predicate Below(a: string, b: string)
  {
    if |a| == 0 then |b| != 0
    else if |b| == 0 then false
    else if a[0] != b[0] then a[0] < b[0]
    else Below(a[1..], b[1..])
  }

  lemma {:induction false} BelowIrreflexive(a: string)
    ensures !Below(a, a)
  {
    if |a| > 0 { BelowIrreflexive(a[1..]); }
  }

  lemma {:induction false} BelowAsymmetric(a: string, b: string)
    ensures Below(a, b) ==> !Below(b, a)
  {
    if |a| > 0 && |b| > 0 && a[0] == b[0] { BelowAsymmetric(a[1..], b[1..]); }
  }

  lemma {:induction false} BelowTransitive(a: string, b: string, c: string)
    ensures Below(a, b) && Below(b, c) ==> Below(a, c)
  {
    if |a| > 0 && |b| > 0 && |c| > 0 && a[0] == b[0] == c[0] {
      BelowTransitive(a[1..], b[1..], c[1..]);
    }
  }

  lemma {:induction false} BelowTotal(a: string, b: string)
    ensures a == b || Below(a, b) || Below(b, a)
  {
    if |a| > 0 && |b| > 0 && a[0] == b[0] {
      BelowTotal(a[1..], b[1..]);
      if a[1..] == b[1..] {
        assert a == [a[0]] + a[1..] && b == [b[0]] + b[1..];
      }
    }
  }

  /** No element occurs twice. */
  predicate Distinct<T(==)>(s: seq<T>)
  {
    forall i, j | 0 <= i < j < |s| :: s[i] != s[j]
  }

  /** Non-decreasing order: what `sorted()` produces when names may repeat. */
  predicate Sorted(s: seq<Name>)
  {
    forall i, j | 0 <= i < j < |s| :: !Below(s[j], s[i])
  }

  /** Strictly increasing order: `sorted()` applied to distinct names. */
  predicate StrictlySorted(s: seq<Name>)
  {
    Sorted(s) && Distinct(s)
  }

  /** Inserts `x` into a sorted sequence. */
  function Insert(x: Name, s: seq<Name>): (r: seq<Name>)
    requires Sorted(s)
    ensures Sorted(r)
    ensures multiset(r) == multiset(s) + multiset{x}
  {
    if s == [] then [x]
    else if Below(s[0], x) then
      var rest := Insert(x, s[1..]);
      assert s == [s[0]] + s[1..];
      forall j | 0 <= j < |rest| ensures !Below(rest[j], s[0]) {
        assert rest[j] in multiset(rest);
        if rest[j] == x {
          BelowAsymmetric(s[0], x);
        } else {
          assert rest[j] in s[1..];
          var k :| 1 <= k < |s| && s[k] == rest[j];
        }
      }
      [s[0]] + rest
    else
      var r := [x] + s;
      forall j | 0 < j < |r| ensures !Below(r[j], x) {
        BelowTotal(x, s[0]);
        if j > 1 { BelowTransitive(r[j], x, s[0]); }
      }
      r
  }

  /** Python's `sorted()` over names (insertion sort). */
  function SortNames(s: seq<Name>): (r: seq<Name>)
    ensures Sorted(r)
    ensures multiset(r) == multiset(s)
  {
    if s == [] then []
    else
      assert s == [s[0]] + s[1..];
      Insert(s[0], SortNames(s[1..]))
  }

  lemma {:induction false} DistinctCount(s: seq<Name>, x: Name)
    requires Distinct(s)
    ensures multiset(s)[x] <= 1
  {
    if s != [] {
      assert s == [s[0]] + s[1..];
      DistinctCount(s[1..], x);
    }
  }

  /** Two strictly sorted sequences holding the same names are equal: the
      sorted order of a set of names is unique. */
  lemma {:induction false} StrictlySortedUnique(a: seq<Name>, b: seq<Name>)
    requires StrictlySorted(a) && StrictlySorted(b)
    requires forall x :: x in a <==> x in b
    ensures a == b
  {
    if a != [] && b != [] {
      assert a[0] in b && b[0] in a;
      var i :| 0 <= i < |b| && b[i] == a[0];
      var j :| 0 <= j < |a| && a[j] == b[0];
      if a[0] != b[0] {
        assert i > 0 && j > 0;
        BelowTotal(a[0], b[0]);
        assert false;
      }
      forall x ensures x in a[1..] <==> x in b[1..] {
        if x in a[1..] {
          var k :| 1 <= k < |a| && a[k] == x;
          assert x in b;
        }
        if x in b[1..] {
          var k :| 1 <= k < |b| && b[k] == x;
          assert x in a;
        }
      }
      StrictlySortedUnique(a[1..], b[1..]);
      assert a == [a[0]] + a[1..] && b == [b[0]] + b[1..];
    } else if a != [] {
      HeadIn(a);
      assert false;
    } else if b != [] {
      HeadIn(b);
      assert false;
    }
  }

  lemma HeadIn<T>(s: seq<T>)
    requires s != []
    ensures s[0] in s
  {
  }

  lemma Twice(r: seq<Name>, i: nat, j: nat)
    requires i < j < |r| && r[i] == r[j]
    ensures multiset(r)[r[i]] >= 2
  {
    assert r == r[..i] + [r[i]] + r[i + 1..j] + [r[j]] + r[j + 1..];
  }

  lemma CountsDistinct(r: seq<Name>)
    requires forall x :: multiset(r)[x] <= 1
    ensures Distinct(r)
  {
    forall i, j | 0 <= i < j < |r| ensures r[i] != r[j] {
      if r[i] == r[j] {
        Twice(r, i, j);
      }
    }
  }

  /** Inserting a new name into a strictly sorted sequence keeps it strict. */
  lemma InsertFresh(k: Name, s: seq<Name>)
    requires StrictlySorted(s) && k !in s
    ensures StrictlySorted(Insert(k, s))
    ensures forall x :: x in Insert(k, s) <==> x in s || x == k
  {
    var r := Insert(k, s);
    forall x ensures multiset(r)[x] <= 1 {
      DistinctCount(s, x);
    }
    CountsDistinct(r);
    assert forall x :: x in r <==> x in multiset(r);
  }

  lemma {:induction false} SortedOfSetExists(keys: set<Name>)
    ensures exists s :: StrictlySorted(s) && forall x :: x in s <==> x in keys
  {
    if keys == {} {
      assert StrictlySorted([]) && forall x :: x in [] <==> x in keys;
    } else {
      var k :| k in keys;
      SortedOfSetExists(keys - {k});
      var s :| StrictlySorted(s) && forall x :: x in s <==> x in keys - {k};
      InsertFresh(k, s);
    }
  }

  /** The names of `keys` in increasing order: `sorted(d.values(), key=name)`
      for a dict keyed by name. */
  ghost function SortedKeys(keys: set<Name>): (r: seq<Name>)
    ensures StrictlySorted(r)
    ensures forall x :: x in r <==> x in keys
  {
    SortedOfSetExists(keys);
    var s :| StrictlySorted(s) && forall x :: x in s <==> x in keys;
    s
  }

  /** Computes `SortedKeys(keys)`: inserts the keys one at a time. */
  method SortKeys(keys: set<Name>) returns (r: seq<Name>)
    ensures r == SortedKeys(keys)
  {
    r := [];
    var rest := keys;
    while rest != {}
      invariant rest <= keys
      invariant StrictlySorted(r)
      invariant forall x :: x in r <==> x in keys - rest
      decreases rest
    {
      var k :| k in rest;
      InsertFresh(k, r);
      r := Insert(k, r);
      rest := rest - {k};
    }
    StrictlySortedUnique(r, SortedKeys(keys));
  }

  /** Prefix steps, stated once so that loops over a sequence need no
      extensional reasoning of their own. */
  lemma PrefixStep<T>(s: seq<T>, i: nat)
    requires i < |s|
    ensures s[..i + 1] == s[..i] + [s[i]]
  {
  }

  lemma PrefixAll<T>(s: seq<T>)
    ensures s[..|s|] == s
  {
  }
}
