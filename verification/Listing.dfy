/** The order in which a bbolt bucket is walked: ascending byte order of the keys. */
module Listing {

  predicate Before(a: string, b: string) {
    b != [] && (a == [] || a[0] < b[0] || (a[0] == b[0] && Before(a[1..], b[1..])))
  }

  /** The first `n` characters agree. */
  ghost predicate SameStart(a: string, b: string, n: nat) {
    n <= |a| && n <= |b| && a[..n] == b[..n]
  }

  /** One key comes before another exactly when it is a proper prefix or has the smaller character where they first
      differ. */
  lemma {:induction false} BeforeIsLexicographic(a: string, b: string)
    ensures Before(a, b) <==>
      exists n: nat :: SameStart(a, b, n) && n < |b| && (n == |a| || (n < |a| && a[n] < b[n]))
  {
    if Before(a, b) {
      var n := FirstDifference(a, b);
      assert SameStart(a, b, n);
    }
    forall n: nat | SameStart(a, b, n) && n < |b| && (n == |a| || (n < |a| && a[n] < b[n])) ensures Before(a, b) {
      DifferenceDecides(a, b, n);
    }
  }

  lemma {:induction false} FirstDifference(a: string, b: string) returns (n: nat)
    requires Before(a, b)
    ensures SameStart(a, b, n) && n < |b| && (n == |a| || (n < |a| && a[n] < b[n]))
  {
    if a == [] || a[0] < b[0] {
      n := 0;
    } else {
      var k := FirstDifference(a[1..], b[1..]);
      n := k + 1;
      assert a[..n] == [a[0]] + a[1..][..k] && b[..n] == [b[0]] + b[1..][..k];
    }
  }

  lemma {:induction false} DifferenceDecides(a: string, b: string, n: nat)
    requires SameStart(a, b, n) && n < |b| && (n == |a| || (n < |a| && a[n] < b[n]))
    ensures Before(a, b)
  {
    if n > 0 {
      assert a[0] == a[..n][0] == b[..n][0] == b[0];
      assert a[1..][..n - 1] == a[..n][1..] && b[1..][..n - 1] == b[..n][1..];
      DifferenceDecides(a[1..], b[1..], n - 1);
    }
  }

  lemma {:induction false} BeforeTotal(a: string, b: string)
    ensures a == b || Before(a, b) || Before(b, a)
    ensures !(Before(a, b) && (a == b || Before(b, a)))
  {
    if a != [] && b != [] {
      BeforeTotal(a[1..], b[1..]);
      assert a == [a[0]] + a[1..] && b == [b[0]] + b[1..];
    }
  }

  lemma {:induction false} BeforeTransitive(a: string, b: string, c: string)
    requires Before(a, b) && Before(b, c)
    ensures Before(a, c)
  {
    if a != [] && a[0] == b[0] == c[0] {
      BeforeTransitive(a[1..], b[1..], c[1..]);
    }
  }

  ghost predicate IsFirst(k: string, keys: set<string>) {
    k in keys && forall x :: x in keys && x != k ==> Before(k, x)
  }

  lemma {:induction false} FirstExists(keys: set<string>)
    requires keys != {}
    ensures exists k :: IsFirst(k, keys)
    decreases |keys|
  {
    var x :| x in keys;
    if keys == {x} {
      assert IsFirst(x, keys);
    } else {
      assert keys - {x} != {};
      FirstExists(keys - {x});
      var k :| IsFirst(k, keys - {x});
      BeforeTotal(k, x);
      if Before(x, k) {
        forall y | y in keys && y != x ensures Before(x, y) {
          if y != k {
            BeforeTransitive(x, k, y);
          }
        }
        assert IsFirst(x, keys);
      } else {
        assert IsFirst(k, keys);
      }
    }
  }

  lemma FirstUnique(k: string, k': string, keys: set<string>)
    requires IsFirst(k, keys) && IsFirst(k', keys)
    ensures k == k'
  {
    BeforeTotal(k, k');
  }

  ghost function SortedKeys(keys: set<string>): seq<string>
    decreases |keys|
  {
    if keys == {} then []
    else
      FirstExists(keys);
      var k :| IsFirst(k, keys);
      [k] + SortedKeys(keys - {k})
  }

  /** The listing holds each key once, in ascending order. */
  lemma {:induction false} SortedKeysListed(keys: set<string>)
    ensures |SortedKeys(keys)| == |keys|
    ensures forall k :: k in SortedKeys(keys) <==> k in keys
    ensures forall i, j :: 0 <= i < j < |SortedKeys(keys)| ==> Before(SortedKeys(keys)[i], SortedKeys(keys)[j])
    decreases |keys|
  {
    if keys != {} {
      FirstExists(keys);
      var k := SortedKeys(keys)[0];
      var rest := keys - {k};
      assert SortedKeys(keys) == [k] + SortedKeys(rest);
      SortedKeysListed(rest);
      forall j | 1 <= j < |SortedKeys(keys)| ensures Before(k, SortedKeys(keys)[j]) {
        assert SortedKeys(keys)[j] == SortedKeys(rest)[j - 1];
        assert SortedKeys(keys)[j] in rest;
      }
    }
  }

  lemma SortedKeysDistinct(keys: set<string>, i: nat, j: nat)
    requires i < j < |SortedKeys(keys)|
    ensures SortedKeys(keys)[i] != SortedKeys(keys)[j]
  {
    SortedKeysListed(keys);
    BeforeTotal(SortedKeys(keys)[i], SortedKeys(keys)[j]);
  }

  method WalkKeys(keys: set<string>) returns (r: seq<string>)
    ensures r == SortedKeys(keys)
  {
    r := [];
    var rest := keys;
    while rest != {}
      invariant SortedKeys(keys) == r + SortedKeys(rest)
      decreases |rest|
    {
      FirstExists(rest);
      ghost var first :| IsFirst(first, rest);
      assert first in rest;
      var k :| k in rest && forall x :: x in rest && x != k ==> Before(k, x);
      forall k' | IsFirst(k', rest) ensures k' == k { FirstUnique(k, k', rest); }
      r, rest := r + [k], rest - {k};
    }
  }
}
