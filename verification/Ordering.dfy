/** Orders and lists shared by the models: lexicographic names, strictly increasing lists, listings of sets. */
module Ordering {

  // Lexicographic order on strings.
  predicate NameLess(a: string, b: string) {
    b != [] && (a == [] || a[0] < b[0] || (a[0] == b[0] && NameLess(a[1..], b[1..])))
  }

  /** a comes first exactly if it is a proper prefix of b, or has the smaller character where they first differ. */
  lemma {:induction false} NameLessMeaning(a: string, b: string)
    ensures NameLess(a, b) <==> exists k: nat :: DiffersAt(a, b, k)
  {
    if a == [] {
      assert b != [] ==> DiffersAt(a, b, 0);
    } else if b != [] {
      if a[0] == b[0] {
        NameLessMeaning(a[1..], b[1..]);
        if k: nat :| DiffersAt(a[1..], b[1..], k) {
          assert a[..k + 1] == [a[0]] + a[1..][..k] && b[..k + 1] == [b[0]] + b[1..][..k];
          assert DiffersAt(a, b, k + 1);
        }
        if k: nat :| DiffersAt(a, b, k) {
          assert k > 0 && a[1..][..k - 1] == a[..k][1..] && b[1..][..k - 1] == b[..k][1..];
          assert DiffersAt(a[1..], b[1..], k - 1);
        }
      } else {
        assert DiffersAt(a, b, 0) <==> a[0] < b[0];
        forall k: nat | DiffersAt(a, b, k)
          ensures k == 0
        {
          if k > 0 {
            SameStart(a, b, k);
          }
        }
      }
    }
  }

  lemma SameStart(a: string, b: string, k: nat)
    requires 0 < k <= |a| && k <= |b| && a[..k] == b[..k]
    ensures a[0] == b[0]
  {
    assert a[0] == a[..k][0] && b[0] == b[..k][0];
  }

  // The names agree up to k, where a ends or has the smaller character.
  ghost predicate DiffersAt(a: string, b: string, k: nat) {
    k <= |a| && k < |b| && a[..k] == b[..k] && (k == |a| || a[k] < b[k])
  }

  lemma {:induction false} NameLessTotal(a: string, b: string)
    ensures a != b ==> NameLess(a, b) || NameLess(b, a)
    ensures !(NameLess(a, b) && NameLess(b, a))
  {
    if a != [] && b != [] && a[0] == b[0] {
      NameLessTotal(a[1..], b[1..]);
      assert a == [a[0]] + a[1..] && b == [b[0]] + b[1..];
    }
  }

  lemma {:induction false} NameLessTransitive(a: string, b: string, c: string)
    requires NameLess(a, b) && NameLess(b, c)
    ensures NameLess(a, c)
  {
    if a != [] && a[0] == b[0] && b[0] == c[0] {
      NameLessTransitive(a[1..], b[1..], c[1..]);
    }
  }

  ghost predicate Increasing(values: seq<real>) {
    forall i, j | 0 <= i < j < |values| :: values[i] < values[j]
  }

  // xs names every element of s once.
  ghost predicate Lists<T(!new)>(xs: seq<T>, s: set<T>) {
    && (forall x :: x in xs <==> x in s)
    && (forall i, j | 0 <= i < j < |xs| :: xs[i] != xs[j])
  }

  method ListSet<T(==,!new)>(s: set<T>) returns (xs: seq<T>)
    ensures Lists(xs, s)
  {
    xs := [];
    var rest := s;
    while rest != {}
      invariant rest <= s && Lists(xs, s - rest)
    {
      var x :| x in rest;
      rest := rest - {x};
      xs := xs + [x];
    }
  }

  method PickAny<T>(s: set<T>) returns (x: T)
    requires s != {}
    ensures x in s
  {
    x :| x in s;
  }

  method Least(s: set<real>) returns (least: real)
    requires s != {}
    ensures least in s && forall v | v in s :: least <= v
  {
    least := PickAny(s);
    var rest := s - {least};
    while rest != {}
      invariant rest <= s && least in s
      invariant forall v | v in s && v !in rest :: least <= v
    {
      var v := PickAny(rest);
      rest := rest - {v};
      if v < least {
        least := v;
      }
    }
  }

  // The set's elements in increasing order.
  method SortedVector(s: set<real>) returns (values: seq<real>)
    ensures Increasing(values) && forall v :: v in values <==> v in s
  {
    values := [];
    var rest := s;
    while rest != {}
      invariant rest <= s && Increasing(values)
      invariant forall v :: v in values <==> v in s && v !in rest
      invariant forall i, w | 0 <= i < |values| && w in rest :: values[i] < w
    {
      var least := Least(rest);
      rest := rest - {least};
      values := values + [least];
    }
  }

  // ----- Counting -----

  ghost predicate Distinct<T>(xs: seq<T>) {
    forall i, j | 0 <= i < j < |xs| :: xs[i] != xs[j]
  }

  function Below(n: nat): (s: set<int>)
    ensures forall x :: x in s <==> 0 <= x < n
    ensures |s| == n
  {
    if n == 0 then {} else Below(n - 1) + {n - 1}
  }

  lemma {:induction false} DistinctSize<T>(xs: seq<T>)
    requires Distinct(xs)
    ensures |set x | x in xs| == |xs|
  {
    if xs != [] {
      var front, last := xs[..|xs| - 1], xs[|xs| - 1];
      DistinctSize(front);
      assert xs == front + [last];
      assert last !in front;
      assert (set x | x in xs) == (set x | x in front) + {last};
    }
  }

  /** Pigeonhole: distinct codes below n are at most n. */
  lemma DistinctBelow(codes: seq<int>, n: nat)
    requires Distinct(codes) && forall c | c in codes :: 0 <= c < n
    ensures |codes| <= n
  {
    DistinctSize(codes);
    SubsetSize((set c | c in codes), Below(n));
  }

  lemma {:induction false} SubsetSize<T>(a: set<T>, b: set<T>)
    requires a <= b
    ensures |a| <= |b|
  {
    if a != {} {
      var x :| x in a;
      SubsetSize(a - {x}, b - {x});
    }
  }
}
