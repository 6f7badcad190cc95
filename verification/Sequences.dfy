/** Filtering and folding lists: what does and what does not depend on their order. */
module Sequences {
  import opened Graphs

  function Filter<T(!new)>(s: seq<T>, keep: T -> bool): (r: seq<T>)
    ensures forall x :: x in r <==> x in s && keep(x)
    ensures |r| <= |s|
  {
    if s == [] then [] else
      var rest := Filter(s[..|s| - 1], keep);
      if keep(s[|s| - 1]) then rest + [s[|s| - 1]] else rest
  }

  lemma FilterSnoc<T(!new)>(s: seq<T>, x: T, keep: T -> bool)
    ensures Filter(s + [x], keep) == Filter(s, keep) + (if keep(x) then [x] else [])
  {
    assert (s + [x])[..|s|] == s;
  }

  lemma {:induction false} FilterNoDup<T(!new)>(s: seq<T>, keep: T -> bool)
    requires NoDup(s)
    ensures NoDup(Filter(s, keep))
  {
    if s != [] {
      NoDupTake(s, |s| - 1);
      FilterNoDup(s[..|s| - 1], keep);
    }
  }

  lemma {:induction false} FilterCount<T(!new)>(s: seq<T>, keep: T -> bool, x: T)
    ensures multiset(Filter(s, keep))[x] == if keep(x) then multiset(s)[x] else 0
  {
    if s != [] {
      assert s == s[..|s| - 1] + [s[|s| - 1]];
      FilterCount(s[..|s| - 1], keep, x);
    }
  }

  lemma FilterPermuted<T(!new)>(s: seq<T>, t: seq<T>, keep: T -> bool)
    requires multiset(s) == multiset(t)
    ensures multiset(Filter(s, keep)) == multiset(Filter(t, keep))
  {
    forall x ensures multiset(Filter(s, keep))[x] == multiset(Filter(t, keep))[x] {
      FilterCount(s, keep, x);
      FilterCount(t, keep, x);
    }
  }

  lemma SameMembers<T>(s: seq<T>, t: seq<T>)
    requires multiset(s) == multiset(t)
    ensures |s| == |t| && Elems(s) == Elems(t)
  {
    assert |multiset(s)| == |s| && |multiset(t)| == |t|;
    forall x ensures x in s <==> x in t {
      assert x in s <==> x in multiset(s);
      assert x in t <==> x in multiset(t);
    }
  }

  /** `part` is what remains of `s` after leaving out members: the order is kept. */
  predicate Subsequence<T(==)>(part: seq<T>, s: seq<T>) {
    if part == [] then true
    else if s == [] then false
    else if part[|part| - 1] == s[|s| - 1] then Subsequence(part[..|part| - 1], s[..|s| - 1])
    else Subsequence(part, s[..|s| - 1])
  }

  lemma {:induction false} KeptInOrder<T(!new)>(s: seq<T>, keep: T -> bool)
    ensures Subsequence(Filter(s, keep), s)
  {
    if s != [] {
      var n := |s| - 1;
      KeptInOrder(s[..n], keep);
      var rest := Filter(s[..n], keep);
      if keep(s[n]) {
        assert (rest + [s[n]])[..|rest|] == rest;
      } else if rest != [] {
        assert rest[|rest| - 1] in rest;
      }
    }
  }

  // ---------------------------------------------------------------- folding the values of a map

  predicate CommutesAt(op: (real, real) -> real, a: real, b: real, c: real) {
    op(op(a, b), c) == op(op(a, c), b)
  }

  /** Folding can take its arguments in any order. */
  ghost predicate Commutes(op: (real, real) -> real) {
    forall a, b, c :: CommutesAt(op, a, b, c)
  }

  /** The values of `m` folded in the order of `keys`. */
  function Fold<K(==)>(keys: seq<K>, m: map<K, real>, op: (real, real) -> real, unit: real): real {
    if keys == [] then unit else
      var k := keys[|keys| - 1];
      var rest := Fold(keys[..|keys| - 1], m, op, unit);
      if k in m then op(rest, m[k]) else rest
  }

  function Without<T>(s: seq<T>, i: nat): (r: seq<T>)
    requires i < |s|
    ensures |r| == |s| - 1
  {
    s[..i] + s[i + 1..]
  }

  lemma {:induction false} FoldExtract<K>(keys: seq<K>, m: map<K, real>, op: (real, real) -> real, unit: real, i: nat)
    requires Commutes(op) && i < |keys| && Elems(keys) <= m.Keys
    ensures Fold(keys, m, op, unit) == op(Fold(Without(keys, i), m, op, unit), m[keys[i]])
  {
    var n := |keys| - 1;
    assert keys[n] in Elems(keys) && keys[i] in Elems(keys);
    if i == n {
      assert Without(keys, i) == keys[..n];
    } else {
      assert Elems(keys[..n]) <= Elems(keys);
      FoldExtract(keys[..n], m, op, unit, i);
      assert Without(keys, i)[..n - 1] == Without(keys[..n], i);
      assert Without(keys, i)[n - 1] == keys[n];
      var rest := Fold(Without(keys[..n], i), m, op, unit);
      assert CommutesAt(op, rest, m[keys[i]], m[keys[n]]);
    }
  }

  lemma WithoutElems<K>(s: seq<K>, i: nat)
    requires NoDup(s) && i < |s|
    ensures NoDup(Without(s, i)) && Elems(Without(s, i)) == Elems(s) - {s[i]}
  {
    assert s == s[..i] + [s[i]] + s[i + 1..];
  }

  lemma SomeElems<K>(s: seq<K>)
    requires s != []
    ensures Elems(s) != {}
  {
    assert s[0] in Elems(s);
  }

  /** The order in which distinct keys are visited does not matter. */
  lemma {:induction false} FoldAnyOrder<K>(keys: seq<K>, other: seq<K>, m: map<K, real>, op: (real, real) -> real, unit: real)
    requires Commutes(op) && NoDup(keys) && NoDup(other) && Elems(keys) == Elems(other) <= m.Keys
    ensures Fold(keys, m, op, unit) == Fold(other, m, op, unit)
  {
    if keys == [] {
      if other != [] {
        SomeElems(other);
      }
    } else {
      var n := |keys| - 1;
      assert keys[n] in Elems(other);
      var i :| 0 <= i < |other| && other[i] == keys[n];
      WithoutElems(keys, n);
      WithoutElems(other, i);
      assert Without(keys, n) == keys[..n];
      FoldAnyOrder(keys[..n], Without(other, i), m, op, unit);
      FoldExtract(other, m, op, unit, i);
    }
  }

  function Add(a: real, b: real): real {
    a + b
  }

  lemma AddCommutes()
    ensures Commutes(Add)
  {
  }

  /** Larger values give a larger sum. */
  lemma {:induction false} SumMonotone<K>(keys: seq<K>, m: map<K, real>, larger: map<K, real>)
    requires forall k :: k in keys ==> k in m && k in larger && m[k] <= larger[k]
    ensures Fold(keys, m, Add, 0.0) <= Fold(keys, larger, Add, 0.0)
  {
    if keys != [] {
      var n := |keys| - 1;
      assert keys[n] in keys && forall k :: k in keys[..n] ==> k in keys;
      SumMonotone(keys[..n], m, larger);
    }
  }

  lemma {:induction false} SumConcat<K>(keys: seq<K>, more: seq<K>, m: map<K, real>)
    ensures Fold(keys + more, m, Add, 0.0) == Fold(keys, m, Add, 0.0) + Fold(more, m, Add, 0.0)
  {
    if more == [] {
      assert keys + more == keys;
    } else {
      var n := |more| - 1;
      assert (keys + more)[..|keys| + n] == keys + more[..n];
      SumConcat(keys, more[..n], m);
    }
  }

  lemma {:induction false} FilterConcat<T(!new)>(s: seq<T>, t: seq<T>, keep: T -> bool)
    ensures Filter(s + t, keep) == Filter(s, keep) + Filter(t, keep)
  {
    if t == [] {
      assert s + t == s;
    } else {
      var n := |t| - 1;
      assert (s + t)[..|s| + n] == s + t[..n];
      FilterConcat(s, t[..n], keep);
    }
  }

  lemma {:induction false} FilterAll<T(!new)>(s: seq<T>, keep: T -> bool)
    requires forall x :: x in s ==> keep(x)
    ensures Filter(s, keep) == s
  {
    if s != [] {
      FilterAll(s[..|s| - 1], keep);
    }
  }

  lemma {:induction false} CountOnce<T>(s: seq<T>, x: T)
    requires NoDup(s)
    ensures multiset(s)[x] == if x in s then 1 else 0
  {
    if s != [] {
      var n := |s| - 1;
      NoDupTake(s, n);
      assert s == s[..n] + [s[n]];
      CountOnce(s[..n], x);
    }
  }

  lemma SameOnce<T>(s: seq<T>, t: seq<T>)
    requires NoDup(s) && NoDup(t) && forall x :: x in s <==> x in t
    ensures multiset(s) == multiset(t)
  {
    forall x ensures multiset(s)[x] == multiset(t)[x] {
      CountOnce(s, x);
      CountOnce(t, x);
    }
  }

  lemma {:induction false} FilterAgrees<T(!new)>(s: seq<T>, f: T -> bool, g: T -> bool)
    requires forall x :: x in s ==> f(x) == g(x)
    ensures Filter(s, f) == Filter(s, g)
  {
    if s != [] {
      assert s[|s| - 1] in s;
      FilterAgrees(s[..|s| - 1], f, g);
    }
  }
}
