/** Generic facts about sequences and multisets used by the feature
    extractor. */
module Sequences {

  predicate Distinct<T(==)>(s: seq<T>) { forall i, j :: 0 <= i < j < |s| ==> s[i] != s[j] }

  /** Apply f to every element and concatenate the results in order. */
  function FlatMap<T, U>(f: T -> seq<U>, s: seq<T>): seq<U>
  {
    if s == [] then [] else f(s[0]) + FlatMap(f, s[1..])
  }

  lemma {:induction false} FlatMapAppend<T, U>(f: T -> seq<U>, a: seq<T>, b: seq<T>)
    ensures FlatMap(f, a + b) == FlatMap(f, a) + FlatMap(f, b)
  {
    if a != [] {
      assert (a + b)[0] == a[0];
      assert (a + b)[1..] == a[1..] + b;
      FlatMapAppend(f, a[1..], b);
    } else {
      assert a + b == b;
    }
  }

  /** x occurs in the image under f of some element of s. */
  ghost predicate InSome<T, U>(s: seq<T>, f: T -> seq<U>, x: U) {
    exists i :: 0 <= i < |s| && x in f(s[i])
  }

  /** Splitting off the last element of s splits the existential. */
  lemma InSomeLast<T, U>(s: seq<T>, f: T -> seq<U>, x: U)
    requires s != []
    ensures InSome(s, f, x) <==> InSome(s[..|s| - 1], f, x) || x in f(s[|s| - 1])
  {
    var n := |s| - 1;
    if x in f(s[n]) {
      assert InSome(s, f, x);
    } else if InSome(s[..n], f, x) {
      var i :| 0 <= i < n && x in f(s[..n][i]);
      assert s[..n][i] == s[i];
      assert InSome(s, f, x);
    } else {
      forall i | 0 <= i < |s| ensures x !in f(s[i]) {
        if i < n { assert s[..n][i] == s[i]; }
      }
    }
  }

  lemma MultisetMiddle<T>(a: seq<T>, b: seq<T>, c: seq<T>)
    ensures multiset(a + (b + c)) == multiset(a + c) + multiset(b)
  {
    assert multiset(a + (b + c)) == multiset(a) + multiset(b) + multiset(c);
    assert multiset(a + c) == multiset(a) + multiset(c);
  }

  /** Taking the same element out of two permutations of each other leaves
      two permutations of each other. */
  lemma RemoveMatching<T>(s: seq<T>, t: seq<T>, i: nat)
    requires multiset(s) == multiset(t) && s != [] && i < |t| && t[i] == s[0]
    ensures multiset(s[1..]) == multiset(t[..i] + t[i + 1..])
  {
    var t' := t[..i] + t[i + 1..];
    assert s == [s[0]] + s[1..];
    assert multiset(s) == multiset(s[1..]) + multiset{s[0]};
    assert t == t[..i] + ([t[i]] + t[i + 1..]);
    MultisetMiddle(t[..i], [t[i]], t[i + 1..]);
    assert multiset(s[1..]) + multiset{s[0]} == multiset(t') + multiset{s[0]};
    forall x ensures multiset(s[1..])[x] == multiset(t')[x] {
      assert (multiset(s[1..]) + multiset{s[0]})[x] == (multiset(t') + multiset{s[0]})[x];
    }
  }

  /** The result of f at position i, taken out of the concatenation. */
  lemma FlatMapWithout<T, U>(f: T -> seq<U>, t: seq<T>, i: nat)
    requires i < |t|
    ensures multiset(FlatMap(f, t)) == multiset(FlatMap(f, t[..i] + t[i + 1..])) + multiset(f(t[i]))
  {
    var left, right := t[..i], t[i + 1..];
    assert t == left + ([t[i]] + right);
    FlatMapAppend(f, left, [t[i]] + right);
    FlatMapAppend(f, [t[i]], right);
    FlatMapAppend(f, left, right);
    assert [t[i]][1..] == [];
    assert FlatMap(f, [t[i]]) == f(t[i]) + [];
    MultisetMiddle(FlatMap(f, left), f(t[i]), FlatMap(f, right));
  }

  /** Reordering the input reorders the output: as multisets they agree. */
  lemma {:induction false} FlatMapPermutation<T, U>(f: T -> seq<U>, s: seq<T>, t: seq<T>)
    requires multiset(s) == multiset(t)
    ensures multiset(FlatMap(f, s)) == multiset(FlatMap(f, t))
  {
    if s != [] {
      assert s[0] in multiset(t);
      var i :| 0 <= i < |t| && t[i] == s[0];
      RemoveMatching(s, t, i);
      FlatMapPermutation(f, s[1..], t[..i] + t[i + 1..]);
      FlatMapWithout(f, t, i);
    }
  }

  /** The position of the first occurrence of x in s. */
  function FirstIndex<T(==)>(s: seq<T>, x: T): (i: nat)
    requires x in s
    ensures i < |s| && s[i] == x && x !in s[..i]
  {
    if s[0] == x then 0 else FirstIndex(s[1..], x) + 1
  }

  /** Extending a sequence does not move the first occurrence of an element
      it already held. */
  lemma FirstIndexExtend<T>(s: seq<T>, t: seq<T>, x: T)
    requires x in s
    ensures FirstIndex(s + t, x) == FirstIndex(s, x)
  {
    var i := FirstIndex(s, x);
    var j := FirstIndex(s + t, x);
    assert (s + t)[i] == x;
  }
}
