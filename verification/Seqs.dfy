/** Facts about sequences shared by the other modules. */
module Seqs {

  /** `s` without its first occurrence of `x`: the effect of the splice loops in the source. */
  function Without<T(==)>(s: seq<T>, x: T): (r: seq<T>)
    ensures multiset(r) == multiset(s) - multiset{x}
    ensures |r| == if x in s then |s| - 1 else |s|
  {
    if s == [] then []
    else
      assert s == [s[0]] + s[1..];
      if s[0] == x then s[1..] else [s[0]] + Without(s[1..], x)
  }

  /** The splice at index `i`, where `i` is the first occurrence of `x`. */
  lemma {:induction false} WithoutIsSplice<T>(s: seq<T>, x: T, i: nat)
    requires i < |s| && s[i] == x && x !in s[..i]
    ensures Without(s, x) == s[..i] + s[i + 1..]
  {
    if i > 0 {
      var t, u, v := s[1..], s[1..i], s[i + 1..];
      assert s[..i] == [s[0]] + u;
      assert t[..i - 1] == u && t[i..] == v;
      WithoutIsSplice(t, x, i - 1);
      Assoc([s[0]], u, v);
    }
  }

  lemma {:induction false} WithoutAbsent<T>(s: seq<T>, x: T)
    requires x !in s
    ensures Without(s, x) == s
  {
    if s != [] {
      WithoutAbsent(s[1..], x);
    }
  }

  ghost predicate NoDup<T(!new)>(s: seq<T>) {
    forall x :: x in s ==> multiset(s)[x] == 1
  }

  lemma NoDupAppend<T(!new)>(s: seq<T>, x: T)
    requires NoDup(s) && x !in s
    ensures NoDup(s + [x])
  {
    assert multiset(s + [x]) == multiset(s) + multiset{x};
  }

  lemma NoDupWithout<T(!new)>(s: seq<T>, x: T)
    requires NoDup(s)
    ensures NoDup(Without(s, x))
    ensures x !in Without(s, x)
  {
    forall y | y in Without(s, x) ensures multiset(Without(s, x))[y] == 1 && y != x {
      assert y in multiset(Without(s, x));
    }
  }

  lemma WithoutOthers<T>(s: seq<T>, x: T, y: T)
    requires x != y
    ensures y in Without(s, x) <==> y in s
  {
    assert y in s <==> y in multiset(s);
    assert y in Without(s, x) <==> y in multiset(Without(s, x));
  }

  lemma Assoc<T>(a: seq<T>, b: seq<T>, c: seq<T>)
    ensures a + (b + c) == (a + b) + c
  {
  }

  /** The elements of `s` kept by `keep`, in order. */
  function Filter<T>(s: seq<T>, keep: T -> bool): seq<T> {
    if s == [] then []
    else (if keep(s[0]) then [s[0]] else []) + Filter(s[1..], keep)
  }

  lemma {:induction false} FilterAppend<T>(s: seq<T>, t: seq<T>, keep: T -> bool)
    ensures Filter(s + t, keep) == Filter(s, keep) + Filter(t, keep)
  {
    if s == [] {
      assert s + t == t;
    } else {
      assert (s + t)[1..] == s[1..] + t;
      FilterAppend(s[1..], t, keep);
      Assoc(if keep(s[0]) then [s[0]] else [], Filter(s[1..], keep), Filter(t, keep));
    }
  }
}
