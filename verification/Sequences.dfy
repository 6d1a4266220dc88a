/** Lists without repetition, and the sizes of collections. */
module Sequences {

  ghost function Elements<T>(s: seq<T>): set<T> {
    set x | x in s
  }

  lemma ElementsNone<T>()
    ensures Elements<T>([]) == {}
  {
  }

  lemma ElementsPush<T>(s: seq<T>, x: T)
    ensures Elements(s + [x]) == Elements(s) + {x}
    ensures x !in Elements(s) ==> x !in s && |Elements(s + [x])| == |Elements(s)| + 1
  {
    assert forall y :: y in s + [x] <==> y in s || y == x;
  }

  lemma {:induction false} ElementsSize<T>(s: seq<T>)
    ensures |Elements(s)| <= |s|
  {
    if s == [] {
      ElementsNone<T>();
    } else {
      var t, x := s[..|s| - 1], s[|s| - 1];
      assert s == t + [x];
      ElementsSize(t);
      ElementsPush(t, x);
    }
  }

  function Remove<T(==)>(s: seq<T>, x: T): seq<T> {
    if s == [] then [] else if s[0] == x then s[1..] else [s[0]] + Remove(s[1..], x)
  }

  ghost predicate NoDuplicates<T>(s: seq<T>) {
    forall i, j :: 0 <= i < j < |s| ==> s[i] != s[j]
  }

  /** Removal takes out exactly the one occurrence. */
  lemma {:induction false} RemoveOne<T>(s: seq<T>, x: T)
    requires NoDuplicates(s) && x in s
    ensures var r := Remove(s, x);
            && NoDuplicates(r) && |r| == |s| - 1 && x !in r
            && (forall y <- r :: y in s && y != x) && (forall y <- s :: y != x ==> y in r)
  {
    assert s == [s[0]] + s[1..];
    assert s[0] !in s[1..] && NoDuplicates(s[1..]);
    if s[0] != x {
      assert x in s[1..];
      RemoveOne(s[1..], x);
      Prepend(s[0], Remove(s[1..], x));
    }
  }

  lemma Prepend<T>(x: T, s: seq<T>)
    requires NoDuplicates(s) && x !in s
    ensures NoDuplicates([x] + s) && forall y :: y in [x] + s <==> y == x || y in s
  {
  }

  lemma NoneTwice<T>()
    ensures NoDuplicates<T>([])
  {
  }

  lemma Append<T>(s: seq<T>, x: T)
    requires NoDuplicates(s) && x !in s
    ensures NoDuplicates(s + [x])
  {
  }

  lemma RemoveCard<K, V>(m: map<K, V>, k: K)
    requires k in m
    ensures |m - {k}| == |m| - 1
  {
    assert m == (m - {k})[k := m[k]];
  }
}
