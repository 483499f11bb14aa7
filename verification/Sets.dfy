/** Lists without repeats, and picking an element of a non-empty set or map. */
module Sets {
  ghost predicate NoDup<T>(s: seq<T>) {
    forall i, j :: 0 <= i < j < |s| ==> s[i] != s[j]
  }

  function IdSet(ids: seq<int>): set<int> {
    set c | c in ids
  }

  lemma {:induction false} IdSetSize(ids: seq<int>)
    ensures |IdSet(ids)| <= |ids|
    ensures |IdSet(ids)| == |ids| <==> NoDup(ids)
  {
    if ids != [] {
      var last, rest := ids[|ids| - 1], ids[..|ids| - 1];
      IdSetSize(rest);
      if last in rest {
        assert IdSet(ids) == IdSet(rest);
        var i :| 0 <= i < |rest| && rest[i] == last;
        assert !NoDup(ids);
      } else {
        assert IdSet(ids) == IdSet(rest) + {last};
        assert NoDup(ids) <==> NoDup(rest);
      }
    }
  }

  lemma SubsetOfSameSize(a: set<int>, b: set<int>)
    requires a <= b
    ensures |a| <= |b|
    ensures |a| == |b| <==> a == b
  {
    assert b == a + (b - a);
    assert |b| == |a| + |b - a|;
    if b - a == {} { assert a == b; }
  }

  lemma {:induction false} CountOnce<T>(s: seq<T>, x: T)
    requires NoDup(s)
    ensures multiset(s)[x] <= 1
    ensures x !in s ==> multiset(s)[x] == 0
  {
    if s != [] {
      var rest := s[..|s| - 1];
      CountOnce(rest, x);
      assert s == rest + [s[|s| - 1]];
    }
  }

  /** A rearrangement of a list without repeats has none either. */
  lemma {:induction false} NoDupPermuted<T>(a: seq<T>, b: seq<T>)
    requires NoDup(a) && multiset(a) == multiset(b)
    ensures NoDup(b)
  {
    forall i, j | 0 <= i < j < |b| ensures b[i] != b[j] {
      CountOnce(a, b[i]);
      assert b == b[..i] + [b[i]] + b[i + 1..j] + [b[j]] + b[j + 1..];
      assert multiset(b)
          == multiset(b[..i]) + multiset{b[i]} + multiset(b[i + 1..j]) + multiset{b[j]} + multiset(b[j + 1..]);
    }
  }

  lemma SomeElement(s: set<int>)
    ensures s == {} || exists x :: x in s
  {
    if forall x :: x !in s { assert s == {}; }
  }

  lemma SomeKey<T>(m: map<int, T>)
    ensures m == map[] || exists x :: x in m
  {
    if forall x :: x !in m { assert m == map[]; }
  }
}
