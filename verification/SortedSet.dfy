/** A Redis sorted set: members with scores, listed by score and, between equal
    scores, by the byte order of the member. Members here are printed job ids. */
module SortedSet {
  import opened Text

  datatype Entry = Entry(member: int, score: real)

  type ZSet = seq<Entry>

  predicate Less(a: Entry, b: Entry) {
    a.score < b.score || (a.score == b.score && LexLess(Itoa(a.member), Itoa(b.member)))
  }

  /** Listed in order, each member once. */
  ghost predicate Valid(z: ZSet) {
    (forall i, j :: 0 <= i < j < |z| ==> Less(z[i], z[j])) && UniqueMembers(z)
  }

  ghost predicate DistinctScores(z: ZSet) {
    forall i, j :: 0 <= i < j < |z| ==> z[i].score != z[j].score
  }

  ghost predicate Increasing(z: ZSet) {
    forall i, j :: 0 <= i < j < |z| ==> z[i].score < z[j].score
  }

  ghost predicate UniqueMembers(z: ZSet) {
    forall i, j :: 0 <= i < j < |z| ==> z[i].member != z[j].member
  }

  function Members(z: ZSet): (ms: seq<int>)
    ensures |ms| == |z| && forall i :: 0 <= i < |z| ==> ms[i] == z[i].member
  {
    seq(|z|, i requires 0 <= i < |z| => z[i].member)
  }

  /** ZRANK. */
  function Rank(z: ZSet, m: int): (r: Option<nat>)
    ensures r.Some? ==> r.value < |z| && z[r.value].member == m
    ensures r.None? ==> forall i :: 0 <= i < |z| ==> z[i].member != m
  {
    if z == [] then None
    else if z[0].member == m then Some(0)
    else
      match Rank(z[1..], m)
      case Some(r) => assert z[1..][r] == z[r + 1]; Some(r + 1)
      case None => assert forall i :: 1 <= i < |z| ==> z[i] == z[1..][i - 1]; None
  }

  function Drop(z: ZSet, r: nat): ZSet
    requires r < |z|
  {
    z[..r] + z[r + 1..]
  }

  /** ZREM. */
  function Remove(z: ZSet, m: int): ZSet {
    match Rank(z, m)
    case Some(r) => Drop(z, r)
    case None => z
  }

  /** The place a new entry takes: behind every entry that is less. */
  function Insert(z: ZSet, e: Entry): ZSet {
    if z == [] || Less(e, z[0]) then [e] + z else [z[0]] + Insert(z[1..], e)
  }

  /** ZADD: sets the score of a member, new or not. */
  function Add(z: ZSet, m: int, score: real): ZSet {
    Insert(Remove(z, m), Entry(m, score))
  }

  lemma LessTotal(a: Entry, b: Entry)
    ensures a.member != b.member ==> Less(a, b) || Less(b, a)
    ensures !(Less(a, b) && Less(b, a))
  {
    LexTotal(Itoa(a.member), Itoa(b.member));
    if Itoa(a.member) == Itoa(b.member) {
      ItoaInjective(a.member, b.member);
    }
  }

  lemma LessTransitive(a: Entry, b: Entry, c: Entry)
    requires Less(a, b) && Less(b, c)
    ensures Less(a, c)
  {
    if a.score == b.score == c.score {
      LexTransitive(Itoa(a.member), Itoa(b.member), Itoa(c.member));
    }
  }

  /** An entry that belongs at place `k` is put there. */
  lemma {:induction false} InsertAt(z: ZSet, e: Entry, k: nat)
    requires k <= |z|
    requires forall i :: 0 <= i < k ==> !Less(e, z[i])
    requires k < |z| ==> Less(e, z[k])
    ensures Insert(z, e) == z[..k] + [e] + z[k..]
  {
    if k == 0 {
      assert z[..0] + [e] + z[0..] == [e] + z;
    } else {
      InsertAt(z[1..], e, k - 1);
      assert z[..k] + [e] + z[k..] == [z[0]] + (z[1..][..k - 1] + [e] + z[1..][k - 1..]);
    }
  }

  /** With distinct scores the order is that of the scores. */
  lemma ScoresIncrease(z: ZSet)
    requires Valid(z) && DistinctScores(z)
    ensures Increasing(z)
  {
    forall i, j | 0 <= i < j < |z| ensures z[i].score < z[j].score { assert Less(z[i], z[j]); }
  }

  lemma {:induction false} InsertAtScore(z: ZSet, e: Entry, k: nat)
    requires k <= |z|
    requires forall i :: 0 <= i < k ==> z[i].score < e.score
    requires k < |z| ==> e.score < z[k].score
    ensures Insert(z, e) == z[..k] + [e] + z[k..]
  {
    if k == 0 {
      assert z[..0] + [e] + z[0..] == [e] + z;
    } else {
      InsertAtScore(z[1..], e, k - 1);
      assert z[..k] + [e] + z[k..] == [z[0]] + (z[1..][..k - 1] + [e] + z[1..][k - 1..]);
    }
  }

  /** In a valid set every new member has exactly one place. */
  lemma {:induction false} PlaceOf(z: ZSet, e: Entry) returns (k: nat)
    requires Valid(z) && forall i :: 0 <= i < |z| ==> z[i].member != e.member
    ensures k <= |z|
    ensures forall i :: 0 <= i < k ==> Less(z[i], e)
    ensures forall i :: k <= i < |z| ==> Less(e, z[i])
    ensures Insert(z, e) == z[..k] + [e] + z[k..]
  {
    k := 0;
    while k < |z| && !Less(e, z[k])
      invariant k <= |z|
      invariant forall i :: 0 <= i < k ==> !Less(e, z[i])
      invariant forall i :: 0 <= i < k ==> Less(z[i], e)
    {
      LessTotal(z[k], e);
      k := k + 1;
    }
    forall i | k <= i < |z| ensures Less(e, z[i]) {
      if i > k { LessTransitive(e, z[k], z[i]); }
    }
    InsertAt(z, e, k);
  }

  lemma RemoveContents(z: ZSet, m: int)
    requires UniqueMembers(z)
    ensures forall e :: e in Remove(z, m) <==> e in z && e.member != m
  {
    match Rank(z, m)
    case None =>
    case Some(r) =>
      var z' := z[..r] + z[r + 1..];
      forall e | e in z && e.member != m ensures e in z' {
        var i :| 0 <= i < |z| && z[i] == e;
        assert z'[if i < r then i else i - 1] == e;
      }
      forall e | e in z' ensures e in z && e.member != m {
        var i :| 0 <= i < |z'| && z'[i] == e;
        assert z[if i < r then i else i + 1] == e;
      }
  }

  lemma DropValid(z: ZSet, r: nat)
    requires Valid(z) && r < |z|
    ensures Valid(Drop(z, r))
    ensures DistinctScores(z) ==> DistinctScores(Drop(z, r))
    ensures forall i :: 0 <= i < |Drop(z, r)| ==> Drop(z, r)[i].member != z[r].member
  {
    var z' := Drop(z, r);
    assert forall i :: 0 <= i < |z'| ==> z'[i] == z[if i < r then i else i + 1];
  }

  lemma RemoveValid(z: ZSet, m: int)
    requires Valid(z)
    ensures Valid(Remove(z, m))
    ensures DistinctScores(z) ==> DistinctScores(Remove(z, m))
    ensures forall i :: 0 <= i < |Remove(z, m)| ==> Remove(z, m)[i].member != m
  {
    var r := Rank(z, m);
    if r.Some? {
      DropValid(z, r.value);
    }
  }

  lemma InsertContents(z: ZSet, e: Entry, k: nat)
    requires k <= |z|
    ensures forall x :: x in z[..k] + [e] + z[k..] <==> x == e || x in z
  {
    var r := z[..k] + [e] + z[k..];
    assert r[k] == e;
    forall x | x in z ensures x in r {
      var i :| 0 <= i < |z| && z[i] == x;
      assert r[if i < k then i else i + 1] == x;
    }
  }

  lemma InsertValid(z: ZSet, e: Entry, k: nat)
    requires Valid(z) && k <= |z|
    requires forall i :: 0 <= i < |z| ==> z[i].member != e.member
    requires forall i :: 0 <= i < k ==> Less(z[i], e)
    requires forall i :: k <= i < |z| ==> Less(e, z[i])
    ensures Valid(z[..k] + [e] + z[k..])
  {
    var r := z[..k] + [e] + z[k..];
    forall i, j | 0 <= i < j < |r| ensures Less(r[i], r[j]) && r[i].member != r[j].member {
      assert r[i] == if i < k then z[i] else if i == k then e else z[i - 1];
      assert r[j] == if j < k then z[j] else if j == k then e else z[j - 1];
    }
  }

  /** ZADD keeps the set in order and changes one member's score and nothing else. */
  lemma AddValid(z: ZSet, m: int, score: real)
    requires Valid(z)
    ensures Valid(Add(z, m, score))
    ensures forall e :: e in Add(z, m, score) <==> e == Entry(m, score) || (e in z && e.member != m)
  {
    RemoveValid(z, m);
    RemoveContents(z, m);
    var z', e := Remove(z, m), Entry(m, score);
    var k := PlaceOf(z', e);
    InsertValid(z', e, k);
    InsertContents(z', e, k);
  }

  /** The listing is determined by what is in the set, not by how it got there. */
  lemma {:induction false} ListingUnique(a: ZSet, b: ZSet)
    requires Valid(a) && Valid(b)
    requires forall e :: e in a <==> e in b
    ensures a == b
  {
    if b != [] { assert b[0] in a; }
    if a != [] {
      assert a[0] in b;
      if a[0] != b[0] {
        var i :| 0 <= i < |a| && a[i] == b[0];
        var j :| 0 <= j < |b| && b[j] == a[0];
        LessTotal(a[0], b[0]);
      }
      forall e ensures e in a[1..] <==> e in b[1..] {
        if e in a[1..] {
          var i :| 1 <= i < |a| && a[i] == e;
          assert e != a[0];
          assert e in b;
          var j :| 0 <= j < |b| && b[j] == e;
          assert b[1..][j - 1] == e;
        }
        if e in b[1..] {
          var i :| 1 <= i < |b| && b[i] == e;
          assert e != b[0];
          assert e in a;
          var j :| 0 <= j < |a| && a[j] == e;
          assert a[1..][j - 1] == e;
        }
      }
      ListingUnique(a[1..], b[1..]);
      assert a == [a[0]] + a[1..];
      assert b == [b[0]] + b[1..];
    }
  }

  lemma RankValid(z: ZSet, i: nat)
    requires Valid(z) && i < |z|
    ensures Rank(z, z[i].member) == Some(i)
  {
  }
}
