/** Cutting a byte stream at character boundaries, chunk by chunk. */
module Utf8 {

  newtype byte = b: int | 0 <= b < 0x100

  // ------------------------------------------------------------ the byte tests

  // The program masks the top bits of a byte. The top k bits are the quotient by
  // 2^(8-k), which is how they are compared here.

  /** `b & 0x80 == 0`: one byte, one character. */
  predicate IsAscii(b: byte) { b / 128 == 0 }

  /** `b & 0xC0 == 0xC0`: the first byte of a longer character. */
  predicate IsLead(b: byte) { b / 64 == 3 }

  predicate IsTail(b: byte) { !IsAscii(b) && !IsLead(b) }

  /** How many bytes the character that `b` starts should have; 0 for an invalid lead. */
  function Needed(b: byte): (n: nat)
    ensures n in {0, 2, 3, 4}
  {
    if b / 32 == 6 then 2         // b & 0xE0 == 0xC0
    else if b / 16 == 14 then 3   // b & 0xF0 == 0xE0
    else if b / 8 == 30 then 4    // b & 0xF8 == 0xF0
    else 0
  }

  // ---------------------------------------------------------------- the cut

  /** The last `k` bytes are the start of a character that needs more. */
  predicate Unfinished(data: seq<byte>, k: nat) {
    && 1 <= k <= 3 && k <= |data|
    && IsLead(data[|data| - k]) && k < Needed(data[|data| - k])
    && forall i :: |data| - k < i < |data| ==> IsTail(data[i])
  }

  /** How many bytes at the end are held back: an unfinished character, or nothing. */
  function HeldBack(data: seq<byte>): (k: nat)
    ensures k <= |data| && k <= 3
    ensures k > 0 ==> Unfinished(data, k)
    ensures k == 0 ==> forall j :: !Unfinished(data, j)
  {
    if Unfinished(data, 1) then 1
    else if Unfinished(data, 2) then 2
    else if Unfinished(data, 3) then 3
    else 0
  }

  lemma ShorterExcludes(data: seq<byte>, j: nat, k: nat)
    requires Unfinished(data, j) && j < k
    ensures !Unfinished(data, k)
  {
    assert !IsTail(data[|data| - j]);
  }

  lemma HeldBackIs(data: seq<byte>, k: nat)
    ensures Unfinished(data, k) ==> HeldBack(data) == k
  {
    var h := HeldBack(data);
    if h > 0 && h < k { ShorterExcludes(data, h, k); }
  }

  /** The backward scan of Write: at most three bytes from the end, stopping at the
      first ASCII or lead byte. */
  method FindCut(data: seq<byte>) returns (cut: nat)
    ensures cut == |data| - HeldBack(data)
  {
    var n := |data|;
    cut := n;
    var i := 0;
    while i < 3 && i < n
      invariant 0 <= i <= 3 && i <= n && cut == n
      invariant forall k :: n - i <= k < n ==> IsTail(data[k])
    {
      var b := data[n - 1 - i];
      if b / 128 == 0 {
        ScanStops(data, i);
        break;
      }
      if b / 64 == 3 {
        var req := 0;
        if b / 32 == 6 {
          req := 2;
        } else if b / 16 == 14 {
          req := 3;
        } else if b / 8 == 30 {
          req := 4;
        }
        ScanStops(data, i);
        HeldBackIs(data, i + 1);
        if i + 1 < req {
          cut := n - 1 - i;
        }
        break;
      }
      i := i + 1;
    }
    if i == 3 || i == n {
      AllTails(data, i);
    }
  }

  lemma TailsStartNothing(data: seq<byte>, i: nat)
    requires i <= |data| && forall j :: |data| - i <= j < |data| ==> IsTail(data[j])
    ensures forall k: nat :: k <= i ==> !Unfinished(data, k)
  {
    forall k: nat | k <= i ensures !Unfinished(data, k) {
      assert k == 0 || IsTail(data[|data| - k]);
    }
  }

  /** Where the scan meets a byte that is no tail, only that byte can start an
      unfinished character. */
  lemma ScanStops(data: seq<byte>, i: nat)
    requires i < |data| && !IsTail(data[|data| - 1 - i])
    requires forall j :: |data| - i <= j < |data| ==> IsTail(data[j])
    ensures HeldBack(data) == 0 || HeldBack(data) == i + 1
  {
    TailsStartNothing(data, i);
  }

  lemma AllTails(data: seq<byte>, i: nat)
    requires i <= |data| && (i == 3 || i == |data|)
    requires forall j :: |data| - i <= j < |data| ==> IsTail(data[j])
    ensures HeldBack(data) == 0
  {
    TailsStartNothing(data, i);
  }

  // ------------------------------------------------------- a sequence of writes

  function Remainder(data: seq<byte>): seq<byte> { data[|data| - HeldBack(data)..] }

  function Emitted(data: seq<byte>): seq<byte> { data[..|data| - HeldBack(data)] }

  function Concat(parts: seq<seq<byte>>): seq<byte> {
    if parts == [] then [] else Concat(parts[..|parts| - 1]) + parts[|parts| - 1]
  }

  /** What is held back after these writes, and what each write emitted. */
  function HeldAfter(writes: seq<seq<byte>>): seq<byte> {
    if writes == [] then [] else Remainder(HeldAfter(writes[..|writes| - 1]) + writes[|writes| - 1])
  }

  function Chunks(writes: seq<seq<byte>>): (chunks: seq<seq<byte>>)
    ensures |chunks| == |writes|
  {
    if writes == [] then []
    else
      var before := writes[..|writes| - 1];
      Chunks(before) + [Emitted(HeldAfter(before) + writes[|writes| - 1])]
  }

  /** A held-back tail does not change when what was before it is forgotten. */
  lemma SuffixUnfinished(x: seq<byte>, y: seq<byte>, k: nat)
    requires k <= |y|
    ensures Unfinished(x + y, k) <==> Unfinished(y, k)
  {
    var data := x + y;
    if 1 <= k {
      assert data[|data| - k] == y[|y| - k];
      assert forall i :: 0 <= i < |y| ==> data[|x| + i] == y[i];
      if Unfinished(y, k) {
        forall i | |data| - k < i < |data| ensures IsTail(data[i]) { assert data[i] == y[i - |x|]; }
      }
      if Unfinished(data, k) {
        forall i | |y| - k < i < |y| ensures IsTail(y[i]) { assert y[i] == data[|x| + i]; }
      }
    }
  }

  /** An unfinished character that begins before `p` is the one held back before `p`. */
  lemma NotAcross(x: seq<byte>, p: seq<byte>, k: nat)
    ensures Unfinished(x + p, k) && k > |p| ==> k == HeldBack(x) + |p|
  {
    var data := x + p;
    if Unfinished(data, k) && k > |p| {
      var j := k - |p|;
      assert data[|data| - k] == x[|x| - j];
      forall i | |x| - j < i < |x| ensures IsTail(x[i]) { assert x[i] == data[i]; }
      HeldBackIs(x, j);
    }
  }

  lemma SameHeldBack(a: seq<byte>, b: seq<byte>)
    requires forall k: nat :: Unfinished(a, k) <==> Unfinished(b, k)
    ensures HeldBack(a) == HeldBack(b)
  {
    HeldBackIs(a, HeldBack(b));
    HeldBackIs(b, HeldBack(a));
  }

  lemma HeldBackForgets(x: seq<byte>, p: seq<byte>)
    ensures HeldBack(x + p) == HeldBack(Remainder(x) + p)
  {
    var r, e := Remainder(x), Emitted(x);
    assert x + p == e + (r + p);
    forall k: nat ensures Unfinished(x + p, k) <==> Unfinished(r + p, k) {
      if k <= |r + p| {
        SuffixUnfinished(e, r + p, k);
      } else {
        NotAcross(x, p, k);
      }
    }
    SameHeldBack(x + p, r + p);
  }

  lemma CutJoined(e: seq<byte>, t: seq<byte>, n: nat)
    requires n <= |t|
    ensures (e + t)[..|e + t| - n] == e + t[..|t| - n]
    ensures (e + t)[|e + t| - n..] == t[|t| - n..]
  {
  }

  /** Forgetting emitted bytes changes nothing later. */
  lemma ForgetEmitted(x: seq<byte>, p: seq<byte>)
    ensures HeldBack(x + p) == HeldBack(Remainder(x) + p)
    ensures Emitted(x + p) == Emitted(x) + Emitted(Remainder(x) + p)
    ensures Remainder(x + p) == Remainder(Remainder(x) + p)
  {
    var r, e := Remainder(x), Emitted(x);
    HeldBackForgets(x, p);
    assert x + p == e + (r + p);
    CutJoined(e, r + p, HeldBack(r + p));
  }

  lemma {:induction false} HeldInvariance(writes: seq<seq<byte>>)
    ensures HeldAfter(writes) == Remainder(Concat(writes))
  {
    if writes != [] {
      var before, p := writes[..|writes| - 1], writes[|writes| - 1];
      HeldInvariance(before);
      ForgetEmitted(Concat(before), p);
      assert Concat(writes) == Concat(before) + p;
    }
  }

  lemma ConcatMore(parts: seq<seq<byte>>, p: seq<byte>)
    ensures Concat(parts + [p]) == Concat(parts) + p
  {
    assert (parts + [p])[..|parts|] == parts;
  }

  lemma {:induction false} EmittedInvariance(writes: seq<seq<byte>>)
    ensures Concat(Chunks(writes)) == Emitted(Concat(writes))
  {
    if writes != [] {
      var before, p := writes[..|writes| - 1], writes[|writes| - 1];
      EmittedInvariance(before);
      HeldInvariance(before);
      ForgetEmitted(Concat(before), p);
      ConcatMore(Chunks(before), Emitted(HeldAfter(before) + p));
      assert Concat(writes) == Concat(before) + p;
    }
  }

  /** However the bytes are split into writes: emitted bytes plus remainder are the
      input, the remainder is at most three bytes, and both are what a single write of
      everything gives. */
  lemma {:induction false} SplitInvariance(writes: seq<seq<byte>>)
    ensures Concat(Chunks(writes)) == Emitted(Concat(writes))
    ensures HeldAfter(writes) == Remainder(Concat(writes))
    ensures Concat(Chunks(writes)) + HeldAfter(writes) == Concat(writes)
    ensures |HeldAfter(writes)| <= 3
  {
    EmittedInvariance(writes);
    HeldInvariance(writes);
  }

  // ------------------------------------------------- RFC 3629, sections 3 and 4

  predicate TailByte(b: byte) { 0x80 <= b <= 0xBF }

  /** The length of the well-formed character at the front of `s`; 0 if there is none. */
  function CharLength(s: seq<byte>): (n: nat)
    ensures n <= |s| && n <= 4
  {
    if s == [] then 0
    else if s[0] <= 0x7F then 1
    else if |s| >= 2 && 0xC2 <= s[0] <= 0xDF && TailByte(s[1]) then 2
    else if |s| >= 3 && SecondOfThree(s[0], s[1]) && TailByte(s[2]) then 3
    else if |s| >= 4 && SecondOfFour(s[0], s[1]) && TailByte(s[2]) && TailByte(s[3]) then 4
    else 0
  }

  predicate SecondOfThree(a: byte, b: byte) {
    || (a == 0xE0 && 0xA0 <= b <= 0xBF)
    || (0xE1 <= a <= 0xEC && TailByte(b))
    || (a == 0xED && 0x80 <= b <= 0x9F)
    || (0xEE <= a <= 0xEF && TailByte(b))
  }

  predicate SecondOfFour(a: byte, b: byte) {
    || (a == 0xF0 && 0x90 <= b <= 0xBF)
    || (0xF1 <= a <= 0xF3 && TailByte(b))
    || (a == 0xF4 && 0x80 <= b <= 0x8F)
  }

  /** A run of whole characters. */
  predicate Valid(s: seq<byte>) {
    s == [] || (CharLength(s) > 0 && Valid(s[CharLength(s)..]))
  }

  /** The beginning of some valid text. */
  ghost predicate ValidPrefix(s: seq<byte>) {
    exists rest :: Valid(s + rest)
  }

  lemma TailBytes(b: byte)
    ensures TailByte(b) <==> IsTail(b)
    ensures b <= 0x7F <==> IsAscii(b)
  {
  }

  /** In a well-formed character the first byte says the length, the others are tails. */
  lemma CharShape(s: seq<byte>)
    requires CharLength(s) > 1
    ensures IsLead(s[0]) && Needed(s[0]) == CharLength(s)
    ensures forall i :: 1 <= i < CharLength(s) ==> IsTail(s[i])
  {
    LeadBytes(s[0]);
    var n := CharLength(s);
    forall i | 1 <= i < n ensures IsTail(s[i]) { TailBytes(s[i]); }
  }

  lemma LeadBytes(b: byte)
    ensures 0xC2 <= b <= 0xDF ==> IsLead(b) && Needed(b) == 2
    ensures 0xE0 <= b <= 0xEF ==> IsLead(b) && Needed(b) == 3
    ensures 0xF0 <= b <= 0xF4 ==> IsLead(b) && Needed(b) == 4
  {
  }

  lemma CharLengthAppend(s: seq<byte>, t: seq<byte>)
    requires CharLength(s) > 0
    ensures CharLength(s + t) == CharLength(s)
  {
  }

  /** Text after text: if the whole and its front are valid, so is the back. */
  lemma {:induction false} ValidSuffix(a: seq<byte>, b: seq<byte>)
    requires Valid(a) && Valid(a + b)
    ensures Valid(b)
  {
    if a == [] {
      assert a + b == b;
    } else {
      var n := CharLength(a);
      CharLengthAppend(a, b);
      assert (a + b)[n..] == a[n..] + b;
      ValidSuffix(a[n..], b);
    }
  }

  lemma {:induction false} ValidAppend(a: seq<byte>, b: seq<byte>)
    requires Valid(a) && Valid(b)
    ensures Valid(a + b)
  {
    if a == [] {
      assert a + b == b;
    } else {
      var n := CharLength(a);
      CharLengthAppend(a, b);
      assert (a + b)[n..] == a[n..] + b;
      ValidAppend(a[n..], b);
    }
  }

  lemma Rejoin(s: seq<byte>, n: nat, v: seq<byte>, r: seq<byte>)
    requires n <= |s| && s[n..] == v + r
    ensures s == s[..n] + v + r
  {
    assert s == s[..n] + s[n..];
  }

  /** A valid prefix is whole characters and the proper start of one more. */
  lemma {:induction false} Whole(s: seq<byte>, rest: seq<byte>) returns (v: seq<byte>, r: seq<byte>)
    requires Valid(s + rest)
    ensures s == v + r && Valid(v)
    ensures r != [] ==> |r| < CharLength(r + rest)
    decreases |s|
  {
    if s == [] {
      v, r := [], [];
    } else {
      var n := CharLength(s + rest);
      if n > |s| {
        v, r := [], s;
      } else {
        assert (s + rest)[n..] == s[n..] + rest;
        v, r := Whole(s[n..], rest);
        FrontChar(s, rest);
        ValidAppend(s[..n], v);
        Rejoin(s, n, v, r);
        v := s[..n] + v;
      }
    }
  }

  lemma FrontChar(s: seq<byte>, rest: seq<byte>)
    requires 0 < CharLength(s + rest) <= |s|
    ensures Valid(s[..CharLength(s + rest)])
  {
    var n := CharLength(s + rest);
    var c := s[..n];
    assert forall i :: 0 <= i < n ==> c[i] == (s + rest)[i];
    assert CharLength(c) == n;
    assert c[n..] == [];
  }

  /** Whole characters hold nothing back. */
  lemma {:induction false} ValidHoldsNothing(s: seq<byte>)
    requires Valid(s)
    ensures HeldBack(s) == 0
  {
    if s != [] {
      var n := CharLength(s);
      var c, t := s[..n], s[n..];
      ValidHoldsNothing(t);
      assert s == c + t;
      forall k: nat ensures !Unfinished(s, k) {
        if k <= |t| {
          SuffixUnfinished(c, t, k);
          HeldBackIs(t, k);
        } else {
          OneCharFinished(s, n, k);
        }
      }
    }
  }

  lemma OneCharFinished(s: seq<byte>, n: nat, k: nat)
    requires n == CharLength(s) > 0 && |s| - n < k
    ensures !Unfinished(s, k)
  {
    if k <= |s| {
      if n == 1 {
        TailBytes(s[0]);
      } else {
        CharShape(s);
        assert |s| - k == 0 || IsTail(s[|s| - k]);
      }
    }
  }

  /** The held-back bytes of a valid prefix are exactly the unfinished character. */
  lemma CutIsBoundary(s: seq<byte>)
    requires ValidPrefix(s)
    ensures Valid(Emitted(s))
  {
    var rest :| Valid(s + rest);
    var v, r := Whole(s, rest);
    if r == [] {
      assert s == v;
      ValidHoldsNothing(s);
      assert Emitted(s) == s;
    } else {
      var c := r + rest;
      CharShape(c);
      assert forall i :: 0 <= i < |r| ==> c[i] == r[i];
      assert Unfinished(r, |r|);
      SuffixUnfinished(v, r, |r|);
      HeldBackIs(s, |r|);
      assert Emitted(s) == v;
    }
  }

  /** If the input is the beginning of valid UTF-8, every chunk sent out is a run of
      whole characters. */
  lemma {:induction false} ChunksAreWhole(writes: seq<seq<byte>>, k: nat)
    requires ValidPrefix(Concat(writes)) && k < |writes|
    ensures Valid(Chunks(writes)[k])
    decreases |writes|
  {
    var before, p := writes[..|writes| - 1], writes[|writes| - 1];
    var x := Concat(before);
    var rest :| Valid(Concat(writes) + rest);
    assert x + (p + rest) == Concat(writes) + rest;
    assert ValidPrefix(x);
    if k < |writes| - 1 {
      ChunksAreWhole(before, k);
    } else {
      SplitInvariance(before);
      ForgetEmitted(x, p);
      CutIsBoundary(x);
      CutIsBoundary(x + p);
      ValidSuffix(Emitted(x), Emitted(Remainder(x) + p));
    }
  }
}
