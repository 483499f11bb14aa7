/** The GPU list of a job: submitted as integers, stored as a comma-joined
    decimal string, read back by the scheduler and by recovery. */
module GpuIds {
  import opened Text

  function Strings(ids: seq<GoInt>): seq<string> {
    seq(|ids|, i requires 0 <= i < |ids| => Itoa(ids[i]))
  }

  /** What SubmitJob stores in `gpu_ids`. */
  function Format(ids: seq<GoInt>): string {
    Join(Strings(ids))
  }

  function ParseOne(part: string): seq<int> {
    match Atoi(TrimSpace(part))
    case Some(id) => [id]
    case None => []
  }

  function ParseParts(parts: seq<string>): seq<int> {
    if parts == [] then [] else ParseOne(parts[0]) + ParseParts(parts[1..])
  }

  /** The card list that a stored string stands for; unreadable parts are skipped. */
  function Parse(s: string): seq<int> {
    if s == "" then [] else ParseParts(Split(s))
  }

  /** job_service.go: fills an array of decimal strings and joins it. */
  method FormatGpuIDs(ids: seq<GoInt>) returns (s: string)
    ensures s == Format(ids)
    ensures Parse(s) == ids
  {
    var strs := PrintAll(ids);
    s := Join(strs);
    ParseFormat(ids);
  }

  method PrintAll(ids: seq<GoInt>) returns (parts: seq<string>)
    ensures parts == Strings(ids)
  {
    var strs := new string[|ids|];
    for i := 0 to |ids|
      invariant forall k :: 0 <= k < i ==> strs[k] == Itoa(ids[k])
    {
      strs[i] := Itoa(ids[i]);
    }
    return strs[..];
  }

  lemma {:induction false} ParsePartsAppend(parts: seq<string>, p: string)
    ensures ParseParts(parts + [p]) == ParseParts(parts) + ParseOne(p)
  {
    if parts != [] {
      ParsePartsAppend(parts[1..], p);
      assert (parts + [p])[1..] == parts[1..] + [p];
    }
  }

  /** scheduler_service.go: parseGpuIDs, and the same loop inside processQueue. */
  method ParseGpuIDs(s: string) returns (cards: seq<int>)
    ensures cards == Parse(s)
  {
    cards := [];
    if s != "" {
      var parts := Split(s);
      for i := 0 to |parts|
        invariant cards == ParseParts(parts[..i])
      {
        assert parts[..i + 1] == parts[..i] + [parts[i]];
        ParsePartsAppend(parts[..i], parts[i]);
        var id := Atoi(TrimSpace(parts[i]));
        if id.None? { continue; }
        cards := cards + [id.value];
      }
      assert parts[..|parts|] == parts;
    }
  }

  lemma {:induction false} ItoaChars(s: string, i: nat)
    requires s != [] && AllDigits(s[1..]) && (s[0] == '-' || '0' <= s[0] <= '9') && i < |s|
    ensures s[i] == '-' || '0' <= s[i] <= '9'
  {
    if i > 0 { assert s[i] == s[1..][i - 1]; }
  }

  lemma {:induction false} ItoaTrimmed(s: string)
    requires s != [] && AllDigits(s[1..]) && (s[0] == '-' || '0' <= s[0] <= '9')
    ensures ',' !in s && TrimSpace(s) == s
  {
    forall i | 0 <= i < |s| ensures s[i] != ',' && !IsSpace(s[i]) { ItoaChars(s, i); }
  }

  lemma {:induction false} ItoaPlain(n: GoInt)
    ensures ',' !in Itoa(n)
    ensures ParseOne(Itoa(n)) == [n]
  {
    ItoaTrimmed(Itoa(n));
    AtoiItoa(n);
  }

  lemma {:induction false} ParseStrings(ids: seq<GoInt>)
    ensures ParseParts(Strings(ids)) == ids
  {
    if ids != [] {
      assert Strings(ids)[1..] == Strings(ids[1..]);
      ItoaPlain(ids[0]);
      ParseStrings(ids[1..]);
    }
  }

  /** The cards read back are the cards submitted, in the same order: every
      list, the empty one and negative ids included. */
  lemma ParseFormat(ids: seq<GoInt>)
    ensures Parse(Format(ids)) == ids
  {
    if ids != [] {
      var parts := Strings(ids);
      forall p | p in parts ensures ',' !in p {
        var i :| 0 <= i < |parts| && parts[i] == p;
        ItoaPlain(ids[i]);
      }
      SplitJoin(parts);
      ParseStrings(ids);
      assert Join(parts) != "" by {
        assert parts[0] != "";
      }
    }
  }

  predicate AllSpace(s: string) {
    forall i :: 0 <= i < |s| ==> IsSpace(s[i])
  }

  lemma {:induction false} TrimsAround(a: string, s: string, b: string)
    requires AllSpace(a) && AllSpace(b) && s != "" && !IsSpace(s[0]) && !IsSpace(s[|s| - 1])
    ensures TrimSpace(a + s + b) == s
    decreases |a| + |b|
  {
    var t := a + s + b;
    if a != [] {
      assert t[0] == a[0] && t[1..] == a[1..] + s + b;
      TrimsAround(a[1..], s, b);
    } else if b != [] {
      assert t[0] == s[0] && t[|t| - 1] == b[|b| - 1] && t[..|t| - 1] == a + s + b[..|b| - 1];
      TrimsAround(a, s, b[..|b| - 1]);
    } else {
      assert t == s;
    }
  }

  /** Space around a number does not matter. */
  lemma ParseTrims(a: string, n: GoInt, b: string)
    requires AllSpace(a) && AllSpace(b)
    ensures ParseOne(a + Itoa(n) + b) == [n]
  {
    var s := Itoa(n);
    ItoaChars(s, 0);
    ItoaChars(s, |s| - 1);
    TrimsAround(a, s, b);
    AtoiItoa(n);
  }

  lemma {:induction false} TrimKeeps(s: string, c: char)
    requires c in s && !IsSpace(c)
    ensures c in TrimSpace(s)
    decreases |s|
  {
    if IsSpace(s[0]) {
      assert s == [s[0]] + s[1..];
      TrimKeeps(s[1..], c);
    } else if IsSpace(s[|s| - 1]) {
      assert s == s[..|s| - 1] + [s[|s| - 1]];
      TrimKeeps(s[..|s| - 1], c);
    }
  }

  /** A part with anything in it but digits, signs and space is skipped. */
  lemma ParseSkips(part: string, c: char)
    requires c in part && !IsSpace(c) && !('0' <= c <= '9') && c != '-' && c != '+'
    ensures ParseOne(part) == []
  {
    TrimKeeps(part, c);
    var s := TrimSpace(part);
    var i :| 0 <= i < |s| && s[i] == c;
    assert i > 0 ==> s[1..][i - 1] == c;
  }
}
