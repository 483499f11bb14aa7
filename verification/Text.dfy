/** The Go string operations that the program stores data with: decimal
    conversion of 64-bit integers, comma lists, trimming, and byte order. */
module Text {

  datatype Option<+T> = None | Some(value: T)

  const MIN_INT := -0x8000_0000_0000_0000
  const MAX_INT := 0x7FFF_FFFF_FFFF_FFFF

  /** Go's `int` on the 64-bit targets the program is built for. */
  type GoInt = n: int | MIN_INT <= n <= MAX_INT

  // ---------------------------------------------------------------- ordering

  /** The `<` of Go strings, and of sorted-set members with equal scores. */
  predicate LexLess(a: string, b: string) {
    if b == [] then false
    else if a == [] then true
    else a[0] < b[0] || (a[0] == b[0] && LexLess(a[1..], b[1..]))
  }

  lemma {:induction false} LexTotal(a: string, b: string)
    ensures a == b || LexLess(a, b) || LexLess(b, a)
    ensures !(LexLess(a, b) && LexLess(b, a))
    ensures !LexLess(a, a)
    decreases |a|
  {
    if a != [] {
      LexTotal(a[1..], if b == [] then [] else b[1..]);
      if b != [] && a[0] == b[0] && a[1..] == b[1..] {
        assert a == [a[0]] + a[1..];
        assert b == [b[0]] + b[1..];
      }
    }
  }

  lemma {:induction false} LexTransitive(a: string, b: string, c: string)
    requires LexLess(a, b) && LexLess(b, c)
    ensures LexLess(a, c)
  {
    if a != [] && a[0] == b[0] && b[0] == c[0] {
      LexTransitive(a[1..], b[1..], c[1..]);
    }
  }

  /** The order by its first difference: a proper prefix comes first, otherwise the smaller
      character decides. */
  lemma {:induction false} LexLessExactly(a: string, b: string)
    ensures LexLess(a, b) <==> exists k :: DiffersAt(a, b, k)
  {
    if b != [] && a != [] && a[0] == b[0] {
      LexLessExactly(a[1..], b[1..]);
      if k :| DiffersAt(a[1..], b[1..], k) { assert DiffersAt(a, b, k + 1); }
      if k :| DiffersAt(a, b, k) { assert DiffersAt(a[1..], b[1..], k - 1); }
    } else if LexLess(a, b) {
      assert DiffersAt(a, b, 0);
    }
  }

  /** Equal up to `k`, where the first ends or is smaller. */
  predicate DiffersAt(a: string, b: string, k: int) {
    0 <= k <= |a| && k < |b| && a[..k] == b[..k] && (k == |a| || a[k] < b[k])
  }

  // ----------------------------------------------------------------- decimal

  function DigitChar(d: int): (c: char)
    requires 0 <= d < 10
    ensures '0' <= c <= '9' && c as int - '0' as int == d
  {
    ('0' as int + d) as char
  }

  predicate AllDigits(s: string) {
    forall i :: 0 <= i < |s| ==> '0' <= s[i] <= '9'
  }

  function Digits(n: nat): (s: string)
    ensures s != [] && AllDigits(s)
  {
    if n < 10 then [DigitChar(n)] else Digits(n / 10) + [DigitChar(n % 10)]
  }

  function Value(s: string): nat
    requires AllDigits(s)
  {
    if s == [] then 0 else Value(s[..|s| - 1]) * 10 + (s[|s| - 1] as int - '0' as int)
  }

  /** `strconv.Itoa`. */
  function Itoa(n: int): (s: string)
    ensures s != []
    ensures AllDigits(s[1..]) && (s[0] == '-' || '0' <= s[0] <= '9')
  {
    if n < 0 then "-" + Digits(-n) else Digits(n)
  }

  /** The number a signed decimal stands for. */
  function SignedValue(s: string): int
    requires s != [] && AllDigits(s[1..]) && (s[0] == '-' || s[0] == '+' || '0' <= s[0] <= '9')
  {
    if s[0] == '-' then -(Value(s[1..]) as int) else if s[0] == '+' then Value(s[1..]) else Value(s)
  }

  /** `strconv.Atoi`: optional sign, at least one digit, nothing else, 64-bit range. */
  function Atoi(s: string): Option<GoInt> {
    var body := if s != [] && (s[0] == '-' || s[0] == '+') then s[1..] else s;
    if body == [] || !AllDigits(body) then None
    else
      var v := SignedValue(s);
      if MIN_INT <= v <= MAX_INT then Some(v) else None
  }

  lemma {:induction false} ValueOfDigits(n: nat)
    ensures Value(Digits(n)) == n
  {
    var s := Digits(n);
    if n >= 10 {
      ValueOfDigits(n / 10);
      assert s[..|s| - 1] == Digits(n / 10);
    } else {
      assert s[..|s| - 1] == [];
    }
  }

  lemma SignedValueOfItoa(n: int)
    ensures SignedValue(Itoa(n)) == n
  {
    if n < 0 {
      var m: nat := -n;
      ValueOfDigits(m);
      assert Itoa(n)[1..] == Digits(m);
    } else {
      ValueOfDigits(n);
      assert '0' <= Digits(n)[0] <= '9';
    }
  }

  /** Printing then reading an `int` gives it back. */
  lemma AtoiItoa(n: GoInt)
    ensures Atoi(Itoa(n)) == Some(n)
  {
    SignedValueOfItoa(n);
    if n < 0 {
      assert Itoa(n)[1..] == Digits(-(n as int));
    } else {
      assert '0' <= Digits(n)[0] <= '9';
    }
  }

  lemma ItoaInjective(a: int, b: int)
    requires Itoa(a) == Itoa(b)
    ensures a == b
  {
    SignedValueOfItoa(a);
    SignedValueOfItoa(b);
  }

  // ------------------------------------------------------ trimming, comma lists

  /** `unicode.IsSpace`. */
  predicate IsSpace(c: char) {
    || '\t' <= c <= '\r' || c == ' ' || c as int == 0x85 || c as int == 0xA0
    || c as int == 0x1680 || 0x2000 <= c as int <= 0x200a || c as int in {0x2028, 0x2029, 0x202f, 0x205f, 0x3000}
  }

  /** `strings.TrimSpace`. */
  function TrimSpace(s: string): string {
    if s == [] then []
    else if IsSpace(s[0]) then TrimSpace(s[1..])
    else if IsSpace(s[|s| - 1]) then TrimSpace(s[..|s| - 1])
    else s
  }

  /** `strings.Split(s, ",")`. */
  function Split(s: string): (parts: seq<string>)
    ensures |parts| > 0
  {
    if s == [] then [[]]
    else
      var rest := Split(s[1..]);
      if s[0] == ',' then [[]] + rest else [[s[0]] + rest[0]] + rest[1..]
  }

  /** `strings.Join(parts, ",")`. */
  function Join(parts: seq<string>): string {
    if parts == [] then []
    else if |parts| == 1 then parts[0]
    else parts[0] + "," + Join(parts[1..])
  }

  lemma {:induction false} SplitFirst(p: string, s: string)
    requires ',' !in p
    ensures Split(p) == [p]
    ensures Split(p + "," + s) == [p] + Split(s)
  {
    if p == [] {
      assert p + "," + s == "," + s;
      assert ("," + s)[1..] == s;
    } else {
      SplitFirst(p[1..], s);
      assert (p + "," + s)[1..] == p[1..] + "," + s;
      assert p == [p[0]] + p[1..];
    }
  }

  lemma {:induction false} SplitJoin(parts: seq<string>)
    requires parts != [] && forall p :: p in parts ==> ',' !in p
    ensures Split(Join(parts)) == parts
  {
    assert parts[0] in parts;
    SplitFirst(parts[0], Join(parts[1..]));
    if |parts| > 1 {
      SplitJoin(parts[1..]);
    }
  }
}
