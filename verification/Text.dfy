/** The parts of Go's `strings` and `strconv` packages that the program parses and prints with. */
module Text {
  import opened GoValues

  predicate Free(s: string, c: char) {
    forall i :: 0 <= i < |s| ==> s[i] != c
  }

  /** `strings.Split` with a separator of one character. */
  function Split(s: string, c: char): (parts: seq<string>)
    ensures |parts| >= 1
    ensures forall i :: 0 <= i < |parts| ==> Free(parts[i], c)
  {
    if s == "" then [""]
    else
      var rest := Split(s[1..], c);
      if s[0] == c then [""] + rest else [[s[0]] + rest[0]] + rest[1..]
  }

  /** `strings.Join` with a separator of one character. */
  function Join(parts: seq<string>, c: char): string {
    if |parts| == 0 then ""
    else if |parts| == 1 then parts[0]
    else parts[0] + [c] + Join(parts[1..], c)
  }

  lemma {:induction false} SplitFree(s: string, c: char)
    requires Free(s, c)
    ensures Split(s, c) == [s]
  {
    if s == "" {
    } else {
      SplitFree(s[1..], c);
      assert [s[0]] + s[1..] == s;
    }
  }

  lemma {:induction false} SplitAtFirst(a: string, c: char, b: string)
    requires Free(a, c)
    ensures Split(a + [c] + b, c) == [a] + Split(b, c)
  {
    var s := a + [c] + b;
    if a == "" {
      assert s[1..] == b;
    } else {
      assert s[1..] == a[1..] + [c] + b;
      SplitAtFirst(a[1..], c, b);
      assert [a[0]] + a[1..] == a;
    }
  }

  lemma {:induction false} SplitOfJoin(parts: seq<string>, c: char)
    requires |parts| >= 1
    requires forall i :: 0 <= i < |parts| ==> Free(parts[i], c)
    ensures Split(Join(parts, c), c) == parts
  {
    if |parts| == 1 {
      SplitFree(parts[0], c);
    } else {
      SplitOfJoin(parts[1..], c);
      SplitAtFirst(parts[0], c, Join(parts[1..], c));
    }
  }

  lemma {:induction false} JoinOfSplit(s: string, c: char)
    ensures Join(Split(s, c), c) == s
  {
    if s == "" {
    } else {
      JoinOfSplit(s[1..], c);
      var rest := Split(s[1..], c);
      if s[0] == c {
        assert ([""] + rest)[1..] == rest;
      } else if |rest| == 1 {
      } else {
        var parts := [[s[0]] + rest[0]] + rest[1..];
        assert parts[1..] == rest[1..];
      }
    }
  }

  predicate HasPrefix(s: string, p: string) {
    |p| <= |s| && s[..|p|] == p
  }

  predicate HasSuffix(s: string, p: string) {
    |p| <= |s| && s[|s| - |p|..] == p
  }

  function TrimPrefix(s: string, p: string): string {
    if HasPrefix(s, p) then s[|p|..] else s
  }

  function TrimSuffix(s: string, p: string): string {
    if HasSuffix(s, p) then s[..|s| - |p|] else s
  }

  lemma PrefixExactly(s: string, p: string)
    ensures HasPrefix(s, p) <==> exists rest :: s == p + rest
    ensures if HasPrefix(s, p) then s == p + TrimPrefix(s, p) else TrimPrefix(s, p) == s
  {
    if HasPrefix(s, p) {
      assert s == p + s[|p|..];
    }
  }

  lemma SuffixExactly(s: string, p: string)
    ensures HasSuffix(s, p) <==> exists rest :: s == rest + p
    ensures if HasSuffix(s, p) then s == TrimSuffix(s, p) + p else TrimSuffix(s, p) == s
  {
    if HasSuffix(s, p) {
      assert s == s[..|s| - |p|] + p;
    }
  }

  lemma TrimBoth(p: string, body: string, q: string)
    ensures HasPrefix(p + body + q, p) && HasSuffix(p + body + q, q)
    ensures TrimSuffix(TrimPrefix(p + body + q, p), q) == body
  {
  }

  lemma JoinFour(a: string, b: string, d: string, e: string, c: char)
    ensures Join([a, b, d, e], c) == a + [c] + (b + [c] + (d + [c] + e))
  {
    var parts := [a, b, d, e];
    assert parts[1..] == [b, d, e] && parts[1..][1..] == [d, e] && parts[1..][1..][1..] == [e];
    assert Join([d, e], c) == d + [c] + e;
    assert Join([b, d, e], c) == b + [c] + Join([d, e], c);
  }

  /** The characters before the first `c` and those after it, when there is one. */
  datatype CutResult = Found(before: string, after: string) | Missing

  /** `strings.Cut` with a separator of one character. */
  function Cut(s: string, c: char): (r: CutResult)
    ensures r.Found? ==> s == r.before + [c] + r.after && Free(r.before, c)
    ensures r.Missing? ==> Free(s, c)
  {
    if s == "" then Missing
    else if s[0] == c then Found("", s[1..])
    else match Cut(s[1..], c)
      case Found(before, after) => Found([s[0]] + before, after)
      case Missing => Missing
  }

  // ---------- Decimal numbers ----------

  predicate IsDigit(c: char) {
    '0' <= c <= '9'
  }

  predicate AllDigits(s: string) {
    forall i :: 0 <= i < |s| ==> IsDigit(s[i])
  }

  function DigitOf(n: nat): (c: char)
    requires n < 10
    ensures IsDigit(c) && c as int - '0' as int == n
  {
    ('0' as int + n) as char
  }

  function PrintNat(n: nat): (s: string)
    ensures |s| >= 1 && AllDigits(s)
  {
    if n < 10 then [DigitOf(n)] else PrintNat(n / 10) + [DigitOf(n % 10)]
  }

  /** The `%d` verb. */
  function PrintInt(n: int): (s: string)
    ensures |s| >= 1
  {
    if n < 0 then "-" + PrintNat(-n) else PrintNat(n)
  }

  function NatValue(s: string): nat
    requires AllDigits(s)
  {
    if s == "" then 0 else 10 * NatValue(s[..|s| - 1]) + (s[|s| - 1] as int - '0' as int)
  }

  predicate HasSign(s: string) {
    s != "" && (s[0] == '+' || s[0] == '-')
  }

  /** `strconv.Atoi`: an optional sign, at least one digit, and a value that fits. */
  function Atoi(s: string): (r: Option<int>)
    ensures r.Some? ==> FitsInt64(r.value)
  {
    var digits := if HasSign(s) then s[1..] else s;
    if digits == "" || !AllDigits(digits) then None
    else
      var size: int := NatValue(digits);
      var value := if s[0] == '-' then -size else size;
      if FitsInt64(value) then Some(value) else None
  }

  lemma {:induction false} NatValueOfPrint(n: nat)
    ensures NatValue(PrintNat(n)) == n
  {
    if n < 10 {
      assert PrintNat(n)[..0] == "";
    } else {
      NatValueOfPrint(n / 10);
      var s := PrintNat(n);
      assert s[..|s| - 1] == PrintNat(n / 10);
    }
  }

  lemma AtoiOfPrint(n: int)
    requires FitsInt64(n)
    ensures Atoi(PrintInt(n)) == Some(n)
  {
    var digits := PrintNat(if n < 0 then -n else n);
    NatValueOfPrint(if n < 0 then -n else n);
    assert IsDigit(digits[0]) && !HasSign(digits);
    if n < 0 {
      assert HasSign("-" + digits) && ("-" + digits)[1..] == digits;
    }
  }

  /** Printing is injective on all integers, whatever fits in a machine word. */
  lemma PrintIntInjective(m: int, n: int)
    requires PrintInt(m) == PrintInt(n)
    ensures m == n
  {
    NatValueOfPrint(if m < 0 then -m else m);
    NatValueOfPrint(if n < 0 then -n else n);
    assert IsDigit(PrintNat(if m < 0 then -m else m)[0]) && IsDigit(PrintNat(if n < 0 then -n else n)[0]);
    if m < 0 && n < 0 {
      assert PrintInt(m)[1..] == PrintNat(-m);
      assert PrintInt(n)[1..] == PrintNat(-n);
    }
  }

  lemma PrintIntFree(n: int, c: char)
    requires !IsDigit(c) && c != '-'
    ensures Free(PrintInt(n), c)
  {
  }

  lemma {:induction false} LeadingZero(s: string)
    requires AllDigits(s)
    ensures AllDigits("0" + s) && NatValue("0" + s) == NatValue(s)
  {
    if s == "" {
      assert NatValue("0") == 10 * NatValue("0"[..0]);
    } else {
      var t := "0" + s;
      LeadingZero(s[..|s| - 1]);
      assert t[..|t| - 1] == "0" + s[..|s| - 1];
    }
  }

  // ---------- Which texts are numbers ----------

  function Zeros(n: nat): string {
    if n == 0 then "" else "0" + Zeros(n - 1)
  }

  lemma {:induction false} ZerosValue(n: nat, s: string)
    requires AllDigits(s)
    ensures AllDigits(Zeros(n) + s) && NatValue(Zeros(n) + s) == NatValue(s)
  {
    if n == 0 {
      assert Zeros(0) + s == s;
    } else {
      ZerosValue(n - 1, s);
      LeadingZero(Zeros(n - 1) + s);
      assert Zeros(n) + s == "0" + (Zeros(n - 1) + s);
    }
  }

  lemma {:induction false} OneMoreZero(n: nat)
    ensures Zeros(n) + "0" == Zeros(n + 1)
  {
    if n > 0 {
      OneMoreZero(n - 1);
    }
  }

  /** Digits are zeros before the printed number that they mean. */
  lemma {:induction false} DigitsArePrinted(s: string) returns (zeros: nat)
    requires s != "" && AllDigits(s)
    ensures s == Zeros(zeros) + PrintNat(NatValue(s))
  {
    var init, last := s[..|s| - 1], s[|s| - 1];
    assert s == init + [last];
    if init == "" {
      zeros := 0;
      assert NatValue(init) == 0;
    } else {
      zeros := DigitsArePrinted(init);
      if NatValue(init) == 0 {
        OneMoreZero(zeros);
        zeros := zeros + 1;
      }
    }
  }

  /** The signs that may stand before a number. */
  predicate SignOf(sign: string, n: int) {
    (n >= 0 && (sign == "" || sign == "+")) || (n <= 0 && sign == "-")
  }

  /** A sign, any zeros and the decimal digits of a number. */
  predicate WritesNumber(s: string, n: int, sign: string, zeros: nat) {
    SignOf(sign, n) && s == sign + (Zeros(zeros) + PrintNat(if n < 0 then -n else n))
  }

  /** Exactly those texts are read as a number that are spellings of it, when it has 64 bits. */
  lemma AtoiExactly(s: string, n: int)
    ensures Atoi(s) == Some(n) <==>
            && -0x8000_0000_0000_0000 <= n <= 0x7fff_ffff_ffff_ffff
            && exists sign, zeros: nat :: WritesNumber(s, n, sign, zeros)
  {
    if Atoi(s) == Some(n) {
      var sign, zeros := SpellingOf(s, n);
    }
    forall sign, zeros: nat | FitsInt64(n) && WritesNumber(s, n, sign, zeros) ensures Atoi(s) == Some(n) {
      SpellingIsRead(s, n, sign, zeros);
    }
  }

  lemma SpellingOf(s: string, n: int) returns (sign: string, zeros: nat)
    requires Atoi(s) == Some(n)
    ensures WritesNumber(s, n, sign, zeros)
  {
    var digits := if HasSign(s) then s[1..] else s;
    sign := if HasSign(s) then s[..1] else "";
    zeros := DigitsArePrinted(digits);
    assert s == sign + digits;
    assert NatValue(digits) == if n < 0 then -n else n;
  }

  lemma SpellingIsRead(s: string, n: int, sign: string, zeros: nat)
    requires FitsInt64(n) && WritesNumber(s, n, sign, zeros)
    ensures Atoi(s) == Some(n)
  {
    var size := if n < 0 then -n else n;
    ZerosValue(zeros, PrintNat(size));
    NatValueOfPrint(size);
    SignedDigits(sign, Zeros(zeros) + PrintNat(size), n);
  }

  lemma SignedDigits(sign: string, digits: string, n: int)
    requires FitsInt64(n) && SignOf(sign, n) && digits != "" && AllDigits(digits)
    requires NatValue(digits) == if n < 0 then -n else n
    ensures Atoi(sign + digits) == Some(n)
  {
    var s := sign + digits;
    if sign == "" {
      assert s == digits;
      assert IsDigit(s[0]) && !HasSign(s);
    } else {
      assert s[0] == sign[0] && s[1..] == digits;
    }
  }

  // ---------- The digits of a printed number ----------

  function Pow10(k: nat): (p: nat)
    ensures p > 0
  {
    if k == 0 then 1 else 10 * Pow10(k - 1)
  }

  lemma QuotientOfQuotient(n: nat, m: nat)
    requires m > 0
    ensures n / (10 * m) == n / 10 / m
  {
    var q, b := n / 10 / m, n / 10 % m;
    assert n / 10 == m * q + b;
    assert n == (10 * m) * q + (10 * b + n % 10);
    assert 0 <= 10 * b + n % 10 < 10 * m;
    QuotientIs(n, 10 * m, q, 10 * b + n % 10);
  }

  lemma QuotientIs(n: nat, d: nat, q: nat, r: nat)
    requires n == d * q + r && r < d
    ensures n / d == q
  {
    SameQuotient(d, n / d, n % d, q, r);
  }

  lemma SameQuotient(d: nat, p: nat, a: nat, q: nat, b: nat)
    requires d * p + a == d * q + b && a < d && b < d
    ensures p == q
  {
    if p < q {
      TimesMonotone(p + 1, q, d);
    } else if q < p {
      TimesMonotone(q + 1, p, d);
    }
  }

  /** The character at place `k`, counted from the end, is the digit of the `k`-th power of ten. */
  lemma {:induction false} PrintedDigit(n: nat, k: nat)
    requires k < |PrintNat(n)|
    ensures PrintNat(n)[|PrintNat(n)| - 1 - k] as int - '0' as int == n / Pow10(k) % 10
    ensures k > 0 ==> n >= 10
  {
    if k > 0 {
      PrintedDigit(n / 10, k - 1);
      QuotientOfQuotient(n, Pow10(k - 1));
    }
  }
}
