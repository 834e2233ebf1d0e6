/** Numbers as decimal text: the digit loop of Num_to_String and the parser string_to_num, with
    the wrap-around of 64-bit arithmetic. */
module NumberText {
  import opened Basics

  const MINUS: Byte := 45
  const ZERO: Byte := 48
  const NINE: Byte := 57

  predicate IsDigit(c: Byte) {
    ZERO <= c <= NINE
  }

  function Digits(n: nat): seq<Byte> {
    if n < 10 then [ZERO + n] else Digits(n / 10) + [ZERO + n % 10]
  }

  /** The decimal text of a number. */
  function Text(n: int): seq<Byte> {
    if n < 0 then [MINUS] + Digits(-n) else Digits(n)
  }

  /** The number a string of digits denotes, read from the left. */
  function Value(s: seq<Byte>): int {
    if s == [] then 0 else Value(s[..|s| - 1]) * 10 + (s[|s| - 1] - ZERO)
  }

  function Body(s: seq<Byte>): seq<Byte> {
    if s != [] && s[0] == MINUS then s[1..] else s
  }

  /** What string_to_num is for: the number denoted, modulo 2^64, or 0 for anything else. */
  function Parsed(s: seq<Byte>): Word {
    if exists i :: 0 <= i < |Body(s)| && !IsDigit(Body(s)[i]) then 0
    else if Body(s) == s then Value(s) % WRAP
    else (-Value(Body(s))) % WRAP
  }

  function Pow10(k: nat): nat {
    if k == 0 then 1 else 10 * Pow10(k - 1)
  }

  lemma {:induction false} DigitsShort(n: nat, k: nat)
    requires n < Pow10(k) && k > 0
    ensures 0 < |Digits(n)| <= k
  {
    if n >= 10 {
      DigitsShort(n / 10, k - 1);
    }
  }

  lemma {:induction false} ValueOfDigits(n: nat)
    ensures Digits(n) != [] && Value(Digits(n)) == n
    ensures forall i :: 0 <= i < |Digits(n)| ==> IsDigit(Digits(n)[i])
  {
    if n >= 10 {
      ValueOfDigits(n / 10);
      assert Digits(n)[..|Digits(n)| - 1] == Digits(n / 10);
    }
  }

  lemma DigitsFit(n: int)
    requires -0x8000_0000_0000_0000 < n < 0x8000_0000_0000_0000
    ensures 0 < |Digits(if n < 0 then -n else n)| <= 19
  {
    assert Pow10(19) == 10_000_000_000_000_000_000 by {
      assert Pow10(6) == 1_000_000;
      assert Pow10(12) == 1_000_000_000_000;
      assert Pow10(18) == 1_000_000_000_000_000_000;
    }
    DigitsShort(if n < 0 then -n else n, 19);
  }

  /** Printing and parsing again gives the number modulo 2^64; the text has at most 20
      characters. */
  lemma NumberRoundTrip(n: int)
    requires -0x8000_0000_0000_0000 < n < 0x8000_0000_0000_0000
    ensures Parsed(Text(n)) == n % WRAP && 0 < |Text(n)| <= 20
  {
    var m := if n < 0 then -n else n;
    ValueOfDigits(m);
    DigitsFit(n);
    assert Body(Text(n)) == Digits(m);
  }

  lemma {:induction false} NoLeadingZero(n: nat)
    ensures Digits(n)[0] == 48 <==> n == 0
  {
    if n >= 10 {
      NoLeadingZero(n / 10);
    }
  }

  /** The text of a number is its numeral: a minus sign exactly for negative numbers, then digits
      only, without a leading zero but for 0 itself, and these denote the number. */
  lemma TextIsNumeral(n: int)
    ensures var t, sign := Text(n), if n < 0 then 1 else 0;
      && |t| > sign && (t[0] == 45 <==> n < 0)
      && (forall i :: sign <= i < |t| ==> 48 <= t[i] <= 57)
      && (t[sign] == 48 <==> n == 0)
      && n == if n < 0 then -Value(t[1..]) else Value(t)
  {
    var m := if n < 0 then -n else n;
    ValueOfDigits(m);
    NoLeadingZero(m);
    assert n < 0 ==> Text(n)[1..] == Digits(m);
  }

  lemma {:induction false} ValueNonNegative(s: seq<Byte>)
    requires forall i :: 0 <= i < |s| ==> IsDigit(s[i])
    ensures Value(s) >= 0
  {
    if s != [] {
      ValueNonNegative(s[..|s| - 1]);
    }
  }

  lemma {:induction false} DigitsUnique(s: seq<Byte>)
    requires s != [] && (forall i :: 0 <= i < |s| ==> IsDigit(s[i])) && (s[0] == 48 ==> |s| == 1)
    ensures Value(s) >= 0 && Digits(Value(s)) == s
  {
    var t, d := s[..|s| - 1], s[|s| - 1] - ZERO;
    if t == [] {
      assert s == [ZERO + d];
    } else {
      DigitsUnique(t);
      NoLeadingZero(Value(t));
      DivisionIs(Value(s), Value(t), d, 10);
      assert s == t + [ZERO + d];
    }
  }

  /** No other text is a numeral of `n`: not one with a leading zero, and not "-0". */
  lemma NumeralIsText(n: int, s: seq<Byte>)
    requires s != [] && (s[0] == 45 <==> n < 0)
    requires var body := if n < 0 then s[1..] else s;
      && body != [] && (forall i :: 0 <= i < |body| ==> 48 <= body[i] <= 57) && (body[0] == 48 ==> |body| == 1)
      && n == if n < 0 then -Value(body) else Value(body)
    ensures s == Text(n)
  {
    DigitsUnique(if n < 0 then s[1..] else s);
    assert n < 0 ==> s == [MINUS] + s[1..];
  }

  /** The digits of a number, last one first, then the sign: Text(n) from right to left. */
  method NumberToArray(number: int) returns (a: array<Byte>, count: nat)
    requires -0x8000_0000_0000_0000 < number < 0x8000_0000_0000_0000
    ensures fresh(a) && count < a.Length == 100
    ensures count + 1 == |Text(number)|
    ensures forall j :: 0 <= j <= count ==> a[count - j] == Text(number)[j]
  {
    var n := if number < 0 then -number else number;
    ghost var all := Digits(n);
    DigitsFit(number);
    a := new Byte[100](_ => 0);
    count := 0;
    while n >= 10
      invariant 0 <= n
      invariant |all| == |Digits(n)| + count && Digits(n) == all[..|all| - count]
      invariant forall j :: 0 <= j < count ==> a[j] == all[|all| - 1 - j]
    {
      a[count] := n % 10 + ZERO;
      n := n / 10;
      count := count + 1;
    }
    a[count] := n % 10 + ZERO;
    if number < 0 {
      count := count + 1;
      a[count] := MINUS;
    }
  }

  /** Reducing early does not change a sum of products modulo `m`. */
  lemma ModSum(a: int, d: int, p: int, m: int)
    requires m > 0
    ensures (a % m + d * (p % m)) % m == (a + d * p) % m
  {
    var qa, qp := a / m, p / m;
    assert a == a % m + qa * m && p == p % m + qp * m;
    assert a + d * p == (a % m + d * (p % m)) + (qa + d * qp) * m by {
      assert d * p == d * (p % m) + d * (qp * m);
      assert d * (qp * m) == (d * qp) * m;
    }
    ModShift(a % m + d * (p % m), qa + d * qp, m);
  }

  lemma {:induction false} ValueFromLeft(d: Byte, s: seq<Byte>)
    ensures Value([d] + s) == (d - ZERO) * Pow10(|s|) + Value(s)
  {
    if s == [] {
      assert [d] + s == [d];
      assert [d][..0] == [];
    } else {
      var t := s[..|s| - 1];
      assert ([d] + s)[..|s|] == [d] + t;
      ValueFromLeft(d, t);
    }
  }

  /** One more digit on the left, computed with wrapped operands. */
  lemma ParseStep(s: seq<Byte>, i: nat)
    requires i < |s|
    ensures Value(s[i..]) % WRAP == (Value(s[i + 1..]) % WRAP + (s[i] - ZERO) * (Pow10(|s| - 1 - i) % WRAP)) % WRAP
    ensures Pow10(|s| - i) % WRAP == Pow10(|s| - 1 - i) % WRAP * 10 % WRAP
  {
    assert s[i..] == [s[i]] + s[i + 1..];
    ValueFromLeft(s[i], s[i + 1..]);
    ModSum(Value(s[i + 1..]), s[i] - ZERO, Pow10(|s| - 1 - i), WRAP);
    ModSum(0, 10, Pow10(|s| - 1 - i), WRAP);
  }

  /** The product of an unsigned number with -1. */
  function Negative(w: Word): Word {
    (WRAP - w) % WRAP
  }

  lemma Negated(v: int)
    ensures Negative(v % WRAP) == (-v) % WRAP
  {
    ModSum(0, -1, v, WRAP);
    ModShift(-(v % WRAP), 1, WRAP);
  }

  lemma ParsedBad(s: seq<Byte>, i: nat)
    requires i < |s| && !IsDigit(s[i]) && (i == 0 ==> s[0] != MINUS)
    ensures Parsed(s) == 0
  {
    var k := if s[0] == MINUS then i - 1 else i;
    assert !IsDigit(Body(s)[k]);
  }

  /** Where the digits start. */
  function SignLength(s: seq<Byte>): nat {
    if s != [] && s[0] == MINUS then 1 else 0
  }

  /** `num` and `ten` are the value of the digits from `i` on and the next power of ten, wrapped. */
  ghost predicate Summed(s: seq<Byte>, i: nat, num: Word, ten: Word)
    requires i <= |s|
  {
    && (forall j :: i <= j < |s| ==> IsDigit(s[j]))
    && num == Value(s[i..]) % WRAP && ten == Pow10(|s| - i) % WRAP
  }

  lemma ParsedIs(s: seq<Byte>, num: Word, ten: Word)
    requires SignLength(s) <= |s| && Summed(s, SignLength(s), num, ten)
    ensures Parsed(s) == if SignLength(s) == 1 then Negative(num) else num
  {
    assert Body(s) == s[SignLength(s)..];
    Negated(Value(Body(s)));
  }

  /** What the parser answers: the value of a string of digits, ... */
  lemma ParsedPlain(s: seq<Byte>)
    requires forall i :: 0 <= i < |s| ==> 48 <= s[i] <= 57
    ensures Parsed(s) == Value(s) % 0x1_0000_0000_0000_0000
  {
    assert Body(s) == s;
  }

  /** ... its negative after a minus sign, both modulo 2^64, ... */
  lemma ParsedMinus(s: seq<Byte>)
    requires s != [] && s[0] == 45 && forall i :: 1 <= i < |s| ==> 48 <= s[i] <= 57
    ensures Parsed(s) == (-Value(s[1..])) % 0x1_0000_0000_0000_0000
  {
    assert Body(s) == s[1..] && |Body(s)| < |s|;
  }

  /** ... and 0 if any other character occurs. */
  lemma ParsedOther(s: seq<Byte>, i: nat)
    requires i < |s| && !(48 <= s[i] <= 57) && (i > 0 || s[i] != 45)
    ensures Parsed(s) == 0
  {
    ParsedBad(s, i);
  }

  /** The body of the parser's loop: the next digit to the left and the next power of ten. */
  method AddDigit(s: seq<Byte>, i: nat, num: Word, ten: Word) returns (num': Word, ten': Word)
    requires i < |s| && IsDigit(s[i]) && Summed(s, i + 1, num, ten)
    ensures Summed(s, i, num', ten')
  {
    ParseStep(s, i);
    num' := (num + (s[i] - ZERO) * ten) % WRAP;
    ten' := ten * 10 % WRAP;
  }

  lemma NothingSummed(s: seq<Byte>)
    ensures Summed(s, |s|, 0, 1)
  {
    assert s[|s|..] == [];
  }

  /** The parser works from right to left with a power of ten that wraps around. */
  method StringToNum(s: seq<Byte>) returns (r: Word)
    ensures r == Parsed(s)
  {
    var i := |s| - 1;
    var num: Word, ten: Word := 0, 1;
    var isMinus := 0;
    if s != [] && s[0] == MINUS {
      isMinus := 1;
    }
    NothingSummed(s);
    while i >= isMinus
      invariant isMinus - 1 <= i < |s| && Summed(s, i + 1, num, ten)
    {
      if s[i] > NINE || s[i] < ZERO {
        ParsedBad(s, i);
        return 0;
      }
      num, ten := AddDigit(s, i, num, ten);
      i := i - 1;
    }
    ParsedIs(s, num, ten);
    if isMinus == 1 {
      return Negative(num);
    }
    return num;
  }
}
