/** Decimal text, as fmt's %d and strconv produce and read it. */
module Decimal {
  import opened Bytes

  predicate Digit(b: byte) { 48 <= b <= 57 }

  predicate AllDigits(s: seq<byte>) { forall b | b in s :: Digit(b) }

  function Digits(n: nat): (r: seq<byte>)
    ensures AllDigits(r) && r != []
  {
    if n < 10 then [48 + n] else Digits(n / 10) + [48 + n % 10]
  }

  function Value(s: seq<byte>): (r: nat)
    requires AllDigits(s)
  {
    if s == [] then 0
    else
      assert Digit(s[|s| - 1]);
      var digit: nat := s[|s| - 1] as int - 48;
      10 * Value(s[..|s| - 1]) + digit
  }

  lemma {:induction false} ValueOfDigits(n: nat)
    ensures Value(Digits(n)) == n
  {
    if n < 10 {
      assert Digits(n)[..0] == [];
    } else {
      ValueOfDigits(n / 10);
      assert Digits(n)[..|Digits(n)| - 1] == Digits(n / 10);
    }
  }

  /** The last digit counts ones, the digits before it tens. */
  lemma {:induction false} DigitsByTens(n: nat, d: nat)
    requires d < 10
    ensures Digits(10 * n + d) == (if n == 0 then [] else Digits(n)) + [48 + d as byte]
  {
    assert (10 * n + d) / 10 == n && (10 * n + d) % 10 == d;
  }

  lemma {:induction false} DigitsInjective(m: nat, n: nat)
    requires Digits(m) == Digits(n)
    ensures m == n
  {
    ValueOfDigits(m);
    ValueOfDigits(n);
  }

  const INT_LIMIT := 0x8000_0000_0000_0000

  /** strconv.Atoi on 64-bit platforms: an optional sign, then digits, in range. */
  function Atoi(s: seq<byte>): (r: Option<int>)
  {
    var signed := s != [] && (s[0] == 43 || s[0] == 45);
    var digits := if signed then s[1..] else s;
    if digits == [] || !AllDigits(digits) then None
    else
      var v: int := if signed && s[0] == 45 then -(Value(digits) as int) else Value(digits);
      if -INT_LIMIT <= v < INT_LIMIT then Some(v) else None
  }

  /** A text is a number exactly if it is the digits of its size, with leading zeros
      and a sign allowed, and fits into 64 bits. */
  lemma {:induction false} AtoiExact(sign: seq<byte>, zeros: seq<byte>, n: nat)
    requires sign in {[], Ascii("+"), Ascii("-")} && forall i | 0 <= i < |zeros| :: zeros[i] == 48
    ensures
      var v := if sign == Ascii("-") then 0 - n as int else n as int;
      Atoi(sign + zeros + Digits(n)) == if -INT_LIMIT <= v < INT_LIMIT then Some(v) else None
  {
    var digits := zeros + Digits(n);
    ValueOfZeros(zeros, Digits(n));
    ValueOfDigits(n);
    assert sign + zeros + Digits(n) == sign + digits;
    assert Ascii("+") == [43] && Ascii("-") == [45];
    if sign == [] {
      assert sign + digits == digits;
      AtoiPlain(digits);
    } else {
      AtoiSigned(sign[0], digits);
    }
  }

  lemma {:induction false} AtoiPlain(digits: seq<byte>)
    requires AllDigits(digits) && digits != []
    ensures Atoi(digits) == if Value(digits) < INT_LIMIT then Some(Value(digits)) else None
  {
    assert digits[0] in digits;
  }

  lemma {:induction false} AtoiSigned(sign: byte, digits: seq<byte>)
    requires AllDigits(digits) && digits != [] && (sign == 43 || sign == 45)
    ensures
      var v := if sign == 45 then 0 - Value(digits) as int else Value(digits) as int;
      Atoi([sign] + digits) == if -INT_LIMIT <= v < INT_LIMIT then Some(v) else None
  {
    assert ([sign] + digits)[1..] == digits;
  }

  lemma {:induction false} ValueOfZeros(zeros: seq<byte>, digits: seq<byte>)
    requires AllDigits(digits) && forall i | 0 <= i < |zeros| :: zeros[i] == 48
    ensures AllDigits(zeros + digits) && Value(zeros + digits) == Value(digits)
    decreases |zeros| + |digits|
  {
    if digits != [] {
      var init := digits[..|digits| - 1];
      ValueOfZeros(zeros, init);
      assert (zeros + digits)[..|zeros + digits| - 1] == zeros + init;
    } else if zeros != [] {
      var fewer := zeros[..|zeros| - 1];
      ValueOfZeros(fewer, []);
      assert fewer + [] == fewer && zeros + digits == zeros;
      assert zeros[|zeros| - 1] == 48;
    }
  }

  lemma {:induction false} AtoiInvertsItoa(n: nat)
    requires n < INT_LIMIT
    ensures Atoi(Digits(n)) == Some(n)
  {
    ValueOfDigits(n);
    assert Digits(n)[0] in Digits(n);
  }
}
