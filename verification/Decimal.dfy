/** Decimal numbers as `strconv.Atoi` reads and `strconv.Itoa` writes them. */
module Decimal {

  const MIN_INT64: int := -0x8000_0000_0000_0000
  const MAX_INT64: int := 0x7FFF_FFFF_FFFF_FFFF

  predicate Int64(n: int)
  {
    MIN_INT64 <= n <= MAX_INT64
  }

  datatype Parsed = Number(value: int) | Malformed

  predicate IsDigit(c: char)
  {
    '0' <= c <= '9'
  }

  predicate AllDigits(s: string)
  {
    forall k :: 0 <= k < |s| ==> IsDigit(s[k])
  }

  function DigitChar(d: nat): (c: char)
    requires d < 10
    ensures IsDigit(c) && c as int - '0' as int == d
  {
    '0' + d as char
  }

  function Digits(n: nat): (s: string)
    ensures |s| > 0 && AllDigits(s)
  {
    if n < 10 then [DigitChar(n)] else Digits(n / 10) + [DigitChar(n % 10)]
  }

  function Itoa(n: int): string
  {
    if n < 0 then "-" + Digits(-n) else Digits(n)
  }

  function Magnitude(s: string): nat
    requires AllDigits(s)
  {
    if s == [] then 0
    else 10 * Magnitude(s[..|s| - 1]) + (s[|s| - 1] as int - '0' as int)
  }

  /** An optional sign, then at least one digit, and a value that fits a 64-bit integer. */
  function Atoi(s: string): Parsed
  {
    var signed := s != [] && (s[0] == '-' || s[0] == '+');
    var digits := if signed then s[1..] else s;
    if digits == [] || !AllDigits(digits) then Malformed
    else
      var size: int := Magnitude(digits);
      var n := if signed && s[0] == '-' then -size else size;
      if Int64(n) then Number(n) else Malformed
  }

  lemma {:induction false} MagnitudeDigits(n: nat)
    ensures Magnitude(Digits(n)) == n
  {
    if n < 10 {
      assert Digits(n)[..0] == [];
    } else {
      var front := Digits(n / 10);
      MagnitudeDigits(n / 10);
      assert Digits(n)[..|Digits(n)| - 1] == front;
    }
  }

  /** Reading undoes writing for every 64-bit integer, and refuses any other, however well written. */
  lemma {:induction false} AtoiItoa(n: int)
    ensures Atoi(Itoa(n)) == if Int64(n) then Number(n) else Malformed
  {
    hide Digits, Magnitude;
    if n < 0 {
      MagnitudeDigits(-n);
      assert Itoa(n)[1..] == Digits(-n);
    } else {
      MagnitudeDigits(n);
      assert IsDigit(Digits(n)[0]);
    }
  }

  /** A written number holds digits and possibly one leading minus sign, nothing else. */
  lemma {:induction false} ItoaCharacters(n: int)
    ensures forall c :: c in Itoa(n) ==> IsDigit(c) || c == '-'
  {
  }

  predicate AllZeros(s: string)
  {
    forall k :: 0 <= k < |s| ==> s[k] == '0'
  }

  /** Every digit string is a written number behind some zeros. */
  lemma {:induction false} ZerosAndNumber(s: string) returns (zeros: string)
    requires s != "" && AllDigits(s)
    ensures AllZeros(zeros) && s == zeros + Digits(Magnitude(s))
    decreases |s|
  {
    var front, last := s[..|s| - 1], s[|s| - 1];
    var d := last as int - '0' as int;
    assert s == front + [last] && DigitChar(d) == last;
    if front == "" {
      zeros := "";
      assert Magnitude(s) == d;
    } else {
      zeros := ZerosAndNumber(front);
      var m := Magnitude(front);
      if m == 0 {
        assert Digits(0) == ['0'];
        zeros := zeros + "0";
      } else {
        assert (10 * m + d) / 10 == m && (10 * m + d) % 10 == d;
        assert Digits(10 * m + d) == Digits(m) + [last];
      }
    }
  }

  lemma {:induction false} ZerosCountNothing(zeros: string, s: string)
    requires AllZeros(zeros) && AllDigits(s)
    ensures AllDigits(zeros + s) && Magnitude(zeros + s) == Magnitude(s)
    decreases |s|, |zeros|
  {
    var all := zeros + s;
    if s != "" {
      assert all[..|all| - 1] == zeros + s[..|s| - 1];
      ZerosCountNothing(zeros, s[..|s| - 1]);
    } else if zeros != "" {
      assert all[..|all| - 1] == zeros[..|zeros| - 1] + s;
      ZerosCountNothing(zeros[..|zeros| - 1], s);
    }
  }

  function Signed(sign: string, n: nat): int
  {
    var value: int := n;
    if sign == "-" then -value else value
  }

  /** The number is written in this way: a sign or none, zeros, and the number itself. */
  predicate Spells(s: string, sign: string, zeros: string, n: nat)
  {
    sign in {"", "+", "-"} && AllZeros(zeros) && s == sign + zeros + Digits(n)
  }

  /**
   * What is read as a number, exactly: an optional sign, any number of zeros and a written number, as long as
   * the value fits 64 bits.
   */
  lemma {:induction false} AtoiExactly(s: string, value: int)
    ensures Atoi(s) == Number(value) <==>
            Int64(value) && exists sign, zeros, n: nat :: Spells(s, sign, zeros, n) &&
                                                          value == Signed(sign, n)
  {
    hide Digits, Atoi, Spells;
    if Atoi(s) == Number(value) {
      var sign, zeros, n := SpellingOf(s, value);
    }
    if sign, zeros, n: nat :| Spells(s, sign, zeros, n) && Int64(value) && value == Signed(sign, n) {
      ReadsSpelling(s, sign, zeros, n);
    }
  }

  lemma {:induction false} SpellingOf(s: string, value: int) returns (sign: string, zeros: string, n: nat)
    requires Atoi(s) == Number(value)
    ensures Int64(value) && Spells(s, sign, zeros, n) && value == Signed(sign, n)
  {
    hide Digits, Magnitude;
    var signed := s != [] && (s[0] == '-' || s[0] == '+');
    var digits := if signed then s[1..] else s;
    zeros := ZerosAndNumber(digits);
    sign, n := if signed then [s[0]] else "", Magnitude(digits);
    assert s == sign + digits;
    assert sign + (zeros + Digits(n)) == sign + zeros + Digits(n);
  }

  lemma {:induction false} ReadsSpelling(s: string, sign: string, zeros: string, n: nat)
    requires Spells(s, sign, zeros, n)
    ensures var value := Signed(sign, n);
            Atoi(s) == if Int64(value) then Number(value) else Malformed
  {
    hide Digits, Magnitude;
    var digits := zeros + Digits(n);
    ZerosCountNothing(zeros, Digits(n));
    MagnitudeDigits(n);
    assert AllDigits(digits) && digits != [] && Magnitude(digits) == n;
    assert IsDigit(digits[0]) && s == sign + digits;
    if sign == "" {
      assert s == digits;
    } else {
      assert |sign| == 1 && s[0] == sign[0] && s[1..] == digits;
      assert sign == "-" <==> s[0] == '-';
    }
  }
}
