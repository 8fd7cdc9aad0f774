/** Bytes and ASCII decimals. */
module Bytes {
  type Byte = b: int | 0 <= b < 256

  predicate IsDigit(b: Byte)
  {
    48 <= b <= 57
  }

  predicate AllDigits(s: seq<Byte>)
  {
    forall i | 0 <= i < |s| :: IsDigit(s[i])
  }

  /** The number a run of digits denotes. */
  function ValueOf(s: seq<Byte>): nat
    requires AllDigits(s)
  {
    if |s| == 0 then 0 else 10 * ValueOf(s[..|s| - 1]) + (s[|s| - 1] - 48)
  }

  /** The decimal digits of n, without leading zeros. */
  function Decimal(n: nat): seq<Byte>
  {
    if n < 10 then [48 + n] else Decimal(n / 10) + [48 + n % 10]
  }

  predicate CanonicalDigits(s: seq<Byte>)
  {
    |s| > 0 && AllDigits(s) && (|s| > 1 ==> s[0] != 48)
  }

  lemma {:induction false} DecimalCanonical(n: nat)
    ensures CanonicalDigits(Decimal(n)) && ValueOf(Decimal(n)) == n
    ensures n > 0 ==> Decimal(n)[0] != 48
  {
    if n >= 10 {
      DecimalCanonical(n / 10);
      assert Decimal(n)[..|Decimal(n)| - 1] == Decimal(n / 10);
    }
  }

  lemma {:induction false} CanonicalIsDecimal(s: seq<Byte>)
    requires CanonicalDigits(s)
    ensures s == Decimal(ValueOf(s))
    ensures s[0] != 48 ==> ValueOf(s) > 0
  {
    var init := s[..|s| - 1];
    if |init| > 0 {
      assert init[0] == s[0];
      CanonicalIsDecimal(init);
      assert s == init + [s[|s| - 1]];
    } else {
      assert ValueOf(init) == 0;
    }
  }

  /** text stands in data at pos. */
  predicate At(data: seq<Byte>, pos: nat, text: seq<Byte>)
  {
    pos + |text| <= |data| && data[pos..pos + |text|] == text
  }

  lemma AtConcat(data: seq<Byte>, pos: nat, a: seq<Byte>, b: seq<Byte>)
    ensures At(data, pos, a + b) <==> At(data, pos, a) && At(data, pos + |a|, b)
  {
    if pos + |a| + |b| <= |data| {
      assert data[pos..pos + |a| + |b|] == data[pos..pos + |a|] + data[pos + |a|..pos + |a| + |b|];
      if At(data, pos, a + b) {
        assert (a + b)[..|a|] == a && (a + b)[|a|..] == b;
        assert data[pos..pos + |a|] == (a + b)[..|a|];
        assert data[pos + |a|..pos + |a| + |b|] == (a + b)[|a|..];
      }
    }
  }
}
