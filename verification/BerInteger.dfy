/** INTEGER and ENUMERATED contents: `int64Encoder` and `parseInt64`. */
module BerInteger {
  import opened Octets

  /** The number of contents octets the encoder chooses. */
  function IntLen(i: int): (n: nat)
    ensures n > 0
    decreases if i < 0 then -i else i
  {
    if -128 <= i <= 127 then 1 else 1 + IntLen(i / 256)
  }

  function IntOctets(i: int): (s: octets)
    ensures |s| == IntLen(i)
  {
    BeFixed(i, IntLen(i))
  }

  /** What the parser makes of contents octets: no sign extension, and at most eight octets. */
  function IntValue(s: octets): (r: Option<int>)
    ensures r.Some? ==> IsInt64(r.value)
  {
    if |s| > 8 then None else Some(WrapInt64(BeNat(s)))
  }

  /** Contents octets are a number modulo 2^64 in two's complement, unless there are more than eight of them. */
  lemma {:induction false} IntValueExactly(s: octets)
    ensures IntValue(s).None? <==> |s| > 8
    ensures IntValue(s).Some? ==>
              IsInt64(IntValue(s).value) && (IntValue(s).value == BeNat(s) || IntValue(s).value == BeNat(s) - TWO_64)
  {
    BeNatBound(s);
    if |s| <= 8 {
      PowValues();
      PowMonotone(256, |s|, 8);
    }
  }

  predicate FitsWidth(i: int, n: nat) {
    n > 0 && -(128 * Pow(256, n - 1)) <= i < 128 * Pow(256, n - 1)
  }

  /** The chosen width holds the value in two's complement, and no smaller width does. */
  lemma {:induction false} IntLenIsLeast(i: int, n: nat)
    ensures FitsWidth(i, n) <==> n >= IntLen(i)
    decreases n
  {
    if n <= 1 {
      assert n == 1 ==> Pow(256, n - 1) == 1;
    } else {
      IntLenIsLeast(i / 256, n - 1);
      var p := Pow(256, n - 2);
      assert Pow(256, n - 1) == 256 * p;
      assert i == i / 256 * 256 + i % 256;
      if -128 <= i <= 127 {
        assert 128 * Pow(256, n - 1) >= 128;
      }
    }
  }

  lemma {:induction false} Int64Width(i: int)
    requires IsInt64(i)
    ensures IntLen(i) <= 8
    ensures IntLen(i) == 8 <==> i < -TWO_55 || i >= TWO_55
  {
    PowValues();
    assert Pow(256, 7) * 256 == Pow(256, 8);
    assert Pow(256, 6) * 256 == Pow(256, 7);
    IntLenIsLeast(i, 8);
    IntLenIsLeast(i, 7);
  }

  /** Decoding an encoded integer gives it modulo 256 to its width, read as an int64. */
  lemma {:induction false} IntDecoded(i: int)
    requires IsInt64(i)
    ensures IntValue(IntOctets(i)) == Some(WrapInt64(i % Pow(256, IntLen(i))))
  {
    Int64Width(i);
    BeFixedValue(i, IntLen(i));
  }

  predicate SurvivesInt(i: int) {
    0 <= i || i < -TWO_55
  }

  /** Exactly the non-negative integers and those eight octets wide come back. */
  lemma {:induction false} IntRoundTrip(i: int)
    requires IsInt64(i)
    ensures IntValue(IntOctets(i)) == Some(i) <==> SurvivesInt(i)
  {
    IntDecoded(i);
    Int64Width(i);
    var n := IntLen(i);
    var p := Pow(256, n);
    IntLenIsLeast(i, n);
    assert p == 256 * Pow(256, n - 1);
    PowValues();
    if i >= 0 {
      ModUnique(i, 0, i, p);
    } else {
      ModUnique(i, -1, i + p, p);
      if n == 8 {
        WrapShift(i + TWO_64, 1);
      } else {
        PowMonotone(256, n, 7);
        assert Pow(256, 8) == 256 * Pow(256, 7);
      }
    }
  }

  /** The encoder's two counting loops. */
  method Len(i: int) returns (n: nat)
    ensures n == IntLen(i)
  {
    n := 1;
    var x := i;
    while x > 127
      invariant n >= 1 && n - 1 + IntLen(x) == IntLen(i)
    {
      n, x := n + 1, x / 256;
    }
    while x < -128
      invariant n >= 1 && n - 1 + IntLen(x) == IntLen(i)
      invariant x <= 127
      decreases -x
    {
      n, x := n + 1, x / 256;
    }
  }

  /** Shifts octets into an int64, wrapping at every step as Go does. */
  method ParseInt64(bytes: octets) returns (r: Option<int>)
    ensures r == IntValue(bytes)
  {
    if |bytes| > 8 {
      return None;
    }
    var x := 0;
    assert bytes[..0] == [];
    for k := 0 to |bytes|
      invariant x == WrapInt64(BeNat(bytes[..k]))
    {
      assert bytes[..k + 1] == bytes[..k] + [bytes[k]];
      BeNatAppend(bytes[..k], bytes[k]);
      WrapAbsorbs(BeNat(bytes[..k]), 256, bytes[k]);
      ShiftThenOr(x, bytes[k]);
      x := WrapInt64(x * 256) + bytes[k];
    }
    assert bytes[..|bytes|] == bytes;
    return Some(x);
  }

  /** A left shift by eight clears the low octet, so the OR with the next octet cannot overflow. */
  lemma {:induction false} ShiftThenOr(x: int, b: byte)
    ensures WrapInt64(x * 256) + b == WrapInt64(x * 256 + b)
  {
    var q := (x * 256 + TWO_63) / TWO_64;
    var r := (x * 256 + TWO_63) % TWO_64;
    assert r % 256 == 0 by {
      assert r == 256 * (x + TWO_63 / 256 - q * (TWO_64 / 256));
    }
    ModUnique(x * 256 + b + TWO_63, q, r + b, TWO_64);
  }
}
