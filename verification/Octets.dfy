/** Octets, big-endian numbers and Go's fixed-width wrap-around, shared by the codecs. */
module Octets {

  type byte = x: int | 0 <= x < 256

  type octets = seq<byte>

  datatype Option<+T> = None | Some(value: T)

  /** How an operation ends without a result: with an error that it returns, or with a run-time panic. */
  datatype Failure = Error | Panic

  datatype Outcome<+T> = Ok(value: T) | Fail(how: Failure)

  const TWO_16: int := 0x1_0000
  const TWO_24: int := 0x100_0000
  const TWO_32: int := 0x1_0000_0000
  const TWO_55: int := 0x80_0000_0000_0000
  const TWO_63: int := 0x8000_0000_0000_0000
  const TWO_64: int := 0x1_0000_0000_0000_0000

  predicate IsInt64(i: int) {
    -TWO_63 <= i < TWO_63
  }

  /** The int64 whose bit pattern is the low 64 bits of `x`. */
  function WrapInt64(x: int): (r: int)
    ensures IsInt64(r)
    ensures IsInt64(x) ==> r == x
  {
    (x + TWO_63) % TWO_64 - TWO_63
  }

  /** Wrapping after every step is the same as wrapping once at the end. */
  lemma {:induction false} WrapAbsorbs(x: int, k: int, c: int)
    ensures WrapInt64(WrapInt64(x) * k + c) == WrapInt64(x * k + c)
  {
    var q := (x + TWO_63) / TWO_64;
    assert WrapInt64(x) == x - q * TWO_64;
    assert WrapInt64(x) * k + c == x * k + c - (q * k) * TWO_64 by {
      assert (x - q * TWO_64) * k == x * k - (q * k) * TWO_64;
    }
    WrapShift(x * k + c, q * k);
  }

  lemma {:induction false} WrapShift(x: int, q: int)
    ensures WrapInt64(x - q * TWO_64) == WrapInt64(x)
  {
    ModShift(x + TWO_63, q, TWO_64);
    assert x - q * TWO_64 + TWO_63 == x + TWO_63 - q * TWO_64;
  }

  lemma {:induction false} ModShift(x: int, q: int, m: int)
    requires m > 0
    ensures (x - q * m) % m == x % m
  {
    var d := x / m - q;
    assert x - q * m == d * m + x % m by {
      assert d * m == (x / m) * m - q * m;
    }
    ModUnique(x - q * m, d, x % m, m);
  }

  /** A quotient and a remainder in range are the Euclidean ones. */
  lemma {:induction false} ModUnique(x: int, d: int, r: int, m: int)
    requires 0 <= r < m
    requires x == d * m + r
    ensures x / m == d && x % m == r
  {
    var e := x / m - d;
    assert e * m == r - x % m by {
      assert x == (x / m) * m + x % m;
      assert e * m == (x / m) * m - d * m;
    }
    assert e >= 1 ==> e * m >= m;
    assert e <= -1 ==> e * m <= -m;
  }

  function Pow(b: nat, n: nat): (r: nat)
    requires b > 0
    ensures r > 0
  {
    if n == 0 then 1 else b * Pow(b, n - 1)
  }

  lemma {:induction false} PowMonotone(b: nat, m: nat, n: nat)
    requires b > 0 && m <= n
    ensures Pow(b, m) <= Pow(b, n)
  {
    if m < n {
      PowMonotone(b, m, n - 1);
      TimesAtLeast(b, Pow(b, n - 1));
    }
  }

  lemma {:induction false} TimesAtLeast(b: nat, x: nat)
    requires b > 0
    ensures b * x >= x
  {
  }

  /** The unsigned number that big-endian octets denote. */
  function BeNat(s: octets): (r: nat) {
    if s == [] then 0 else BeNat(s[..|s| - 1]) * 256 + s[|s| - 1]
  }

  lemma {:induction false} BeNatAppend(s: octets, b: byte)
    ensures BeNat(s + [b]) == BeNat(s) * 256 + b
  {
    assert (s + [b])[..|s|] == s;
  }

  lemma {:induction false} BeNatBound(s: octets)
    ensures BeNat(s) < Pow(256, |s|)
  {
    if s != [] {
      BeNatBound(s[..|s| - 1]);
    }
  }

  /** Fixed-width big-endian octets of a number, as `binary.BigEndian.PutUintN` writes them. */
  function BeFixed(x: int, n: nat): (s: octets)
    ensures |s| == n
    decreases n
  {
    if n == 0 then [] else BeFixed(x / 256, n - 1) + [x % 256]
  }

  /** Reading fixed-width octets back gives the number modulo 256^n, for negative numbers too. */
  lemma {:induction false} BeFixedValue(x: int, n: nat)
    ensures BeNat(BeFixed(x, n)) == x % Pow(256, n)
    decreases n
  {
    if n > 0 {
      BeFixedValue(x / 256, n - 1);
      BeNatAppend(BeFixed(x / 256, n - 1), x % 256);
      ModSplit(x, Pow(256, n - 1));
    }
  }

  lemma {:induction false} ModSplit(x: int, p: nat)
    requires p > 0
    ensures x % (256 * p) == (x / 256) % p * 256 + x % 256
  {
    var q, r := (x / 256) / p, (x / 256) % p;
    assert x / 256 == q * p + r;
    assert q * (256 * p) == 256 * (q * p);
    ModUnique(x, q, r * 256 + x % 256, 256 * p);
  }

  /** An in-range unsigned number survives its fixed-width form. */
  lemma {:induction false} BeFixedRoundTrip(x: nat, n: nat)
    requires x < Pow(256, n)
    ensures BeNat(BeFixed(x, n)) == x
  {
    BeFixedValue(x, n);
    ModUnique(x, 0, x, Pow(256, n));
  }

  /** Octets are the fixed-width form of the number they denote. */
  lemma {:induction false} BeNatRoundTrip(s: octets)
    ensures BeFixed(BeNat(s), |s|) == s
  {
    if s != [] {
      BeNatRoundTrip(s[..|s| - 1]);
    }
  }

  /** `copy(d[at:], bs)` on a buffer seen as a sequence. */
  function Put(d: octets, at: nat, bs: octets): (r: octets)
    requires at + |bs| <= |d|
    ensures |r| == |d|
  {
    d[..at] + bs + d[at + |bs|..]
  }

  lemma {:induction false} PutOne(d: octets, at: nat, b: byte)
    requires at < |d|
    ensures Put(d, at, [b]) == d[at := b]
  {
  }

  /** Two writes one behind the other are one write of both. */
  lemma {:induction false} PutPut(d: octets, at: nat, a: octets, b: octets)
    requires at + |a| + |b| <= |d|
    ensures Put(Put(d, at, a), at + |a|, b) == Put(d, at, a + b)
  {
    var m := Put(d, at, a);
    assert m[..at + |a|] == d[..at] + a;
    assert m[at + |a| + |b|..] == d[at + |a| + |b|..];
    assert d[..at] + a + b == d[..at] + (a + b);
  }

  lemma {:induction false} PutNothing(d: octets, at: nat)
    requires at <= |d|
    ensures Put(d, at, []) == d
  {
  }

  lemma {:induction false} PutAll(d: octets, bs: octets)
    requires |d| == |bs|
    ensures Put(d, 0, bs) == bs
  {
  }

  /** Filling a buffer from its last octet towards its first. */
  lemma {:induction false} PutBefore(d: octets, at: nat, b: byte, bs: octets)
    requires at + 1 + |bs| <= |d|
    ensures Put(d, at + 1, bs)[at := b] == Put(d, at, [b] + bs)
  {
  }

  lemma {:induction false} PowValues()
    ensures Pow(256, 0) == 1 && Pow(256, 1) == 256 && Pow(256, 2) == TWO_16
    ensures Pow(256, 3) == TWO_24 && Pow(256, 4) == TWO_32 && Pow(256, 8) == TWO_64
    ensures Pow(128, 9) == TWO_63
  {
    assert Pow(256, 1) == 256 * Pow(256, 0);
    assert Pow(256, 2) == 256 * Pow(256, 1);
    assert Pow(256, 3) == 256 * Pow(256, 2);
    assert Pow(256, 4) == 256 * Pow(256, 3);
    assert Pow(256, 5) == 256 * Pow(256, 4);
    assert Pow(256, 6) == 256 * Pow(256, 5);
    assert Pow(256, 7) == 256 * Pow(256, 6);
    assert Pow(128, 1) == 128 * Pow(128, 0);
    assert Pow(128, 2) == 128 * Pow(128, 1);
    assert Pow(128, 3) == 128 * Pow(128, 2);
    assert Pow(128, 4) == 128 * Pow(128, 3);
    assert Pow(128, 5) == 128 * Pow(128, 4);
    assert Pow(128, 6) == 128 * Pow(128, 5);
    assert Pow(128, 7) == 128 * Pow(128, 6);
    assert Pow(128, 8) == 128 * Pow(128, 7);
  }

  // ---------------------------------------------------------------- slices of slices

  lemma {:induction false} SlicePrefix<T>(s: seq<T>, n: nat, a: nat, b: nat)
    requires a <= b <= n <= |s|
    ensures s[..n][a..b] == s[a..b]
  {
  }

  lemma {:induction false} SliceShorter<T>(s: seq<T>, off: nat, n: nat, k: nat)
    requires k <= n && off + n <= |s|
    ensures s[off..off + k] == s[off..off + n][..k]
    ensures k < n ==> s[off + k] == s[off..off + n][k]
  {
  }

  lemma {:induction false} SliceInner<T>(s: seq<T>, off: nat, n: nat, k: nat)
    requires k <= n && off + n <= |s|
    ensures s[off + k..off + n] == s[off..off + n][k..]
  {
  }

  lemma {:induction false} Regroup<T>(a: seq<T>, b: seq<T>, c: seq<T>)
    ensures a + (b + c) == a + b + c
  {
  }

  lemma {:induction false} HeadTail<T>(s: seq<T>, k: nat)
    requires k < |s|
    ensures [s[k]] + s[k + 1..] == s[k..]
  {
  }

  lemma {:induction false} PrefixLast<T>(s: seq<T>, k: nat)
    requires 0 < k <= |s|
    ensures s[..k][k - 1] == s[k - 1] && s[..k][..k - 1] == s[..k - 1]
  {
  }
}
