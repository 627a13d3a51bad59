/** 5G-GUTIs: how the AMF writes them, and how it rebuilds one from the 5G-S-TMSI that a RAN sends. */
module Guti {
  import opened Octets

  const DIGITS: string := "0123456789abcdef"

  type nibble = x: int | 0 <= x < 16

  function Digit(n: nibble): char { DIGITS[n] }

  /** The value of a hexadecimal digit of either case. */
  function DigitValue(c: char): Option<nibble> {
    if '0' <= c <= '9' then Some(c as int - '0' as int)
    else if 'a' <= c <= 'f' then Some(c as int - 'a' as int + 10)
    else if 'A' <= c <= 'F' then Some(c as int - 'A' as int + 10)
    else None
  }

  predicate IsHex(s: string) { forall n :: 0 <= n < |s| ==> DigitValue(s[n]).Some? }

  predicate IsLower(s: string) { forall n :: 0 <= n < |s| ==> !('A' <= s[n] <= 'F') }

  /** `hex.EncodeToString`. */
  function Hex(b: octets): string { if b == [] then "" else [Digit(b[0] / 16), Digit(b[0] % 16)] + Hex(b[1..]) }

  function Octet(hi: char, lo: char): byte
    requires DigitValue(hi).Some? && DigitValue(lo).Some?
  {
    DigitValue(hi).value * 16 + DigitValue(lo).value
  }

  /** The minimal hexadecimal digits of a number, as `%x` prints them. */
  function MinHex(n: nat): string {
    if n < 16 then [Digit(n)] else MinHex(n / 16) + [Digit(n % 16)]
  }

  function Zeros(k: nat): string { seq(k, _ => '0') }

  /** `%08x`: padded with zeros to eight characters, the sign included. */
  function Padded(n: int): string {
    if n < 0 then "-" + (if |MinHex(-n)| < 7 then Zeros(7 - |MinHex(-n)|) else "") + MinHex(-n)
    else (if |MinHex(n)| < 8 then Zeros(8 - |MinHex(n)|) else "") + MinHex(n)
  }

  /** The AMF's identity as configured: PLMN digits and six hexadecimal digits of region, set and pointer. */
  datatype Guami = Guami(mcc: string, mnc: string, amfId: string)

  predicate WellFormed(g: Guami) { |g.amfId| == 6 && IsHex(g.amfId) }

  /** `AllocateGutiToUe`, for the TMSI allocated. */
  function Allocated(g: Guami, tmsi: int): string { g.mcc + g.mnc + g.amfId + Padded(tmsi) }

  /** The bit strings that carry an AMF identity: set and pointer are left-aligned. */
  datatype Parts = Parts(region: octets, set_: octets, pointer: octets)

  /** `AmfIdToNgap`: 8 bits of region, 10 of set, 6 of pointer. */
  function Split(g: Guami): (p: Parts)
    requires WellFormed(g)
    ensures |p.region| == 1 && |p.set_| == 2 && |p.pointer| == 1
  {
    var hi, lo := Octet(g.amfId[2], g.amfId[3]), Octet(g.amfId[4], g.amfId[5]);
    Parts([Octet(g.amfId[0], g.amfId[1])], [hi, lo / 64 * 64], [lo % 64 * 4])
  }

  /** The octets of the set and pointer as the initial UE message is read: bit 6 and 7 of the second set octet, and the
      pointer moved down by two. */
  function SetPointer(set_: octets, pointer: octets): (b: octets)
    requires |set_| == 2 && |pointer| == 1
    ensures |b| == 2
  {
    [set_[0], set_[1] / 64 * 64 + pointer[0] / 4]
  }

  /** The key that the initial UE message handler looks up, for a 5G-S-TMSI that names this AMF. */
  function Rebuilt(g: Guami, set_: octets, pointer: octets, tmsi: octets): string
    requires WellFormed(g) && |set_| == 2 && |pointer| == 1
  {
    g.mcc + g.mnc + Hex(Split(g).region) + (Hex(SetPointer(set_, pointer)) + Hex(tmsi))
  }

  // ---- The bits of an AMF identity and the digits of a TMSI ----

  /** The number that hexadecimal digits denote, the first digit the highest. */
  function HexNumber(s: string): nat
    requires IsHex(s)
  {
    if s == [] then 0 else HexNumber(s[..|s| - 1]) * 16 + DigitValue(s[|s| - 1]).value
  }

  lemma {:induction false} HexNumberOne(s: string, c: char)
    requires IsHex(s) && DigitValue(c).Some?
    ensures IsHex(s + [c]) && HexNumber(s + [c]) == HexNumber(s) * 16 + DigitValue(c).value
  {
    assert (s + [c])[..|s|] == s;
  }

  lemma {:induction false} SixDigits(s: string)
    requires |s| == 6 && IsHex(s)
    ensures HexNumber(s) == Octet(s[0], s[1]) * 0x1_0000 + Octet(s[2], s[3]) * 0x100 + Octet(s[4], s[5])
  {
    hide DigitValue;
    assert s[..0] == [] && s[..6] == s;
    assert s[..1] == s[..0] + [s[0]] && s[..2] == s[..1] + [s[1]] && s[..3] == s[..2] + [s[2]];
    assert s[..4] == s[..3] + [s[3]] && s[..5] == s[..4] + [s[4]] && s[..6] == s[..5] + [s[5]];
    HexNumberOne(s[..0], s[0]);
    HexNumberOne(s[..1], s[1]);
    HexNumberOne(s[..2], s[2]);
    HexNumberOne(s[..3], s[3]);
    HexNumberOne(s[..4], s[4]);
    HexNumberOne(s[..5], s[5]);
  }

  /** The parts of an AMF identity: region its upper 8 bits, set the 10 bits behind them at the upper end of 16, pointer the
      6 bits that are left at the upper end of 8. */
  lemma {:induction false} SplitBits(g: Guami)
    requires WellFormed(g)
    ensures var n, p := HexNumber(g.amfId), Split(g);
            && n < 0x100_0000 && p.region[0] == n / 0x1_0000
            && BeNat(p.set_) == n / 64 % 1024 * 64 && p.pointer[0] == n % 64 * 4
  {
    hide DigitValue, HexNumber;
    SixDigits(g.amfId);
    var p := Split(g);
    TwoOctets(p.set_);
    FieldsOf(Octet(g.amfId[0], g.amfId[1]), Octet(g.amfId[2], g.amfId[3]), Octet(g.amfId[4], g.amfId[5]));
  }

  lemma {:induction false} FieldsOf(a: byte, b: byte, c: byte)
    ensures var n := a * 0x1_0000 + b * 0x100 + c;
            n < 0x100_0000 && n / 0x1_0000 == a && n / 64 % 1024 == b * 4 + c / 64 && n % 64 == c % 64
  {
    var n := a * 0x1_0000 + b * 0x100 + c;
    ModUnique(n, a, b * 0x100 + c, 0x1_0000);
    ModUnique(n, a * 1024 + b * 4 + c / 64, c % 64, 64);
    ModUnique(n / 64, a, b * 4 + c / 64, 1024);
  }

  lemma {:induction false} TwoOctets(s: octets)
    requires |s| == 2
    ensures BeNat(s) == s[0] as int * 256 + s[1] as int
  {
    var one: octets := [s[0]];
    assert [] + one == one && s == one + [s[1]];
    BeNatAppend([], s[0]);
    BeNatAppend(one, s[1]);
  }

  /** Put together again: the 10 upper bits of the set's 16, and the 6 upper bits of the pointer's 8. */
  lemma {:induction false} SetPointerBits(set_: octets, pointer: octets)
    requires |set_| == 2 && |pointer| == 1
    ensures BeNat(SetPointer(set_, pointer)) == BeNat(set_) / 64 * 64 + pointer[0] / 4
  {
    TwoOctets(set_);
    TwoOctets(SetPointer(set_, pointer));
  }

  lemma {:induction false} DigitsRead(n: nat)
    ensures IsHex(MinHex(n)) && HexNumber(MinHex(n)) == n
  {
    DigitRead(n % 16);
    if n < 16 {
      HexNumberOne([], Digit(n));
      assert [] + [Digit(n)] == [Digit(n)];
    } else {
      DigitsRead(n / 16);
      HexNumberOne(MinHex(n / 16), Digit(n % 16));
    }
  }

  lemma {:induction false} DigitRead(n: nibble)
    ensures DigitValue(Digit(n)) == Some(n)
  {
  }

  lemma {:induction false} LeadingZeros(k: nat, s: string)
    requires IsHex(s)
    ensures IsHex(Zeros(k) + s) && HexNumber(Zeros(k) + s) == HexNumber(s)
    decreases |s|, k
  {
    if s == [] {
      if k > 0 {
        LeadingZeros(k - 1, []);
        HexNumberOne(Zeros(k - 1) + [], '0');
        assert Zeros(k) + [] == Zeros(k - 1) + [] + ['0'];
      } else {
        assert Zeros(0) + [] == [];
      }
    } else {
      var front, c := s[..|s| - 1], s[|s| - 1];
      LeadingZeros(k, front);
      HexNumberOne(Zeros(k) + front, c);
      assert Zeros(k) + s == Zeros(k) + front + [c];
    }
  }

  /** A GUTI is the PLMN's digits, the AMF's identity and eight digits that denote the TMSI. */
  lemma {:induction false} GutiShape(g: Guami, tmsi: nat)
    requires tmsi < TWO_32
    ensures var s, n := Allocated(g, tmsi), |g.mcc| + |g.mnc| + |g.amfId|;
            && |s| == n + 8 && s[..n] == g.mcc + g.mnc + g.amfId
            && IsHex(s[n..]) && HexNumber(s[n..]) == tmsi
  {
    hide MinHex, HexNumber;
    PaddedTmsi(tmsi);
    DigitsRead(tmsi);
    LeadingZeros(if |MinHex(tmsi)| < 8 then 8 - |MinHex(tmsi)| else 0, MinHex(tmsi));
    var s, n := Allocated(g, tmsi), |g.mcc| + |g.mnc| + |g.amfId|;
    assert s[n..] == Padded(tmsi);
    assert "" + MinHex(tmsi) == MinHex(tmsi) == Zeros(0) + MinHex(tmsi);
  }

  // ---- Hexadecimal digits ----

  lemma {:induction false} HexAppend(a: octets, b: octets)
    ensures Hex(a + b) == Hex(a) + Hex(b)
  {
    if a == [] {
      assert a + b == b;
    } else {
      assert (a + b)[1..] == a[1..] + b;
      HexAppend(a[1..], b);
    }
  }

  lemma {:induction false} HexOne(b: byte)
    ensures Hex([b]) == [Digit(b / 16), Digit(b % 16)]
  {
  }

  /** Writing a digit back gives the character read, unless it was an upper-case one. */
  lemma {:induction false} DigitBack(c: char)
    requires DigitValue(c).Some?
    ensures Digit(DigitValue(c).value) == c <==> !('A' <= c <= 'F')
  {
    var v := DigitValue(c).value;
    assert v < 10 ==> Digit(v) as int == '0' as int + v;
    assert v >= 10 ==> Digit(v) as int == 'a' as int + v - 10;
  }

  lemma {:induction false} OctetBack(hi: char, lo: char)
    requires DigitValue(hi).Some? && DigitValue(lo).Some?
    ensures |Hex([Octet(hi, lo)])| == 2
    ensures Hex([Octet(hi, lo)]) == [hi, lo] <==> !('A' <= hi <= 'F') && !('A' <= lo <= 'F')
  {
    hide DigitValue;
    var h, l := DigitValue(hi).value, DigitValue(lo).value;
    HexOne(Octet(hi, lo));
    assert Octet(hi, lo) / 16 == h && Octet(hi, lo) % 16 == l;
    DigitBack(hi);
    DigitBack(lo);
  }

  lemma {:induction false} MinHexStep(n: nat)
    ensures n < 16 ==> MinHex(n) == [Digit(n)]
    ensures 16 <= n < 256 ==> MinHex(n) == [Digit(n / 16), Digit(n % 16)]
    ensures n >= 256 ==> MinHex(n) == MinHex(n / 256) + [Digit(n / 16 % 16), Digit(n % 16)]
  {
    assert n / 16 / 16 == n / 256;
    if 16 <= n < 256 {
      assert MinHex(n / 16) == [Digit(n / 16)];
    } else if n >= 256 {
      assert MinHex(n / 16) == MinHex(n / 256) + [Digit(n / 16 % 16)];
    }
  }

  lemma {:induction false} HexLast(n: nat, k: nat)
    requires k > 0
    ensures Hex(BeFixed(n, k)) == Hex(BeFixed(n / 256, k - 1)) + [Digit(n / 16 % 16), Digit(n % 16)]
  {
    hide Hex, Digit;
    HexAppend(BeFixed(n / 256, k - 1), [n % 256]);
    HexOne(n % 256);
    DigitsOfOctet(n);
  }

  lemma {:induction false} DigitsOfOctet(n: nat)
    ensures n % 256 / 16 == n / 16 % 16 && n % 256 % 16 == n % 16
  {
    var q, r := n / 256, n % 256;
    assert n == 256 * q + r;
    assert n / 16 == 16 * q + r / 16;
  }

  /** Padded to the width of `k` octets, the minimal digits are the digits of those octets. */
  lemma {:induction false} PaddedOctets(n: nat, k: nat)
    requires k > 0 && n < Pow(256, k)
    ensures |MinHex(n)| <= 2 * k && Zeros(2 * k - |MinHex(n)|) + MinHex(n) == Hex(BeFixed(n, k))
    decreases k
  {
    hide MinHex, Hex, BeFixed, Digit;
    HexLast(n, k);
    MinHexStep(n);
    if n < 256 {
      ZeroOctets(k - 1);
      assert n < 16 ==> Zeros(2 * k - 1) == Zeros(2 * k - 2) + [Digit(0)] && n / 16 % 16 == 0 by {
        ZeroDigit();
      }
    } else {
      PaddedOctets(n / 256, k - 1);
    }
  }

  lemma {:induction false} ZeroDigit()
    ensures Digit(0) == '0'
  {
  }

  lemma {:induction false} ZeroOctets(k: nat)
    ensures Hex(BeFixed(0, k)) == Zeros(2 * k)
    decreases k
  {
    if k > 0 {
      ZeroOctets(k - 1);
      HexAppend(BeFixed(0, k - 1), [0]);
      HexOne(0);
      assert Zeros(2 * k) == Zeros(2 * k - 2) + ['0', '0'];
    }
  }

  lemma {:induction false} PaddedTmsi(tmsi: nat)
    requires tmsi < TWO_32
    ensures Padded(tmsi) == Hex(BeFixed(tmsi, 4)) && |Padded(tmsi)| == 8
  {
    PowValues();
    PaddedOctets(tmsi, 4);
  }

  // ---- The round trip ----

  /** Six hexadecimal digits, split into bit strings and put together again, come back in lower case. */
  lemma {:induction false} SplitBack(g: Guami)
    requires WellFormed(g)
    ensures var p := Split(g);
            var back := Hex(p.region) + Hex(SetPointer(p.set_, p.pointer));
            |back| == 6 && (back == g.amfId <==> IsLower(g.amfId))
  {
    hide DigitValue, Hex, Octet;
    var p, id := Split(g), g.amfId;
    var hi, lo := Octet(id[2], id[3]), Octet(id[4], id[5]);
    SetPointerBack(hi, lo);
    HexAppend([hi], [lo]);
    OctetBack(id[0], id[1]);
    OctetBack(id[2], id[3]);
    OctetBack(id[4], id[5]);
    ThreePairs(id, Hex(p.region), Hex([hi]), Hex([lo]));
    assert Hex(p.region) + Hex(SetPointer(p.set_, p.pointer)) == Hex(p.region) + Hex([hi]) + Hex([lo]);
  }

  lemma {:induction false} SetPointerBack(hi: byte, lo: byte)
    ensures SetPointer([hi, lo / 64 * 64], [lo % 64 * 4]) == [hi] + [lo]
  {
  }

  lemma {:induction false} ThreePairs(id: string, a: string, b: string, c: string)
    requires |id| == 6 && |a| == 2 && |b| == 2 && |c| == 2
    ensures a + b + c == id <==> a == [id[0], id[1]] && b == [id[2], id[3]] && c == [id[4], id[5]]
  {
    var s := a + b + c;
    assert a == s[..2] && b == s[2..4] && c == s[4..];
    assert id == [id[0], id[1]] + [id[2], id[3]] + [id[4], id[5]];
    if s == id {
      assert a == [id[0], id[1]] && b == [id[2], id[3]] && c == [id[4], id[5]];
    }
  }

  /** The key rebuilt from a 5G-S-TMSI is the GUTI that the AMF allocated exactly when its configured AMF identity is in
      lower case. */
  lemma {:induction false} GutiRoundTrip(g: Guami, tmsi: nat)
    requires WellFormed(g) && tmsi < TWO_32
    ensures Rebuilt(g, Split(g).set_, Split(g).pointer, BeFixed(tmsi, 4)) == Allocated(g, tmsi) <==> IsLower(g.amfId)
  {
    hide Split, SetPointer, Padded, Hex, IsLower;
    var p := Split(g);
    SplitBack(g);
    PaddedTmsi(tmsi);
    Middle(g.mcc + g.mnc, Hex(p.region) + Hex(SetPointer(p.set_, p.pointer)), g.amfId, Padded(tmsi));
    assert Rebuilt(g, p.set_, p.pointer, BeFixed(tmsi, 4))
           == g.mcc + g.mnc + (Hex(p.region) + Hex(SetPointer(p.set_, p.pointer))) + Padded(tmsi);
  }

  lemma {:induction false} Middle(a: string, b: string, b': string, c: string)
    requires |b| == |b'|
    ensures a + b + c == a + b' + c <==> b == b'
  {
    assert (a + b + c)[|a|..|a| + |b|] == b;
    assert (a + b' + c)[|a|..|a| + |b|] == b';
  }

  /** A failed allocation leaves a GUTI that no 5G-S-TMSI leads to. */
  lemma {:induction false} FailedAllocation(g: Guami, set_: octets, pointer: octets, tmsi: octets)
    requires WellFormed(g) && |set_| == 2 && |pointer| == 1 && |tmsi| == 4
    ensures Rebuilt(g, set_, pointer, tmsi) != Allocated(g, -1)
  {
    var a, r := Allocated(g, -1), Rebuilt(g, set_, pointer, tmsi);
    var n := |g.mcc + g.mnc| + 6;
    assert Padded(-1)[0] == '-' && a[n] == '-';
    HexDigits(tmsi);
    HexDigits(Split(g).region);
    HexDigits(SetPointer(set_, pointer));
    assert r[n] == Hex(tmsi)[0];
  }

  lemma {:induction false} HexDigits(b: octets)
    ensures |Hex(b)| == 2 * |b| && forall n :: 0 <= n < |Hex(b)| ==> Hex(b)[n] != '-'
  {
    if b != [] {
      HexDigits(b[1..]);
      assert forall d: nibble :: Digit(d) != '-';
    }
  }

  lemma {:induction false} HexInjective(a: octets, b: octets)
    requires Hex(a) == Hex(b)
    ensures a == b
  {
    HexDigits(a);
    HexDigits(b);
    if a != [] {
      assert Hex(a)[0] == Hex(b)[0] && Hex(a)[1] == Hex(b)[1];
      assert Hex(a)[2..] == Hex(a[1..]) && Hex(b)[2..] == Hex(b[1..]);
      DigitInjective(a[0] / 16, b[0] / 16);
      DigitInjective(a[0] % 16, b[0] % 16);
      assert a[0] == b[0];
      HexInjective(a[1..], b[1..]);
      assert a == [a[0]] + a[1..] && b == [b[0]] + b[1..];
    }
  }

  lemma {:induction false} DigitInjective(a: nibble, b: nibble)
    requires Digit(a) == Digit(b)
    ensures a == b
  {
    assert DigitValue(Digit(a)) == Some(a);
    assert DigitValue(Digit(b)) == Some(b);
  }

  /** Distinct TMSIs give distinct GUTIs. */
  lemma {:induction false} GutisDiffer(g: Guami, tmsi: nat, tmsi': nat)
    requires tmsi < TWO_32 && tmsi' < TWO_32
    ensures Allocated(g, tmsi) == Allocated(g, tmsi') <==> tmsi == tmsi'
  {
    hide Padded;
    var plmn := g.mcc + g.mnc + g.amfId;
    if Allocated(g, tmsi) == Allocated(g, tmsi') {
      assert Allocated(g, tmsi)[|plmn|..] == Padded(tmsi) && Allocated(g, tmsi')[|plmn|..] == Padded(tmsi');
      PaddedTmsi(tmsi);
      PaddedTmsi(tmsi');
      HexInjective(BeFixed(tmsi, 4), BeFixed(tmsi', 4));
      PowValues();
      BeFixedRoundTrip(tmsi, 4);
      BeFixedRoundTrip(tmsi', 4);
    }
  }

  // ---- The lookup ----

  datatype Ue = Ue(supi: string, tmsi: int, guti: string)

  /** `AmfUeFindByGuti`: the first UE with the GUTI, in whatever order the pool is ranged over. */
  method FindByGuti(pool: seq<Ue>, guti: string) returns (found: Option<nat>)
    ensures found.Some? ==> found.value < |pool| && pool[found.value].guti == guti
                            && forall n :: 0 <= n < found.value ==> pool[n].guti != guti
    ensures found.None? ==> forall n :: 0 <= n < |pool| ==> pool[n].guti != guti
  {
    for n := 0 to |pool|
      invariant forall m :: 0 <= m < n ==> pool[m].guti != guti
    {
      if pool[n].guti == guti {
        return Some(n);
      }
    }
    found := None;
  }

  /** Every UE of the pool has the GUTI that this AMF allocated with its TMSI, and no two share a TMSI. */
  ghost predicate Pooled(pool: seq<Ue>, g: Guami) {
    && (forall n :: 0 <= n < |pool| ==> 0 <= pool[n].tmsi < TWO_32 && pool[n].guti == Allocated(g, pool[n].tmsi))
    && (forall n, m :: 0 <= n < |pool| && 0 <= m < |pool| && pool[n].tmsi == pool[m].tmsi ==> n == m)
  }

  /** The first UE whose GUTI is the rebuilt key, or none if there is none. A UE that sends its 5G-S-TMSI is found, and no
      other in its place, in whatever order the pool is ranged over; a TMSI that nobody has finds nobody. */
  method FindBySTmsi(pool: seq<Ue>, g: Guami, set_: octets, pointer: octets, tmsi: octets) returns (found: Option<nat>)
    requires WellFormed(g) && |set_| == 2 && |pointer| == 1 && |tmsi| == 4
    ensures found.Some? ==> found.value < |pool| && pool[found.value].guti == Rebuilt(g, set_, pointer, tmsi)
    ensures found.None? ==> forall n :: 0 <= n < |pool| ==> pool[n].guti != Rebuilt(g, set_, pointer, tmsi)
    ensures Pooled(pool, g) && IsLower(g.amfId) && set_ == Split(g).set_ && pointer == Split(g).pointer ==>
              forall n :: 0 <= n < |pool| ==> (found == Some(n) <==> tmsi == BeFixed(pool[n].tmsi, 4))
  {
    hide Split, Rebuilt, Allocated, WellFormed;
    found := FindByGuti(pool, Rebuilt(g, set_, pointer, tmsi));
    if Pooled(pool, g) && IsLower(g.amfId) && set_ == Split(g).set_ && pointer == Split(g).pointer {
      var t := BeNat(tmsi);
      PowValues();
      BeNatBound(tmsi);
      BeNatRoundTrip(tmsi);
      GutiRoundTrip(g, t);
      if found.Some? {
        GutisDiffer(g, t, pool[found.value].tmsi);
      }
      forall n | 0 <= n < |pool|
        ensures found == Some(n) <==> tmsi == BeFixed(pool[n].tmsi, 4)
      {
        BeFixedRoundTrip(pool[n].tmsi, 4);
        GutisDiffer(g, t, pool[n].tmsi);
      }
    }
  }
}
