/** Identifier and length octets: `appendTagAndLen` and `parseTagAndLength`. */
module BerHeader {
  import opened Octets
  import BerInteger

  datatype Header = Header(cls: nat, constructed: bool, tag: nat, len: nat)

  /** A header the encoder can be given: two class bits, an unsigned 64-bit tag number. */
  predicate IsHeader(h: Header) {
    h.cls < 4 && h.tag < TWO_64
  }

  /** A header that fits what the parser accepts: nine tag octets and three length octets. */
  predicate Readable(h: Header) {
    h.cls < 4 && h.tag < TWO_63 && h.len < TWO_24
  }

  // ---------------------------------------------------------------- encoding

  /** Base-128 octets of `n`, each with the continuation bit set. */
  function Continued(n: nat): (s: octets)
    ensures |s| > 0
  {
    if n <= 127 then [n + 128] else Continued(n / 128) + [n % 128 + 128]
  }

  /** Base-128 octets of a high tag number: the last one has the continuation bit clear. */
  function HighTag(n: nat): (s: octets)
    ensures |s| > 0
  {
    if n <= 127 then [n] else Continued(n / 128) + [n % 128]
  }

  /** The shortest big-endian octets of `n`. */
  function BeShortest(n: nat): (s: octets)
    ensures |s| > 0
  {
    if n <= 255 then [n] else BeShortest(n / 256) + [n % 256]
  }

  function LeadOctet(h: Header): byte
    requires IsHeader(h)
  {
    h.cls * 64 + (if h.constructed then 32 else 0) + (if h.tag <= 30 then h.tag else 31)
  }

  function TagOctets(h: Header): octets
    requires IsHeader(h)
  {
    [LeadOctet(h)] + (if h.tag <= 30 then [] else HighTag(h.tag))
  }

  function LengthOctets(len: nat): octets
    requires len < TWO_63
  {
    if len <= 127 then [len] else
      BeShortestSize(len, 8);
      [128 + |BeShortest(len)|] + BeShortest(len)
  }

  function HeaderOctets(h: Header): octets
    requires IsHeader(h) && h.len < TWO_63
  {
    TagOctets(h) + LengthOctets(h.len)
  }

  lemma {:induction false} BeShortestSize(n: nat, k: nat)
    requires k > 0
    requires n < Pow(256, k) || (k == 8 && n < TWO_63)
    ensures |BeShortest(n)| <= k
    decreases k
  {
    PowValues();
    if n > 255 {
      assert Pow(256, k) == 256 * Pow(256, k - 1);
      assert Pow(256, 0) == 1;
      BeShortestSize(n / 256, k - 1);
    }
  }

  lemma {:induction false} HighTagSize(n: nat, k: nat)
    requires k > 0 && n < Pow(128, k)
    ensures |HighTag(n)| <= k && |Continued(n)| <= k
    decreases k
  {
    if n > 127 {
      assert Pow(128, k) == 128 * Pow(128, k - 1);
      assert Pow(128, 0) == 1;
      HighTagSize(n / 128, k - 1);
    }
  }

  lemma {:induction false} BeShortestValue(n: nat)
    ensures BeNat(BeShortest(n)) == n
  {
    if n > 255 {
      BeShortestValue(n / 256);
      BeNatAppend(BeShortest(n / 256), n % 256);
    } else {
      BeNatAppend([], n);
      assert [] + [n as byte] == [n];
    }
  }

  lemma {:induction false} ContinuedEnds(n: nat)
    ensures var s := Continued(n);
            && s[|s| - 1] == n % 128 + 128
            && (|s| > 1 ==> Continued(n / 128) == s[..|s| - 1])
  {
  }

  lemma {:induction false} ShortestEnds(n: nat)
    ensures var s := BeShortest(n);
            && s[|s| - 1] == n % 256
            && (|s| > 1 ==> BeShortest(n / 256) == s[..|s| - 1])
  {
  }

  /** Makes room for the tag octets and fills it from the last one, all with the continuation bit. */
  method FillTag(lead: octets, n: nat, number: nat) returns (dst: octets)
    requires n == |Continued(number)|
    ensures dst == lead + Continued(number)
  {
    hide Put, Continued;
    var offset, tag := |lead|, number;
    dst := lead + ZeroOctets(n);
    ghost var room, full := dst, Continued(number);
    PutNothing(room, offset + n);
    assert full[n..] == [];
    for i := 0 to n
      invariant i == n || (tag >= 0 && Continued(tag) == full[..n - i])
      invariant dst == Put(room, offset + n - i, full[n - i..])
    {
      ContinuedEnds(tag);
      PrefixLast(full, n - i);
      PutBefore(room, offset + n - i - 1, tag % 128 + 128, full[n - i..]);
      HeadTail(full, n - i - 1);
      dst := dst[n - 1 - i + offset := tag % 128 + 128];
      tag := tag / 128;
    }
    assert full[0..] == full;
    PutRoom(lead, ZeroOctets(n), full);
  }

  lemma {:induction false} PutRoom(lead: octets, blank: octets, full: octets)
    requires |blank| == |full|
    ensures Put(lead + blank, |lead|, full) == lead + full
  {
  }

  /** Counts the base-128 digits, fills them in and clears the last continuation bit. */
  method AppendHighTag(lead: octets, number: nat) returns (dst: octets)
    ensures dst == lead + HighTag(number)
  {
    var n, tmp := 1, number;
    while tmp > 127
      invariant tmp >= 0 && n - 1 + |Continued(tmp)| == |Continued(number)|
    {
      n, tmp := n + 1, tmp / 128;
    }
    dst := FillTag(lead, n, number);
    var last := n - 1 + |lead|;
    ContinuedEnds(number);
    dst := dst[last := dst[last] % 128];
    assert HighTag(number) == Continued(number)[n - 1 := number % 128];
  }

  /** Makes room for the length octets and fills it from the last one. */
  method FillLength(lead: octets, n: nat, length: nat) returns (dst: octets)
    requires n == |BeShortest(length)|
    ensures dst == lead + BeShortest(length)
  {
    hide Put, BeShortest;
    var offset, len := |lead|, length;
    dst := lead + ZeroOctets(n);
    ghost var room, full := dst, BeShortest(length);
    PutNothing(room, offset + n);
    assert full[n..] == [];
    for i := 0 to n
      invariant i == n || (len >= 0 && BeShortest(len) == full[..n - i])
      invariant dst == Put(room, offset + n - i, full[n - i..])
    {
      ShortestEnds(len);
      PrefixLast(full, n - i);
      PutBefore(room, offset + n - i - 1, len % 256, full[n - i..]);
      HeadTail(full, n - i - 1);
      dst := dst[n - 1 - i + offset := len % 256];
      len := len / 256;
    }
    assert full[0..] == full;
    PutRoom(lead, ZeroOctets(n), full);
  }

  /** The long form: the number of length octets, then the octets. */
  method AppendLongLength(lead: octets, length: nat) returns (dst: octets)
    requires 127 < length < TWO_63
    ensures dst == lead + LengthOctets(length)
  {
    var n, tmp := 1, length;
    while tmp > 255
      invariant tmp >= 0 && n - 1 + |BeShortest(tmp)| == |BeShortest(length)|
    {
      n, tmp := n + 1, tmp / 256;
    }
    BeShortestSize(length, 8);
    dst := FillLength(lead + [n + 128], n, length);
  }

  method AppendTagAndLen(h: Header) returns (dst: octets)
    requires IsHeader(h) && h.len < TWO_63
    ensures dst == HeaderOctets(h)
  {
    dst := [LeadOctet(h)];
    if h.tag > 30 {
      dst := AppendHighTag(dst, h.tag);
    }
    if h.len <= 127 {
      dst := dst + [h.len];
    } else {
      dst := AppendLongLength(dst, h.len);
    }
  }

  function ZeroOctets(n: nat): (s: octets)
    ensures |s| == n
  {
    seq(n, i => 0)
  }

  // ---------------------------------------------------------------- parsing

  datatype Parsed = Parsed(header: Header, size: nat) | Malformed(how: Failure)

  /** A uint64 shifted left by seven bits. */
  function Shift7(acc: nat): nat {
    acc * 128 % TWO_64
  }

  lemma {:induction false} Shift7Small(n: nat)
    requires n < TWO_63
    ensures Shift7(n / 128) + n % 128 == n
  {
  }

  /** The tag loop: accumulates seven bits an octet in a uint64 until the continuation bit is clear or the octets end. */
  function TagLoop(bytes: octets, off: nat, acc: nat): (r: (nat, nat))
    requires off <= |bytes|
    ensures off <= r.1 <= |bytes|
    decreases |bytes| - off
  {
    if off == |bytes| then (acc, off)
    else
      var acc' := Shift7(acc) + bytes[off] % 128;
      if bytes[off] < 128 then (acc', off + 1) else TagLoop(bytes, off + 1, acc')
  }

  /** The length octets; announcing more than there are is a slice out of range. */
  function ParseLength(bytes: octets, off: nat): Outcome<(nat, nat)>
  {
    if off >= |bytes| then Fail(Error)
    else if bytes[off] <= 127 then Ok((bytes[off], off + 1))
    else
      var n := bytes[off] - 128;
      if n > 3 then Fail(Error)
      else if off + 1 + n > |bytes| then Fail(Panic)
      else Ok((BeNat(bytes[off + 1..off + 1 + n]), off + 1 + n))
  }

  function ParseHeader(bytes: octets): (r: Parsed)
    ensures r.Parsed? ==> 2 <= r.size <= |bytes|
  {
    if bytes == [] then Malformed(Panic)
    else
      var cls, constructed := bytes[0] / 64, bytes[0] / 32 % 2 == 1;
      var (tag, off) := if bytes[0] % 32 != 31 then (bytes[0] % 32, 1) else TagLoop(bytes, 1, 0);
      if bytes[0] % 32 == 31 && off > 10 then Malformed(Error)
      else
        match ParseLength(bytes, off)
        case Fail(how) => Malformed(how)
        case Ok((len, end)) => Parsed(Header(cls, constructed, tag, len), end)
  }

  /** The cursor form of the parser computes `ParseHeader`. */
  method ParseTagAndLength(bytes: octets) returns (r: Parsed)
    ensures r == ParseHeader(bytes)
  {
    if |bytes| == 0 {
      return Malformed(Panic);
    }
    var off := 1;
    var tag := 0;
    if bytes[0] % 32 != 31 {
      tag := bytes[0] % 32;
    } else {
      var last := false;
      while off < |bytes| && !last
        invariant 1 <= off <= |bytes| && tag >= 0
        invariant TagLoop(bytes, 1, 0) == if last then (tag, off) else TagLoop(bytes, off, tag)
        decreases |bytes| - off
      {
        tag := Shift7(tag) + bytes[off] % 128;
        off := off + 1;
        last := bytes[off - 1] < 128;
      }
      if off > 10 {
        return Malformed(Error);
      }
    }
    if off >= |bytes| {
      return Malformed(Error);
    }
    var len;
    if bytes[off] <= 127 {
      len := bytes[off];
      off := off + 1;
    } else {
      var n := bytes[off] - 128;
      if n > 3 {
        return Malformed(Error);
      }
      if off + 1 + n > |bytes| {
        return Malformed(Panic);
      }
      off := off + 1;
      var val := BerInteger.ParseInt64(bytes[off..off + n]);
      PowValues();
      PowMonotone(256, n, 3);
      BeNatBound(bytes[off..off + n]);
      len := val.value;
      off := off + n;
    }
    return Parsed(Header(bytes[0] / 64, bytes[0] / 32 % 2 == 1, tag, len), off);
  }

  // ---------------------------------------------------------------- round trip

  lemma {:induction false} TagStep(bytes: octets, off: nat, acc: nat)
    requires off < |bytes|
    ensures var acc' := Shift7(acc) + bytes[off] % 128;
            TagLoop(bytes, off, acc) == if bytes[off] < 128 then (acc', off + 1) else TagLoop(bytes, off + 1, acc')
  {
  }

  /** The loop reads the digits of `Continued(n)` as `n` appended to what it had, and goes on. */
  lemma {:induction false} TagLoopContinued(bytes: octets, off: nat, n: nat)
    requires n < TWO_63 / 128
    requires off + |Continued(n)| <= |bytes| && bytes[off..off + |Continued(n)|] == Continued(n)
    ensures TagLoop(bytes, off, 0) == TagLoop(bytes, off + |Continued(n)|, n)
  {
    hide Shift7, TagLoop;
    var s := Continued(n);
    Shift7Small(n);
    if n <= 127 {
      assert bytes[off] == s[0] == n + 128;
      Shift7Small(0);
      TagStep(bytes, off, 0);
    } else {
      var t := Continued(n / 128);
      ContinuedStep(n);
      SliceShorter(bytes, off, |s|, |t|);
      TagLoopContinued(bytes, off, n / 128);
      TagStep(bytes, off + |t|, n / 128);
    }
  }

  lemma {:induction false} ContinuedStep(n: nat)
    requires n > 127
    ensures var s, t := Continued(n), Continued(n / 128);
            |s| == |t| + 1 && s[..|t|] == t && s[|t|] == n % 128 + 128
  {
  }

  lemma {:induction false} HighStep(n: nat)
    requires n > 127
    ensures var s, t := HighTag(n), Continued(n / 128);
            |s| == |t| + 1 && s[..|t|] == t && s[|t|] == n % 128
  {
  }

  lemma {:induction false} TagLoopHigh(bytes: octets, off: nat, n: nat)
    requires n < TWO_63
    requires off + |HighTag(n)| <= |bytes| && bytes[off..off + |HighTag(n)|] == HighTag(n)
    ensures TagLoop(bytes, off, 0) == (n, off + |HighTag(n)|)
  {
    hide Shift7, TagLoop;
    var s := HighTag(n);
    Shift7Small(n);
    if n <= 127 {
      assert bytes[off] == s[0] == n;
      Shift7Small(0);
      TagStep(bytes, off, 0);
    } else {
      var t := Continued(n / 128);
      HighStep(n);
      SliceShorter(bytes, off, |s|, |t|);
      TagLoopContinued(bytes, off, n / 128);
      TagStep(bytes, off + |t|, n / 128);
    }
  }

  lemma {:induction false} LengthRoundTrip(bytes: octets, off: nat, len: nat)
    requires len < TWO_24
    requires off + |LengthOctets(len)| <= |bytes|
    requires bytes[off..off + |LengthOctets(len)|] == LengthOctets(len)
    ensures ParseLength(bytes, off) == Ok((len, off + |LengthOctets(len)|))
  {
    var s := LengthOctets(len);
    assert bytes[off] == s[0];
    if len > 127 {
      PowValues();
      BeShortestSize(len, 3);
      BeShortestValue(len);
      var n := |BeShortest(len)|;
      SliceInner(bytes, off, |s|, 1);
      assert s[1..] == BeShortest(len);
    }
  }

  lemma {:induction false} LeadDecodes(h: Header)
    requires Readable(h)
    ensures var b := LeadOctet(h);
            && b / 64 == h.cls && (b / 32 % 2 == 1 <==> h.constructed)
            && b % 32 == if h.tag <= 30 then h.tag else 31
  {
  }

  /** Parsing an encoded header, whatever follows it, gives the header back and consumes exactly its octets. */
  lemma {:induction false} HeaderRoundTrip(h: Header, rest: octets)
    requires Readable(h)
    ensures ParseHeader(HeaderOctets(h) + rest) == Parsed(h, |HeaderOctets(h)|)
  {
    hide TagLoop, HighTag, LengthOctets, ParseLength, LeadOctet;
    LeadDecodes(h);
    var s := HeaderOctets(h) + rest;
    var t, l := TagOctets(h), LengthOctets(h.len);
    assert s[0] == LeadOctet(h);
    assert s[|t|..|t| + |l|] == l;
    LengthRoundTrip(s, |t|, h.len);
    if h.tag > 30 {
      assert s[1..1 + |HighTag(h.tag)|] == HighTag(h.tag);
      TagLoopHigh(s, 1, h.tag);
      PowValues();
      HighTagSize(h.tag, 9);
    }
  }

  /** The tag loop runs to the end of octets that all have the continuation bit. */
  lemma {:induction false} TagLoopEnds(bytes: octets, off: nat, acc: nat)
    requires off <= |bytes| && forall i :: off <= i < |bytes| ==> bytes[i] >= 128
    ensures TagLoop(bytes, off, acc).1 == |bytes|
    decreases |bytes| - off
  {
    hide TagLoop;
    if off < |bytes| {
      TagStep(bytes, off, acc);
      TagLoopEnds(bytes, off + 1, Shift7(acc) + bytes[off] % 128);
    } else {
      TagLoopDone(bytes, acc);
    }
  }

  lemma {:induction false} TagLoopDone(bytes: octets, acc: nat)
    ensures TagLoop(bytes, |bytes|, acc) == (acc, |bytes|)
  {
  }

  lemma {:induction false} ContinuedBits(n: nat)
    ensures forall i :: 0 <= i < |Continued(n)| ==> Continued(n)[i] >= 128
  {
    if n > 127 {
      ContinuedBits(n / 128);
    }
  }

  /** All digits of a high tag number but the last have the continuation bit. */
  lemma {:induction false} HighTagBits(n: nat)
    ensures forall i :: 0 <= i < |HighTag(n)| - 1 ==> HighTag(n)[i] >= 128
  {
    if n > 127 {
      ContinuedBits(n / 128);
    }
  }

  /** A header that is cut off is never read: the parser reports an error when tag octets or the first length octet are
      missing, and panics on empty input or when further length octets are missing. */
  lemma {:induction false} HeaderCut(h: Header, n: nat)
    requires Readable(h) && n < |HeaderOctets(h)|
    ensures ParseHeader(HeaderOctets(h)[..n]) == Malformed(if n == 0 || n > |TagOctets(h)| then Panic else Error)
  {
    hide TagLoop, HighTag, BeShortest, LeadOctet;
    var s := HeaderOctets(h)[..n];
    var t, l := TagOctets(h), LengthOctets(h.len);
    if n > 0 {
      LeadDecodes(h);
      assert s[0] == LeadOctet(h);
      if n <= |t| && h.tag > 30 {
        assert forall i :: 1 <= i < n ==> s[i] == t[i] == HighTag(h.tag)[i - 1];
        CutTag(h, s);
      } else if n > |t| {
        CutLength(h, s);
      }
    }
  }

  /** Tag octets alone: the loop ends at their end, whether or not the last digit is there. */
  lemma {:induction false} CutTag(h: Header, s: octets)
    requires Readable(h) && h.tag > 30 && 1 <= |s| <= |TagOctets(h)|
    requires forall i :: 1 <= i < |s| ==> s[i] == HighTag(h.tag)[i - 1]
    ensures TagLoop(s, 1, 0).1 == |s| <= 10
  {
    hide TagLoop, HighTag;
    PowValues();
    HighTagSize(h.tag, 9);
    HighTagBits(h.tag);
    if |s| <= |HighTag(h.tag)| {
      TagLoopEnds(s, 1, 0);
    } else {
      assert s[1..1 + |HighTag(h.tag)|] == HighTag(h.tag);
      TagLoopHigh(s, 1, h.tag);
    }
  }

  lemma {:induction false} CutLength(h: Header, s: octets)
    requires Readable(h) && |TagOctets(h)| < |s| < |HeaderOctets(h)| && s == HeaderOctets(h)[..|s|]
    ensures ParseHeader(s) == Malformed(Panic)
  {
    hide TagLoop, HighTag, BeShortest, LeadOctet;
    LeadDecodes(h);
    var t, l := TagOctets(h), LengthOctets(h.len);
    assert s[0] == LeadOctet(h) && s[|t|] == l[0];
    assert h.len > 127;
    PowValues();
    BeShortestSize(h.len, 3);
    if h.tag > 30 {
      assert s[1..1 + |HighTag(h.tag)|] == HighTag(h.tag);
      TagLoopHigh(s, 1, h.tag);
      HighTagSize(h.tag, 9);
    }
  }
}
