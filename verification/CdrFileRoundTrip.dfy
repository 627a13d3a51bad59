/** Exactly which CDR files decode to themselves. */
module CdrFileRoundTrip {
  import opened Octets
  import opened CdrFile

  /** A bit field: shifted right past the lower bits and masked to its width. */
  lemma {:induction false} BitField(x: nat, above: nat, field: nat, below: nat, shift: nat, width: nat)
    requires field < width && below < shift
    requires x == (above * width + field) * shift + below
    ensures x / shift % width == field
  {
    ModUnique(x, above * width + field, below, shift);
    ModUnique(above * width + field, above, field, width);
  }

  lemma {:induction false} TimeRoundTrip(t: TimeStamp)
    ensures UnpackTime(PackTime(t)) == t
  {
    var x := PackTime(t);
    var b1 := t.hourDev * 0x40 + t.minuteDev;
    var b2 := t.sign * 0x800 + b1;
    var b3 := t.minute * 0x1000 + b2;
    var b4 := t.hour * 0x4_0000 + b3;
    var b5 := t.date * 0x80_0000 + b4;
    var a4 := t.month * 32 + t.date;
    var a3 := a4 * 32 + t.hour;
    var a2 := a3 * 64 + t.minute;
    var a1 := a2 * 2 + t.sign;
    assert x == t.month * 0x1000_0000 + b5;
    ModUnique(x, a1 * 32 + t.hourDev, t.minuteDev, 0x40);
    hide PackTime;
    BitField(x, a1, t.hourDev, t.minuteDev, 0x40, 32);
    BitField(x, a2, t.sign, b1, 0x800, 2);
    BitField(x, a3, t.minute, b2, 0x1000, 64);
    BitField(x, a4, t.hour, b3, 0x4_0000, 32);
    BitField(x, t.month, t.date, b4, 0x80_0000, 32);
    ModUnique(x, t.month, b5, 0x1000_0000);
  }

  lemma {:induction false} Read32Written(data: octets, at: nat, x: u32)
    requires at + 4 <= |data| && data[at..at + 4] == BeFixed(x, 4)
    ensures Read32(data, at) == x
  {
    PowValues();
    BeFixedRoundTrip(x, 4);
  }

  lemma {:induction false} Read16Written(data: octets, at: nat, x: u16)
    requires at + 2 <= |data| && data[at..at + 2] == BeFixed(x, 2)
    ensures Read16(data, at) == x
  {
    PowValues();
    BeFixedRoundTrip(x, 2);
  }

  /** The high octet of a big-endian number is its first octet. */
  lemma {:induction false} FirstOctet(x: nat, n: nat)
    requires n > 0 && x < Pow(256, n)
    ensures BeFixed(x, n)[0] == x / Pow(256, n - 1)
    decreases n
  {
    if n > 1 {
      assert Pow(256, n) == 256 * Pow(256, n - 1);
      FirstOctet(x / 256, n - 1);
      assert BeFixed(x, n)[0] == BeFixed(x / 256, n - 1)[0];
      DivDiv(x, Pow(256, n - 2));
    } else {
      assert BeFixed(x, 1) == BeFixed(x / 256, 0) + [x % 256];
    }
  }

  lemma {:induction false} DivDiv(x: nat, p: nat)
    requires p > 0
    ensures x / 256 / p == x / (256 * p)
  {
    var q, r := x / 256 / p, x / 256 % p;
    assert x / 256 == q * p + r;
    assert q * (256 * p) == 256 * (q * p);
    ModUnique(x, q, r * 256 + x % 256, 256 * p);
  }

  // ---------------------------------------------------------------- the fixed part

  /** Every fixed-offset read of a file that starts with the encoded fixed part gives the field written there. */
  lemma {:induction false} FixedReads(h: FileHeader, data: octets)
    requires |data| >= 50 && data[..50] == FixedOctets(h)
    ensures Read32(data, 0) == h.fileLength && Read32(data, 4) == h.headerLength
    ensures data[8] == h.highRelease * 32 + h.highVersion && data[9] == h.lowRelease * 32 + h.lowVersion
    ensures Read32(data, 10) == PackTime(h.opened_) && Read32(data, 14) == PackTime(h.lastAppended)
    ensures Read32(data, 18) == h.numberOfCdrs && Read32(data, 22) == h.sequenceNumber
    ensures data[26] == h.closureReason && data[27..47] == h.nodeAddress && data[47] == h.lostCdr
    ensures Read16(data, 48) == h.filterLength
  {
    hide BeFixed, PackTime, Read32, Read16, FixedOctets;
    var s := FixedOctets(h);
    FixedSlices(h);
    SlicePrefix(data, 50, 0, 4);
    SlicePrefix(data, 50, 4, 8);
    SlicePrefix(data, 50, 10, 14);
    SlicePrefix(data, 50, 14, 18);
    SlicePrefix(data, 50, 18, 22);
    SlicePrefix(data, 50, 22, 26);
    SlicePrefix(data, 50, 27, 47);
    SlicePrefix(data, 50, 48, 50);
    Read32Written(data, 0, h.fileLength);
    Read32Written(data, 4, h.headerLength);
    Read32Written(data, 10, PackTime(h.opened_));
    Read32Written(data, 14, PackTime(h.lastAppended));
    Read32Written(data, 18, h.numberOfCdrs);
    Read32Written(data, 22, h.sequenceNumber);
    Read16Written(data, 48, h.filterLength);
    assert data[8] == s[8] && data[9] == s[9] && data[26] == s[26] && data[47] == s[47];
  }

  lemma {:induction false} FixedSlices(h: FileHeader)
    ensures var s := FixedOctets(h);
            && s[0..4] == BeFixed(h.fileLength, 4) && s[4..8] == BeFixed(h.headerLength, 4)
            && s[8] == h.highRelease * 32 + h.highVersion && s[9] == h.lowRelease * 32 + h.lowVersion
            && s[10..14] == BeFixed(PackTime(h.opened_), 4) && s[14..18] == BeFixed(PackTime(h.lastAppended), 4)
            && s[18..22] == BeFixed(h.numberOfCdrs, 4) && s[22..26] == BeFixed(h.sequenceNumber, 4)
            && s[26] == h.closureReason && s[27..47] == h.nodeAddress && s[47] == h.lostCdr
            && s[48..50] == BeFixed(h.filterLength, 2)
  {
    hide BeFixed, PackTime;
  }

  // ---------------------------------------------------------------- the variable part

  /** Lengths agree with their fields and the end of the private extension fits in a uint16. */
  predicate HeaderFits(h: FileHeader) {
    h.filterLength == |h.filter| && h.extensionLength == |h.extension| && 52 + |h.filter| + |h.extension| < TWO_16
  }

  function HeaderEnd(h: FileHeader): nat {
    52 + |h.filter| + |h.extension|
  }

  /** The offsets the decoder computes are the ones written, if and only if the header fits. */
  lemma {:induction false} SpanRead(h: FileHeader, data: octets, rest: octets)
    requires data == FixedOctets(h) + (h.filter + (BeFixed(h.extensionLength, 2) + (h.extension + rest)))
    ensures HeaderFits(h) ==>
              && ExtensionSpan(data) == Some((52 + |h.filter|, HeaderEnd(h)))
              && Read16(data, 50 + |h.filter|) == h.extensionLength
    ensures ExtensionSpan(data).Some? && !HeaderFits(h) ==>
              var (start, n) := ExtensionSpan(data).value;
              start - 52 != |h.filter| || (start == 52 + |h.filter| && n - start != |h.extension|)
  {
    hide FixedOctets, BeFixed, Read16, HeaderFits;
    assert data[..50] == FixedOctets(h);
    FixedReads(h, data);
    var xy := 50 + |h.filter|;
    if h.filterLength == |h.filter| && xy + 2 < TWO_16 {
      assert data[xy..xy + 2] == BeFixed(h.extensionLength, 2);
      Read16Written(data, xy, h.extensionLength);
      SpanFits(h, data);
    } else {
      SpanMisses(h, data);
    }
  }

  lemma {:induction false} SpanFits(h: FileHeader, data: octets)
    requires |data| >= HeaderEnd(h) && Read16(data, 48) == h.filterLength == |h.filter| && 52 + |h.filter| < TWO_16
    requires Read16(data, 50 + |h.filter|) == h.extensionLength
    ensures HeaderFits(h) ==> ExtensionSpan(data) == Some((52 + |h.filter|, HeaderEnd(h)))
    ensures ExtensionSpan(data).Some? ==> ExtensionSpan(data).value.0 == 52 + |h.filter|
    ensures ExtensionSpan(data).Some? && !HeaderFits(h) ==> ExtensionSpan(data).value.1 - 52 - |h.filter| != |h.extension|
  {
    hide Read16;
  }

  lemma {:induction false} SpanMisses(h: FileHeader, data: octets)
    requires |data| >= 50 && Read16(data, 48) == h.filterLength
    requires h.filterLength != |h.filter| || 52 + |h.filter| >= TWO_16
    ensures !HeaderFits(h)
    ensures ExtensionSpan(data).Some? ==> ExtensionSpan(data).value.0 - 52 != |h.filter|
  {
    hide Read16;
  }

  /** The octet the decoder takes for the low release extension is the one written. With both extensions present it
      is, unless the offset wraps to the start of the file; with only the low one it reads one octet too far. */
  predicate LowExtensionRead(f: File) {
    f.hdr.lowRelease == 7 ==>
      if HeaderEnd(f.hdr) + 1 == TWO_16 then f.hdr.lowExt == f.hdr.fileLength / TWO_24
      else f.hdr.highRelease == 7 || (f.cdrs != [] && f.hdr.lowExt == f.cdrs[0].hdr.length / 256)
  }

  predicate CdrFits(c: Cdr) {
    c.hdr.length == |c.body| && (c.hdr.release != 7 ==> c.hdr.releaseExt == 0)
  }

  /** What a caller must ensure, and all a caller must ensure, for the file to come back. */
  predicate Consistent(f: File) {
    && HeaderFits(f.hdr) && LowExtensionRead(f)
    && (f.hdr.highRelease != 7 ==> f.hdr.highExt == 0) && (f.hdr.lowRelease != 7 ==> f.hdr.lowExt == 0)
    && f.hdr.numberOfCdrs == |f.cdrs| && forall i :: 0 <= i < |f.cdrs| ==> CdrFits(f.cdrs[i])
  }

  // ---------------------------------------------------------------- records

  lemma {:induction false} CdrReads(c: Cdr, data: octets, tail: nat, rest: octets)
    requires tail <= |data| && data[tail..] == CdrOctets(c) + rest
    ensures tail + 4 <= |data| && Read16(data, tail) == c.hdr.length
    ensures data[tail + 2] == c.hdr.release * 32 + c.hdr.version && data[tail + 3] == c.hdr.format * 32 + c.hdr.tsNumber
    ensures var skip := if c.hdr.release == 7 then 5 else 4;
            && tail + skip <= |data| && (skip == 5 ==> data[tail + 4] == c.hdr.releaseExt)
            && |CdrOctets(c)| == skip + |c.body| && data[tail + skip..] == c.body + rest
  {
    hide BeFixed;
    var t := data[tail..];
    assert t[..2] == BeFixed(c.hdr.length, 2);
    assert data[tail..tail + 2] == t[..2];
    Read16Written(data, tail, c.hdr.length);
    assert data[tail + 2] == t[2] && data[tail + 3] == t[3];
    var skip := if c.hdr.release == 7 then 5 else 4;
    assert t[skip..] == c.body + rest;
    assert data[tail + skip..] == t[skip..];
    assert skip == 5 ==> data[tail + 4] == t[4];
  }

  /** In a file below 4 GiB the cursor never wraps, and a record runs as far as its length says. */
  lemma {:induction false} CdrShape(data: octets, tail: nat)
    requires tail + 4 <= |data| < TWO_32
    ensures var length, release := Read16(data, tail), data[tail + 2] / 32;
            var skip := if release == 7 then 5 else 4;
            DecodeCdr(data, tail) ==
              if tail + skip + length > |data| then None
              else Some((Cdr(CdrHeader(length, release, data[tail + 2] % 32, data[tail + 3] / 32, data[tail + 3] % 32,
                                       if release == 7 then data[tail + 4] else 0),
                             data[tail + skip..tail + skip + length]),
                         tail + skip + length))
  {
    hide Read16;
  }

  /** One record: it is read back, with the cursor just behind it, if and only if it fits. */
  lemma {:induction false} CdrRoundTrip(c: Cdr, data: octets, tail: nat, rest: octets)
    requires tail <= |data| < TWO_32 && data[tail..] == CdrOctets(c) + rest
    ensures CdrFits(c) ==> DecodeCdr(data, tail) == Some((c, tail + |CdrOctets(c)|))
    ensures DecodeCdr(data, tail).Some? && DecodeCdr(data, tail).value.0 == c ==> CdrFits(c)
  {
    hide Read16, CdrOctets, DecodeCdr;
    CdrReads(c, data, tail, rest);
    CdrShape(data, tail);
    var skip := if c.hdr.release == 7 then 5 else 4;
    if c.hdr.length == |c.body| {
      var b := data[tail + skip..];
      assert data[tail + skip..tail + skip + c.hdr.length] == b[..c.hdr.length] == c.body;
    }
  }

  lemma {:induction false} CdrsRoundTrip(cs: seq<Cdr>, data: octets, tail: nat, count: nat)
    requires tail <= |data| < TWO_32 && data[tail..] == CdrsOctets(cs)
    ensures (count == |cs| && forall i :: 0 <= i < |cs| ==> CdrFits(cs[i])) ==> DecodeCdrs(data, tail, count) == Some((cs, |data|))
    ensures DecodeCdrs(data, tail, count).Some? && DecodeCdrs(data, tail, count).value.0 == cs ==>
              count == |cs| && forall i :: 0 <= i < |cs| ==> CdrFits(cs[i])
    decreases count
  {
    hide DecodeCdr, CdrOctets;
    if cs != [] && count > 0 {
      var rest := CdrsOctets(cs[1..]);
      CdrRoundTrip(cs[0], data, tail, rest);
      if CdrFits(cs[0]) {
        var next := tail + |CdrOctets(cs[0])|;
        assert data[next..] == data[tail..][|CdrOctets(cs[0])|..] == rest;
        CdrsRoundTrip(cs[1..], data, next, count - 1);
        assert [cs[0]] + cs[1..] == cs;
        assert forall i :: 1 <= i < |cs| ==> cs[i] == cs[1..][i - 1];
      }
    }
  }

  // ---------------------------------------------------------------- the whole file

  lemma {:induction false} FileSplit(f: File, data: octets)
    requires data == FileOctets(f)
    ensures var tail := Extensions(f.hdr) + CdrsOctets(f.cdrs);
            && data == FixedOctets(f.hdr) + (f.hdr.filter + (BeFixed(f.hdr.extensionLength, 2) + (f.hdr.extension + tail)))
            && |data| >= HeaderEnd(f.hdr) && data[HeaderEnd(f.hdr)..] == tail
            && data[50..50 + |f.hdr.filter|] == f.hdr.filter
            && data[52 + |f.hdr.filter|..HeaderEnd(f.hdr)] == f.hdr.extension
            && data[..50] == FixedOctets(f.hdr)
  {
    hide FixedOctets, CdrsOctets, Extensions, BeFixed;
  }

  /** The first octet of the first record is the high octet of its length. */
  lemma {:induction false} FirstRecordOctet(cs: seq<Cdr>)
    requires cs != []
    ensures |CdrsOctets(cs)| > 0 && CdrsOctets(cs)[0] == cs[0].hdr.length / 256
  {
    PowValues();
    FirstOctet(cs[0].hdr.length, 2);
    hide BeFixed;
    assert CdrsOctets(cs)[0] == CdrOctets(cs[0])[0] == CdrHeaderOctets(cs[0].hdr)[0] == BeFixed(cs[0].hdr.length, 2)[0];
  }

  lemma {:induction false} FirstFileOctet(h: FileHeader, data: octets)
    requires |data| >= 50 && data[..50] == FixedOctets(h)
    ensures data[0] == h.fileLength / TWO_24
  {
    PowValues();
    FirstOctet(h.fileLength, 4);
    FixedSlices(h);
    assert data[0] == data[..50][0] == FixedOctets(h)[0..4][0];
  }

  /** For a header that fits, the extension octets come back if and only if they are read where they were written. */
  lemma {:induction false} ExtensionsRead(f: File)
    requires HeaderFits(f.hdr)
    ensures var data := FileOctets(f);
            var n, low := HeaderEnd(f.hdr), (HeaderEnd(f.hdr) + 1) % TWO_16;
            && (f.hdr.highRelease == 7 ==> n < |data| && data[n] == f.hdr.highExt)
            && (f.hdr.lowRelease == 7 ==> (low < |data| && data[low] == f.hdr.lowExt <==> LowExtensionRead(f)))
            && |data| >= n + |Extensions(f.hdr)| && data[n + |Extensions(f.hdr)|..] == CdrsOctets(f.cdrs)
  {
    hide FixedOctets, CdrsOctets, FileOctets, BeFixed;
    var data := FileOctets(f);
    FileSplit(f, data);
    FirstFileOctet(f.hdr, data);
    if f.cdrs != [] {
      FirstRecordOctet(f.cdrs);
    } else {
      NoRecords(f.cdrs);
    }
    TailRead(f, data, CdrsOctets(f.cdrs));
  }

  lemma {:induction false} NoRecords(cs: seq<Cdr>)
    requires cs == []
    ensures CdrsOctets(cs) == []
  {
  }

  lemma {:induction false} TailRead(f: File, data: octets, cs: octets)
    requires HeaderFits(f.hdr) && |data| >= HeaderEnd(f.hdr) && data[HeaderEnd(f.hdr)..] == Extensions(f.hdr) + cs
    requires data[0] == f.hdr.fileLength / TWO_24
    requires if f.cdrs == [] then cs == [] else cs != [] && cs[0] == f.cdrs[0].hdr.length / 256
    ensures var n, low := HeaderEnd(f.hdr), (HeaderEnd(f.hdr) + 1) % TWO_16;
            && (f.hdr.highRelease == 7 ==> n < |data| && data[n] == f.hdr.highExt)
            && (f.hdr.lowRelease == 7 ==> (low < |data| && data[low] == f.hdr.lowExt <==> LowExtensionRead(f)))
            && |data| >= n + |Extensions(f.hdr)| && data[n + |Extensions(f.hdr)|..] == cs
  {
    var n, x := HeaderEnd(f.hdr), Extensions(f.hdr);
    var t := data[n..];
    assert forall i :: 0 <= i < |t| ==> data[n + i] == t[i];
    assert data[n + |x|..] == t[|x|..] == cs;
    if n + 1 == TWO_16 {
      assert (n + 1) % TWO_16 == 0;
    } else {
      assert (n + 1) % TWO_16 == n + 1;
      assert |t| > 1 ==> data[n + 1] == t[1];
    }
  }

  /** The header alone: it comes back, with the cursor at the first record, if and only if it is consistent. */
  lemma {:induction false} HeaderRoundTrip(f: File, data: octets)
    requires data == FileOctets(f)
    ensures var good := HeaderFits(f.hdr) && LowExtensionRead(f)
                        && (f.hdr.highRelease != 7 ==> f.hdr.highExt == 0) && (f.hdr.lowRelease != 7 ==> f.hdr.lowExt == 0);
            && (good ==> DecodeHeader(data) == Some((f.hdr, HeaderEnd(f.hdr) + |Extensions(f.hdr)|)))
            && (DecodeHeader(data).Some? && DecodeHeader(data).value.0 == f.hdr ==> good)
  {
    hide FixedOctets, CdrsOctets, FileOctets, Extensions, BeFixed, Read16, Read32, ExtensionSpan, UnpackTime,
         PackTime, HeaderFits, DecodeHeader, LowExtensionRead;
    FileSplit(f, data);
    FixedReads(f.hdr, data);
    TimeRoundTrip(f.hdr.opened_);
    TimeRoundTrip(f.hdr.lastAppended);
    SpanRead(f.hdr, data, Extensions(f.hdr) + CdrsOctets(f.cdrs));
    if HeaderFits(f.hdr) {
      ExtensionsRead(f);
      HeaderDecoded(f, data);
    } else {
      HeaderMisread(f.hdr, data);
    }
  }

  lemma {:induction false} HeaderMisread(h: FileHeader, data: octets)
    requires |data| >= 50
    requires ExtensionSpan(data).Some? ==>
               var (start, n) := ExtensionSpan(data).value;
               start - 52 != |h.filter| || (start == 52 + |h.filter| && n - start != |h.extension|)
    ensures DecodeHeader(data).Some? ==> DecodeHeader(data).value.0 != h
  {
    hide Read16, Read32, ExtensionSpan, UnpackTime;
    if DecodeHeader(data).Some? {
      var h' := DecodeHeader(data).value.0;
      var (start, n) := ExtensionSpan(data).value;
      assert |h'.filter| == start - 52 && |h'.extension| == n - start;
    }
  }

  lemma {:induction false} HeaderDecoded(f: File, data: octets)
    requires HeaderFits(f.hdr) && |data| >= HeaderEnd(f.hdr)
    requires ExtensionSpan(data) == Some((52 + |f.hdr.filter|, HeaderEnd(f.hdr)))
    requires Read32(data, 0) == f.hdr.fileLength && Read32(data, 4) == f.hdr.headerLength
    requires data[8] == f.hdr.highRelease * 32 + f.hdr.highVersion && data[9] == f.hdr.lowRelease * 32 + f.hdr.lowVersion
    requires UnpackTime(Read32(data, 10)) == f.hdr.opened_ && UnpackTime(Read32(data, 14)) == f.hdr.lastAppended
    requires Read32(data, 18) == f.hdr.numberOfCdrs && Read32(data, 22) == f.hdr.sequenceNumber
    requires data[26] == f.hdr.closureReason && data[27..47] == f.hdr.nodeAddress && data[47] == f.hdr.lostCdr
    requires Read16(data, 48) == f.hdr.filterLength && data[50..50 + |f.hdr.filter|] == f.hdr.filter
    requires Read16(data, 50 + |f.hdr.filter|) == f.hdr.extensionLength
    requires data[52 + |f.hdr.filter|..HeaderEnd(f.hdr)] == f.hdr.extension
    requires var n, low := HeaderEnd(f.hdr), (HeaderEnd(f.hdr) + 1) % TWO_16;
             && (f.hdr.highRelease == 7 ==> n < |data| && data[n] == f.hdr.highExt)
             && (f.hdr.lowRelease == 7 ==> (low < |data| && data[low] == f.hdr.lowExt <==> LowExtensionRead(f)))
    ensures var good := LowExtensionRead(f)
                        && (f.hdr.highRelease != 7 ==> f.hdr.highExt == 0) && (f.hdr.lowRelease != 7 ==> f.hdr.lowExt == 0);
            && (good ==> DecodeHeader(data) == Some((f.hdr, HeaderEnd(f.hdr) + |Extensions(f.hdr)|)))
            && (DecodeHeader(data).Some? && DecodeHeader(data).value.0 == f.hdr ==> good)
  {
    hide Read16, Read32, ExtensionSpan, UnpackTime;
  }

  /** Decoding the encoded file gives the file. */
  ghost predicate ComesBack(f: File) {
    exists end :: DecodeFile(FileOctets(f)) == Some((f, end))
  }

  /** The CDR file round trip, exactly: decoding the encoded octets gives the same file, with the records tiling it to
      its last octet, if and only if the file is consistent. */
  lemma {:induction false} FileRoundTrip(f: File)
    requires |FileOctets(f)| < TWO_32
    ensures ComesBack(f) <==> Consistent(f)
    ensures Consistent(f) ==> DecodeFile(FileOctets(f)) == Some((f, |FileOctets(f)|))
  {
    hide FileOctets, DecodeHeader, DecodeCdrs, CdrsOctets, LowExtensionRead, HeaderFits, CdrFits, Extensions;
    var data := FileOctets(f);
    HeaderRoundTrip(f, data);
    if HeaderFits(f.hdr) {
      ExtensionsRead(f);
      CdrsRoundTrip(f.cdrs, data, HeaderEnd(f.hdr) + |Extensions(f.hdr)|, f.hdr.numberOfCdrs);
    }
  }
}
