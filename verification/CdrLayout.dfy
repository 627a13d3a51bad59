/** Where every field of a CDR file lies (section 6.1 of TS 32.297), for files that are written and for octets that are read. */
module CdrLayout {
  import opened Octets
  import opened CdrFile
  import CdrFileRoundTrip

  /** `width` bits of a number, the lowest of them bit `shift`. */
  function Bits(x: nat, shift: nat, width: nat): nat {
    x / Pow(2, shift) % Pow(2, width)
  }

  lemma {:induction false} BitValues()
    ensures Pow(2, 0) == 1 && Pow(2, 1) == 2 && Pow(2, 3) == 8 && Pow(2, 4) == 16 && Pow(2, 5) == 32 && Pow(2, 6) == 64
    ensures Pow(2, 11) == 0x800 && Pow(2, 12) == 0x1000 && Pow(2, 18) == 0x4_0000 && Pow(2, 23) == 0x80_0000
    ensures Pow(2, 28) == 0x1000_0000
  {
    assert Pow(2, 1) == 2 * Pow(2, 0);
    assert Pow(2, 2) == 2 * Pow(2, 1);
    assert Pow(2, 3) == 2 * Pow(2, 2);
    PowAdd(2, 3, 3);
    PowAdd(2, 3, 1);
    PowAdd(2, 4, 1);
    PowAdd(2, 6, 5);
    PowAdd(2, 6, 6);
    PowAdd(2, 12, 6);
    PowAdd(2, 18, 5);
    PowAdd(2, 23, 5);
  }

  lemma {:induction false} PowAdd(b: nat, m: nat, n: nat)
    requires b > 0
    ensures Pow(b, m + n) == Pow(b, m) * Pow(b, n)
  {
    if m > 0 {
      PowAdd(b, m - 1, n);
      assert b * (Pow(b, m - 1) * Pow(b, n)) == b * Pow(b, m - 1) * Pow(b, n);
    }
  }

  /** A timestamp in 32 bits. */
  predicate TimeAt(x: nat, t: TimeStamp) {
    && Bits(x, 28, 4) == t.month && Bits(x, 23, 5) == t.date && Bits(x, 18, 5) == t.hour && Bits(x, 12, 6) == t.minute
    && Bits(x, 11, 1) == t.sign && Bits(x, 6, 5) == t.hourDev && Bits(x, 0, 6) == t.minuteDev
  }

  /** The fields at fixed offsets, and the two of variable size behind them. */
  predicate HeaderAt(data: octets, h: FileHeader) {
    var start := 52 + |h.filter|;
    && start + |h.extension| <= |data|
    && BeNat(data[0..4]) == h.fileLength && BeNat(data[4..8]) == h.headerLength
    && Bits(data[8], 5, 3) == h.highRelease && Bits(data[8], 0, 5) == h.highVersion
    && Bits(data[9], 5, 3) == h.lowRelease && Bits(data[9], 0, 5) == h.lowVersion
    && TimeAt(BeNat(data[10..14]), h.opened_) && TimeAt(BeNat(data[14..18]), h.lastAppended)
    && BeNat(data[18..22]) == h.numberOfCdrs && BeNat(data[22..26]) == h.sequenceNumber
    && data[26] == h.closureReason && data[27..47] == h.nodeAddress && data[47] == h.lostCdr
    && BeNat(data[48..50]) == h.filterLength && data[50..start - 2] == h.filter
    && BeNat(data[start - 2..start]) == h.extensionLength && data[start..start + |h.extension|] == h.extension
  }

  /** A record behind its header of four octets, or five with a release extension. */
  predicate RecordAt(data: octets, tail: nat, c: Cdr) {
    var skip := if c.hdr.release == 7 then 5 else 4;
    && tail + skip + |c.body| <= |data|
    && BeNat(data[tail..tail + 2]) == c.hdr.length
    && Bits(data[tail + 2], 5, 3) == c.hdr.release && Bits(data[tail + 2], 0, 5) == c.hdr.version
    && Bits(data[tail + 3], 5, 3) == c.hdr.format && Bits(data[tail + 3], 0, 5) == c.hdr.tsNumber
    && (c.hdr.release == 7 ==> data[tail + 4] == c.hdr.releaseExt)
    && data[tail + skip..tail + skip + |c.body|] == c.body
  }

  function RecordSize(c: Cdr): nat {
    (if c.hdr.release == 7 then 5 else 4) + |c.body|
  }

  /** Records one behind the other, and nothing behind `end`. */
  predicate RecordsAt(data: octets, tail: nat, cs: seq<Cdr>, end: nat)
    decreases |cs|
  {
    if cs == [] then tail == end
    else RecordAt(data, tail, cs[0]) && RecordsAt(data, tail + RecordSize(cs[0]), cs[1..], end)
  }

  // ---------------------------------------------------------------- written

  lemma {:induction false} TimePacked(t: TimeStamp)
    ensures TimeAt(PackTime(t), t)
  {
    CdrFileRoundTrip.TimeRoundTrip(t);
    TimeUnpacked(PackTime(t));
  }

  lemma {:induction false} TimeUnpacked(x: nat)
    requires x < TWO_32
    ensures TimeAt(x, UnpackTime(x))
  {
    BitValues();
  }

  /** Two fields that share an octet. */
  lemma {:induction false} OctetSplit(b: byte)
    ensures Bits(b, 5, 3) == b / 32 && Bits(b, 0, 5) == b % 32
  {
    BitValues();
  }

  lemma {:induction false} OctetJoined(high: u3, low: u5)
    ensures Bits(high * 32 + low, 5, 3) == high && Bits(high * 32 + low, 0, 5) == low
  {
    OctetSplit(high * 32 + low);
  }

  lemma {:induction false} HeaderWritten(f: File)
    ensures HeaderAt(FileOctets(f), f.hdr)
  {
    hide FixedOctets, CdrsOctets, FileOctets, Extensions, BeFixed, BeNat, PackTime, Bits, TimeAt;
    var data, h := FileOctets(f), f.hdr;
    CdrFileRoundTrip.FileSplit(f, data);
    CdrFileRoundTrip.FixedReads(h, data);
    OctetJoined(h.highRelease, h.highVersion);
    OctetJoined(h.lowRelease, h.lowVersion);
    TimePacked(h.opened_);
    TimePacked(h.lastAppended);
    var at := 50 + |h.filter|;
    assert data[at..at + 2] == BeFixed(h.extensionLength, 2);
    CdrFileRoundTrip.Read16Written(data, at, h.extensionLength);
  }

  lemma {:induction false} RecordsWritten(cs: seq<Cdr>, data: octets, tail: nat)
    requires tail <= |data| && data[tail..] == CdrsOctets(cs)
    ensures RecordsAt(data, tail, cs, |data|)
    decreases |cs|
  {
    hide CdrOctets, RecordAt;
    if cs != [] {
      var rest := CdrsOctets(cs[1..]);
      RecordWritten(cs[0], data, tail, rest);
      var n := RecordSize(cs[0]);
      assert data[tail + n..] == data[tail..][n..] == rest;
      RecordsWritten(cs[1..], data, tail + n);
    }
  }

  lemma {:induction false} RecordWritten(c: Cdr, data: octets, tail: nat, rest: octets)
    requires tail <= |data| && data[tail..] == CdrOctets(c) + rest
    ensures RecordAt(data, tail, c) && |CdrOctets(c)| == RecordSize(c)
  {
    hide CdrOctets, Bits, BeNat;
    CdrFileRoundTrip.CdrReads(c, data, tail, rest);
    OctetJoined(c.hdr.release, c.hdr.version);
    OctetJoined(c.hdr.format, c.hdr.tsNumber);
    var at := tail + RecordSize(c) - |c.body|;
    assert data[at..at + |c.body|] == data[at..][..|c.body|] == c.body;
  }

  function ReleaseOctets(h: FileHeader): nat {
    (if h.highRelease == 7 then 1 else 0) + (if h.lowRelease == 7 then 1 else 0)
  }

  /** The release extensions that are there, the high one first. */
  predicate ReleasesAt(data: octets, h: FileHeader, n: nat) {
    && n + ReleaseOctets(h) <= |data|
    && (h.highRelease == 7 ==> data[n] == h.highExt)
    && (h.lowRelease == 7 ==> data[n + ReleaseOctets(h) - 1] == h.lowExt)
  }

  lemma {:induction false} TailWritten(data: octets, h: FileHeader, n: nat, rest: octets)
    requires n <= |data| && data[n..] == Extensions(h) + rest
    ensures ReleasesAt(data, h, n) && data[n + ReleaseOctets(h)..] == rest
  {
    var t, x := data[n..], Extensions(h);
    assert forall i :: 0 <= i < |t| ==> data[n + i] == t[i];
    assert data[n + |x|..] == t[|x|..] == rest;
  }

  /** Every file that is written has its fields where the format puts them, and its records one behind the other up to its
      last octet. */
  lemma {:induction false} FileWritten(f: File)
    ensures var data, n := FileOctets(f), 52 + |f.hdr.filter| + |f.hdr.extension|;
            HeaderAt(data, f.hdr) && ReleasesAt(data, f.hdr, n) && RecordsAt(data, n + ReleaseOctets(f.hdr), f.cdrs, |data|)
  {
    hide FixedOctets, CdrsOctets, FileOctets, BeFixed, HeaderAt, RecordsAt, Extensions;
    var data, n := FileOctets(f), 52 + |f.hdr.filter| + |f.hdr.extension|;
    HeaderWritten(f);
    CdrFileRoundTrip.FileSplit(f, data);
    TailWritten(data, f.hdr, n, CdrsOctets(f.cdrs));
    RecordsWritten(f.cdrs, data, n + ReleaseOctets(f.hdr));
  }

  // ---------------------------------------------------------------- read

  /** Where the header read from any octets ends before its release extensions, as 16-bit offsets allow. */
  function ReadEnd(data: octets): (r: Option<nat>)
    ensures r.Some? ==> 52 <= r.value <= |data|
  {
    if |data| < 50 then None
    else
      var start := 52 + BeNat(data[48..50]);
      if start > |data| || start >= TWO_16 then None
      else
        var end := start + BeNat(data[start - 2..start]);
        if end > |data| || end >= TWO_16 then None else Some(end)
  }

  lemma {:induction false} SpanReads(data: octets)
    requires |data| >= 50
    ensures match ReadEnd(data)
            case None => ExtensionSpan(data).None?
            case Some(end) => ExtensionSpan(data) == Some((52 + Read16(data, 48), end))
  {
    hide BeNat;
  }

  /** The sizes and the release extensions that the octets announce lie within them. */
  predicate HeaderWithin(data: octets) {
    match ReadEnd(data)
    case None => false
    case Some(n) => (data[8] / 32 == 7 ==> n < |data|) && (data[9] / 32 == 7 ==> (n + 1) % TWO_16 < |data|)
  }

  /** The low release extension is looked for behind the high one, even where there is none. */
  predicate ExtensionsAt(data: octets, h: FileHeader, n: nat) {
    && (if h.highRelease == 7 then n < |data| && h.highExt == data[n] else h.highExt == 0)
    && (if h.lowRelease == 7 then (n + 1) % TWO_16 < |data| && h.lowExt == data[(n + 1) % TWO_16] else h.lowExt == 0)
  }

  /** What is read from any octets: a header if and only if it lies within them, with every field from its own place. */
  lemma {:induction false} HeaderRead(data: octets)
    ensures DecodeHeader(data).Some? <==> HeaderWithin(data)
    ensures match DecodeHeader(data)
            case None => true
            case Some((h, tail)) =>
              var n := 52 + |h.filter| + |h.extension|;
              && HeaderAt(data, h) && h.filterLength == |h.filter| && h.extensionLength == |h.extension|
              && ExtensionsAt(data, h, n)
              && tail == n + ReleaseOctets(h)
  {
    hide BeNat, Bits, TimeAt, UnpackTime, ExtensionSpan;
    if |data| >= 50 {
      SpanReads(data);
      TimeUnpacked(Read32(data, 10));
      TimeUnpacked(Read32(data, 14));
      OctetSplit(data[8]);
      OctetSplit(data[9]);
    }
  }

  /** A record is read from any octets if and only if it lies within them. */
  lemma {:induction false} RecordRead(data: octets, tail: nat)
    requires |data| < TWO_32
    ensures DecodeCdr(data, tail).Some? <==>
              && tail + 4 <= |data|
              && tail + (if data[tail + 2] / 32 == 7 then 5 else 4) + BeNat(data[tail..tail + 2]) <= |data|
    ensures DecodeCdr(data, tail).Some? ==>
              var (c, next) := DecodeCdr(data, tail).value;
              && RecordAt(data, tail, c) && |c.body| == c.hdr.length && next == tail + RecordSize(c)
              && (c.hdr.release != 7 ==> c.hdr.releaseExt == 0)
  {
    hide BeNat, Bits, DecodeCdr;
    if tail + 4 <= |data| {
      CdrFileRoundTrip.CdrShape(data, tail);
      OctetSplit(data[tail + 2]);
      OctetSplit(data[tail + 3]);
    } else {
      NoRecord(data, tail);
    }
  }

  lemma {:induction false} NoRecord(data: octets, tail: nat)
    requires |data| < tail + 4
    ensures DecodeCdr(data, tail).None?
  {
  }

  lemma {:induction false} RecordsRead(data: octets, tail: nat, count: nat)
    requires |data| < TWO_32 && DecodeCdrs(data, tail, count).Some?
    ensures var (cs, end) := DecodeCdrs(data, tail, count).value;
            |cs| == count && RecordsAt(data, tail, cs, end) && forall c :: c in cs ==> |c.body| == c.hdr.length
    decreases count
  {
    hide DecodeCdr, RecordAt;
    if count > 0 {
      RecordRead(data, tail);
      var (c, next) := DecodeCdr(data, tail).value;
      RecordsRead(data, next, count - 1);
      var rest := DecodeCdrs(data, next, count - 1).value.0;
      assert ([c] + rest)[1..] == rest;
    }
  }

  /** Whatever octets are decoded, every field and every record of the file comes from its own place, and there are as
      many records as the header announces. */
  lemma {:induction false} FileRead(data: octets)
    requires |data| < TWO_32 && DecodeFile(data).Some?
    ensures var (f, end) := DecodeFile(data).value;
            && HeaderAt(data, f.hdr) && |f.cdrs| == f.hdr.numberOfCdrs
            && DecodeHeader(data).Some? && RecordsAt(data, DecodeHeader(data).value.1, f.cdrs, end)
            && forall c :: c in f.cdrs ==> |c.body| == c.hdr.length
  {
    hide DecodeHeader, DecodeCdrs, HeaderAt, RecordsAt;
    HeaderRead(data);
    var (h, tail) := DecodeHeader(data).value;
    RecordsRead(data, tail, h.numberOfCdrs);
  }
}
