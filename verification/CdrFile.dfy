/** The CDR file container: `CdrFileHeader.Encoding`, `CdrHeader.Encoding`, `CDRFile.Encoding` and `CDRFile.Decoding`. */
module CdrFile {
  import opened Octets

  // Field widths as the record comments give them: sub-octet fields hold only their own bits.
  type u1 = x: int | 0 <= x < 2
  type u3 = x: int | 0 <= x < 8
  type u4 = x: int | 0 <= x < 16
  type u5 = x: int | 0 <= x < 32
  type u6 = x: int | 0 <= x < 64
  type u16 = x: int | 0 <= x < TWO_16
  type u32 = x: int | 0 <= x < TWO_32
  type address = s: octets | |s| == 20 witness seq(20, i => 0)

  datatype TimeStamp = TimeStamp(month: u4, date: u5, hour: u5, minute: u6, sign: u1, hourDev: u5, minuteDev: u6)

  datatype FileHeader = FileHeader(
    fileLength: u32, headerLength: u32,
    highRelease: u3, highVersion: u5, lowRelease: u3, lowVersion: u5,
    opened_: TimeStamp, lastAppended: TimeStamp,
    numberOfCdrs: u32, sequenceNumber: u32,
    closureReason: byte, nodeAddress: address, lostCdr: byte,
    filterLength: u16, filter: octets, extensionLength: u16, extension: octets,
    highExt: byte, lowExt: byte)

  datatype CdrHeader = CdrHeader(length: u16, release: u3, version: u5, format: u3, tsNumber: u5, releaseExt: byte)

  datatype Cdr = Cdr(hdr: CdrHeader, body: octets)

  datatype File = File(hdr: FileHeader, cdrs: seq<Cdr>)

  // ---------------------------------------------------------------- encoding

  /** The bit fields do not overlap, so the shifts and ORs are sums. */
  function PackTime(t: TimeStamp): (x: nat)
    ensures x < TWO_32
  {
    t.month * 0x1000_0000 + t.date * 0x80_0000 + t.hour * 0x4_0000 + t.minute * 0x1000
      + t.sign * 0x800 + t.hourDev * 0x40 + t.minuteDev
  }

  function UnpackTime(x: nat): TimeStamp
    requires x < TWO_32
  {
    TimeStamp(x / 0x1000_0000, x / 0x80_0000 % 32, x / 0x4_0000 % 32, x / 0x1000 % 64, x / 0x800 % 2, x / 0x40 % 32, x % 64)
  }

  function LeadOctets(h: FileHeader): (s: octets)
    ensures |s| == 18
  {
    BeFixed(h.fileLength, 4) + BeFixed(h.headerLength, 4)
      + [h.highRelease * 32 + h.highVersion, h.lowRelease * 32 + h.lowVersion]
      + BeFixed(PackTime(h.opened_), 4) + BeFixed(PackTime(h.lastAppended), 4)
  }

  function CountOctets(h: FileHeader): (s: octets)
    ensures |s| == 32
  {
    BeFixed(h.numberOfCdrs, 4) + BeFixed(h.sequenceNumber, 4)
      + [h.closureReason] + h.nodeAddress + [h.lostCdr] + BeFixed(h.filterLength, 2)
  }

  /** The first 50 octets, which have fixed offsets. */
  function FixedOctets(h: FileHeader): (s: octets)
    ensures |s| == 50
  {
    LeadOctets(h) + CountOctets(h)
  }

  function Extensions(h: FileHeader): octets {
    (if h.highRelease == 7 then [h.highExt] else []) + (if h.lowRelease == 7 then [h.lowExt] else [])
  }

  function HeaderOctets(h: FileHeader): octets {
    FixedOctets(h) + (h.filter + (BeFixed(h.extensionLength, 2) + (h.extension + Extensions(h))))
  }

  function CdrHeaderOctets(c: CdrHeader): octets {
    BeFixed(c.length, 2) + [c.release * 32 + c.version, c.format * 32 + c.tsNumber]
      + (if c.release == 7 then [c.releaseExt] else [])
  }

  function CdrOctets(c: Cdr): octets {
    CdrHeaderOctets(c.hdr) + c.body
  }

  function CdrsOctets(cs: seq<Cdr>): octets {
    if cs == [] then [] else CdrOctets(cs[0]) + CdrsOctets(cs[1..])
  }

  function FileOctets(f: File): octets {
    HeaderOctets(f.hdr) + CdrsOctets(f.cdrs)
  }

  lemma {:induction false} CdrsOctetsAppend(cs: seq<Cdr>, c: Cdr)
    ensures CdrsOctets(cs + [c]) == CdrsOctets(cs) + CdrOctets(c)
  {
    hide CdrOctets;
    if cs == [] {
      assert [c][1..] == [];
    } else {
      CdrsOctetsAppend(cs[1..], c);
      assert (cs + [c])[1..] == cs[1..] + [c];
    }
  }

  /** `CDRFile.Encoding` up to the file write: the header, then every record behind its own header. */
  method Encode(f: File) returns (buf: octets)
    ensures buf == FileOctets(f)
  {
    hide CdrHeaderOctets, HeaderOctets;
    buf := HeaderOctets(f.hdr);
    assert buf == HeaderOctets(f.hdr) + CdrsOctets(f.cdrs[..0]);
    for i := 0 to |f.cdrs|
      invariant buf == HeaderOctets(f.hdr) + CdrsOctets(f.cdrs[..i])
    {
      CdrsOctetsAppend(f.cdrs[..i], f.cdrs[i]);
      assert f.cdrs[..i + 1] == f.cdrs[..i] + [f.cdrs[i]];
      buf := buf + CdrHeaderOctets(f.cdrs[i].hdr);
      buf := buf + f.cdrs[i].body;
      assert buf == HeaderOctets(f.hdr) + (CdrsOctets(f.cdrs[..i]) + CdrOctets(f.cdrs[i]));
    }
    assert f.cdrs[..|f.cdrs|] == f.cdrs;
  }

  // ---------------------------------------------------------------- decoding

  function Read16(data: octets, at: nat): (x: nat)
    requires at + 2 <= |data|
    ensures x < TWO_16
  {
    BeNatBound(data[at..at + 2]);
    PowValues();
    BeNat(data[at..at + 2])
  }

  function Read32(data: octets, at: nat): (x: nat)
    requires at + 4 <= |data|
    ensures x < TWO_32
  {
    BeNatBound(data[at..at + 4]);
    PowValues();
    BeNat(data[at..at + 4])
  }

  /** The decoder's variable offsets, computed in uint16: start and end of the private extension. */
  function ExtensionSpan(data: octets): (r: Option<(nat, nat)>)
    requires |data| >= 50
    ensures r.Some? ==> 52 <= r.value.0 <= r.value.1 <= |data| && r.value.1 < TWO_16
  {
    var xy := (50 + Read16(data, 48)) % TWO_16;
    if !(50 <= xy && xy <= (xy + 2) % TWO_16 <= |data|) then None
    else
      var n := (xy + 2 + Read16(data, xy)) % TWO_16;
      if xy + 2 <= n <= |data| then Some((xy + 2, n)) else None
  }

  /** The header and the offset behind it; `None` is an index or slice out of range, which panics. */
  function DecodeHeader(data: octets): (r: Option<(FileHeader, nat)>)
    ensures r.Some? ==> 52 <= r.value.1
  {
    if |data| < 50 || ExtensionSpan(data).None? then None
    else
      var (start, n) := ExtensionSpan(data).value;
      var high, low := data[8] / 32, data[9] / 32;
      if (high == 7 && n >= |data|) || (low == 7 && (n + 1) % TWO_16 >= |data|) then None
      else
        Some((FileHeader(
                Read32(data, 0), Read32(data, 4),
                high, data[8] % 32, low, data[9] % 32,
                UnpackTime(Read32(data, 10)), UnpackTime(Read32(data, 14)),
                Read32(data, 18), Read32(data, 22),
                data[26], data[27..47], data[47],
                Read16(data, 48), data[50..start - 2], Read16(data, start - 2), data[start..n],
                if high == 7 then data[n] else 0, if low == 7 then data[(n + 1) % TWO_16] else 0),
              n + (if high == 7 then 1 else 0) + (if low == 7 then 1 else 0)))
  }

  /** One record at the cursor, with uint32 cursor arithmetic, and the next cursor. */
  function DecodeCdr(data: octets, tail: nat): (r: Option<(Cdr, nat)>) {
    if !(tail <= (tail + 2) % TWO_32 <= |data| && (tail + 3) % TWO_32 < |data| && tail + 4 <= |data|) then None
    else
      var length, release := Read16(data, tail), data[tail + 2] / 32;
      if release == 7 && !(tail + 4 < |data|) then None
      else
        var skip := if release == 7 then 5 else 4;
        var start, end := (tail + skip) % TWO_32, (tail + skip + length) % TWO_32;
        if !(start <= end <= |data|) then None
        else
          Some((Cdr(CdrHeader(length, release, data[tail + 2] % 32, data[tail + 3] / 32, data[tail + 3] % 32,
                              if release == 7 then data[tail + 4] else 0),
                    data[start..end]),
                end))
  }

  function DecodeCdrs(data: octets, tail: nat, count: nat): (r: Option<(seq<Cdr>, nat)>)
    ensures r.Some? ==> |r.value.0| == count
    decreases count
  {
    if count == 0 then Some(([], tail))
    else
      match DecodeCdr(data, tail)
      case None => None
      case Some((c, next)) =>
        match DecodeCdrs(data, next, count - 1)
        case None => None
        case Some((cs, end)) => Some(([c] + cs, end))
  }

  function DecodeFile(data: octets): Option<(File, nat)> {
    match DecodeHeader(data)
    case None => None
    case Some((h, tail)) =>
      match DecodeCdrs(data, tail, h.numberOfCdrs)
      case None => None
      case Some((cs, end)) => Some((File(h, cs), end))
  }

  /** The decoder's loop: a cursor moves over the records and the list grows. */
  method Decode(data: octets) returns (r: Option<(File, nat)>)
    ensures r == DecodeFile(data)
  {
    hide DecodeHeader, DecodeCdr;
    var h := DecodeHeader(data);
    if h.None? {
      return None;
    }
    var cdrs: seq<Cdr>, tail := [], h.value.1;
    var count := h.value.0.numberOfCdrs;
    ghost var all := DecodeCdrs(data, tail, count);
    assert all.Some? ==> cdrs + all.value.0 == all.value.0;
    for i := 0 to count
      invariant all == match DecodeCdrs(data, tail, count - i)
                       case None => None
                       case Some((cs, end)) => Some((cdrs + cs, end))
    {
      var c := DecodeCdr(data, tail);
      if c.None? {
        return None;
      }
      ghost var rest := DecodeCdrs(data, c.value.1, count - i - 1);
      assert rest.Some? ==> cdrs + ([c.value.0] + rest.value.0) == cdrs + [c.value.0] + rest.value.0;
      cdrs, tail := cdrs + [c.value.0], c.value.1;
    }
    assert cdrs + [] == cdrs;
    return Some((File(h.value.0, cdrs), tail));
  }
}
