/** What X.690 says of the octets written: an account of the encoding that names neither the encoder nor the parser. */
module BerEncoding {
  import opened Octets
  import opened BerSchema
  import BerInteger
  import opened BerHeader
  import opened BerMarshal

  // ---------------------------------------------------------------- identifier and length octets

  /** The number in base-128 digits with the continuation bit set on all but the last (section 8.1.2.4.2 of X.690), and
      the offset behind them. */
  function LongTag(bytes: octets, off: nat, acc: nat): Option<(nat, nat)>
    decreases |bytes| - off
  {
    if off >= |bytes| then None
    else if bytes[off] < 128 then Some((acc * 128 + bytes[off], off + 1))
    else LongTag(bytes, off + 1, acc * 128 + (bytes[off] - 128))
  }

  function TagNumber(bytes: octets): Option<(nat, nat)> {
    if bytes == [] then None
    else if bytes[0] % 32 < 31 then Some((bytes[0] % 32, 1))
    else
      match LongTag(bytes, 1, 0)
      case None => None
      case Some((tag, off)) => if tag <= 30 || bytes[1] == 128 then None else Some((tag, off))
  }

  function LengthAt(bytes: octets, off: nat): Option<(nat, nat)> {
    if off >= |bytes| then None
    else if bytes[off] < 128 then Some((bytes[off], off + 1))
    else
      var end := off + 1 + (bytes[off] - 128);
      if end > |bytes| || end == off + 1 || bytes[off + 1] == 0 || BeNat(bytes[off + 1..end]) < 128 then None
      else Some((BeNat(bytes[off + 1..end]), end))
  }

  /** A header in its shortest form, of whatever size, and how many octets it takes. */
  function Head(bytes: octets): (r: Option<(Header, nat)>)
    ensures r.Some? ==> 0 < r.value.1 <= |bytes|
  {
    match TagNumber(bytes)
    case None => None
    case Some((tag, off)) =>
      match LengthAt(bytes, off)
      case None => None
      case Some((len, end)) => Some((Header(bytes[0] / 64, bytes[0] / 32 % 2 == 1, tag, len), end))
  }

  lemma {:induction false} LongTagStep(bytes: octets, off: nat, acc: nat)
    requires off < |bytes|
    ensures LongTag(bytes, off, acc)
            == if bytes[off] < 128 then Some((acc * 128 + bytes[off], off + 1))
               else LongTag(bytes, off + 1, acc * 128 + (bytes[off] - 128))
  {
  }

  lemma {:induction false} LongTagContinued(bytes: octets, off: nat, n: nat)
    requires off + |Continued(n)| <= |bytes| && bytes[off..off + |Continued(n)|] == Continued(n)
    ensures LongTag(bytes, off, 0) == LongTag(bytes, off + |Continued(n)|, n)
    ensures n > 0 ==> bytes[off] != 128
  {
    hide LongTag;
    var s := Continued(n);
    if n <= 127 {
      assert bytes[off] == s[0] == n + 128;
      LongTagStep(bytes, off, 0);
    } else {
      var t := Continued(n / 128);
      ContinuedStep(n);
      SliceShorter(bytes, off, |s|, |t|);
      LongTagContinued(bytes, off, n / 128);
      LongTagStep(bytes, off + |t|, n / 128);
    }
  }

  lemma {:induction false} LongTagRead(bytes: octets, off: nat, n: nat)
    requires off + |HighTag(n)| <= |bytes| && bytes[off..off + |HighTag(n)|] == HighTag(n)
    ensures LongTag(bytes, off, 0) == Some((n, off + |HighTag(n)|))
    ensures bytes[off] != 128
  {
    hide LongTag;
    var s := HighTag(n);
    if n <= 127 {
      assert bytes[off] == s[0] == n;
      LongTagStep(bytes, off, 0);
    } else {
      var t := Continued(n / 128);
      HighStep(n);
      SliceShorter(bytes, off, |s|, |t|);
      LongTagContinued(bytes, off, n / 128);
      LongTagStep(bytes, off + |t|, n / 128);
    }
  }

  lemma {:induction false} ShortestFirst(n: nat)
    requires n > 0
    ensures BeShortest(n)[0] != 0
  {
    if n > 255 {
      ShortestFirst(n / 256);
    }
  }

  lemma {:induction false} LeadRead(h: Header)
    requires IsHeader(h)
    ensures var b := LeadOctet(h);
            && b / 64 == h.cls && (b / 32 % 2 == 1 <==> h.constructed)
            && b % 32 == if h.tag <= 30 then h.tag else 31
  {
  }

  lemma {:induction false} LengthRead(bytes: octets, off: nat, len: nat)
    requires len < TWO_63
    requires off + |LengthOctets(len)| <= |bytes|
    requires bytes[off..off + |LengthOctets(len)|] == LengthOctets(len)
    ensures LengthAt(bytes, off) == Some((len, off + |LengthOctets(len)|))
  {
    hide BeShortest, BeNat;
    var s := LengthOctets(len);
    assert bytes[off] == s[0];
    if len > 127 {
      BeShortestSize(len, 8);
      BeShortestValue(len);
      ShortestFirst(len);
      SliceInner(bytes, off, |s|, 1);
      assert s[1..] == BeShortest(len);
      assert bytes[off + 1] == s[1];
    }
  }

  /** Every header the encoder writes, whatever follows it, is the shortest form of that header. */
  lemma {:induction false} HeadWritten(h: Header, rest: octets)
    requires IsHeader(h) && h.len < TWO_63
    ensures Head(HeaderOctets(h) + rest) == Some((h, |HeaderOctets(h)|))
  {
    hide LongTag, HighTag, LengthOctets, LeadOctet, LengthAt;
    LeadRead(h);
    var s := HeaderOctets(h) + rest;
    var t, l := TagOctets(h), LengthOctets(h.len);
    assert s[0] == LeadOctet(h);
    assert s[|t|..|t| + |l|] == l;
    LengthRead(s, |t|, h.len);
    if h.tag > 30 {
      assert s[1..1 + |HighTag(h.tag)|] == HighTag(h.tag);
      LongTagRead(s, 1, h.tag);
    }
  }

  // ---------------------------------------------------------------- what the parser makes of a header

  /** The digits bound the number. */
  lemma {:induction false} LongTagBound(bytes: octets, off: nat, acc: nat)
    requires LongTag(bytes, off, acc).Some?
    ensures var (tag, end) := LongTag(bytes, off, acc).value;
            off < end <= |bytes| && acc * Pow(128, end - off) <= tag < (acc + 1) * Pow(128, end - off)
    decreases |bytes| - off
  {
    hide LongTag;
    LongTagEnd(bytes, off, acc);
    LongTagStep(bytes, off, acc);
    var (tag, end) := LongTag(bytes, off, acc).value;
    if bytes[off] < 128 {
      assert Pow(128, 1) == 128 * Pow(128, 0) == 128;
    } else {
      var acc' := acc * 128 + (bytes[off] - 128);
      LongTagBound(bytes, off + 1, acc');
      hide Pow;
      var q := Pow(128, end - off - 1);
      PowStep(128, end - off);
      TimesBetween(acc, bytes[off] - 128, q);
    }
  }

  lemma {:induction false} PowStep(b: nat, n: nat)
    requires b > 0 && n > 0
    ensures Pow(b, n) == b * Pow(b, n - 1)
  {
  }

  /** The parser's loop stops where the digits do, with the number they denote unless it overflows. */
  lemma {:induction false} LoopReads(bytes: octets, off: nat, acc: nat, x: nat)
    requires LongTag(bytes, off, acc).Some?
    ensures var (tag, end) := LongTag(bytes, off, acc).value;
            && acc <= tag && TagLoop(bytes, off, x).1 == end
            && (x == acc && tag < TWO_64 ==> TagLoop(bytes, off, x).0 == tag)
    decreases |bytes| - off
  {
    hide LongTag, TagLoop;
    LongTagEnd(bytes, off, acc);
    LongTagStep(bytes, off, acc);
    TagStep(bytes, off, x);
    if bytes[off] >= 128 {
      LoopReads(bytes, off + 1, acc * 128 + (bytes[off] - 128), Shift7(x) + bytes[off] % 128);
    }
  }

  lemma {:induction false} LongTagEnd(bytes: octets, off: nat, acc: nat)
    requires LongTag(bytes, off, acc).Some?
    ensures off < |bytes| && off < LongTag(bytes, off, acc).value.1
    decreases |bytes| - off
  {
    if off < |bytes| && bytes[off] >= 128 {
      LongTagEnd(bytes, off + 1, acc * 128 + (bytes[off] - 128));
    }
  }

  lemma {:induction false} TimesBetween(acc: nat, d: nat, q: nat)
    requires d < 128
    ensures acc * (128 * q) <= (acc * 128 + d) * q && (acc * 128 + d + 1) * q <= (acc + 1) * (128 * q)
  {
    assert acc * (128 * q) == (acc * 128) * q;
    assert (acc + 1) * (128 * q) == (acc * 128 + 128) * q;
    assert (acc * 128 + 128) * q == (acc * 128 + d + 1) * q + (127 - d) * q;
    assert (acc * 128 + d) * q == (acc * 128) * q + d * q;
  }

  lemma {:induction false} BeNatLeast(s: octets)
    requires s != [] && s[0] != 0
    ensures BeNat(s) >= Pow(256, |s| - 1)
  {
    if |s| == 1 {
      assert s == [] + [s[0]];
      BeNatAppend([], s[0]);
    } else {
      BeNatLeast(s[..|s| - 1]);
    }
  }

  /** A number without leading zero digits is below 2^63 if and only if it has at most nine digits. */
  lemma {:induction false} NineDigits(bytes: octets)
    requires LongTag(bytes, 1, 0).Some? && |bytes| > 1 && bytes[1] != 128
    ensures LongTag(bytes, 1, 0).value.1 <= 10 <==> LongTag(bytes, 1, 0).value.0 < TWO_63
  {
    hide LongTag, Pow;
    var (tag, off) := LongTag(bytes, 1, 0).value;
    LongTagBound(bytes, 1, 0);
    PowValues();
    if off <= 10 {
      PowMonotone(128, off - 1, 9);
    } else {
      LongTagStep(bytes, 1, 0);
      var d := bytes[1] - 128;
      LongTagBound(bytes, 2, d);
      PowMonotone(128, 9, off - 2);
      TimesAtLeast(d, Pow(128, off - 2));
    }
  }

  lemma {:induction false} TagParsed(bytes: octets)
    requires TagNumber(bytes).Some?
    ensures var (tag, off) := TagNumber(bytes).value;
            && bytes != [] && 1 <= off
            && (bytes[0] % 32 == 31 ==>
                  && (off <= 10 <==> tag < TWO_63) && TagLoop(bytes, 1, 0).1 == off
                  && (off <= 10 ==> TagLoop(bytes, 1, 0).0 == tag))
            && (bytes[0] % 32 < 31 ==> off == 1 && tag == bytes[0] % 32)
  {
    hide LongTag, TagLoop;
    if bytes[0] % 32 == 31 {
      LongTagEnd(bytes, 1, 0);
      NineDigits(bytes);
      LoopReads(bytes, 1, 0, 0);
    }
  }

  lemma {:induction false} LengthParsed(bytes: octets, off: nat)
    requires LengthAt(bytes, off).Some?
    ensures ParseLength(bytes, off)
            == if LengthAt(bytes, off).value.0 < TWO_24 then Ok(LengthAt(bytes, off).value) else Fail(Error)
  {
    hide BeNat;
    if bytes[off] >= 128 {
      var n := bytes[off] - 128;
      var s := bytes[off + 1..off + 1 + n];
      BeNatLeast(s);
      BeNatBound(s);
      PowValues();
      if n <= 3 {
        PowMonotone(256, n, 3);
      } else {
        PowMonotone(256, 3, n - 1);
      }
    }
  }

  /** Every header in its shortest form is read as it is when its tag number takes at most nine octets and its length
      three, and refused with an error otherwise. */
  lemma {:induction false} HeadParsed(bytes: octets)
    requires Head(bytes).Some?
    ensures var (h, size) := Head(bytes).value;
            ParseHeader(bytes) == if h.tag < TWO_63 && h.len < TWO_24 then Parsed(h, size) else Malformed(Error)
  {
    hide TagNumber, LengthAt, ParseLength, TagLoop;
    TagParsed(bytes);
    LengthParsed(bytes, TagNumber(bytes).value.1);
    PowValues();
  }

  // ---------------------------------------------------------------- the encoding of a value

  /** The universal tag numbers of section 8.4 of X.680. */
  function UniversalNumber(ty: Ty, p: Params): nat {
    match ty
    case TBool => 1
    case TInt => 2
    case TBits => 3
    case TOctets => 4
    case TEnum => 10
    case TStr => p.stringType
    case _ => if p.isSet then 17 else 16
  }

  /** A value announced by its header: context-specific under the field's own tag, universal without one. */
  predicate Headed(bytes: octets, p: Params, constructed: bool, universal: nat) {
    match Head(bytes)
    case None => false
    case Some((h, size)) =>
      && h.cls == (if p.tag.Some? then 2 else 0)
      && h.constructed == constructed
      && h.tag == (if p.tag.Some? then p.tag.value else universal)
      && size + h.len == |bytes|
  }

  function Contents(bytes: octets): octets {
    match Head(bytes)
    case None => []
    case Some((_, size)) => bytes[size..]
  }

  /** How far the first value of a run of values reaches. */
  function Extent(bytes: octets): nat {
    match Head(bytes)
    case None => 0
    case Some((h, size)) => size + h.len
  }

  /** The number that octets denote in two's complement. */
  function Signed(s: octets): int {
    if s == [] || BeNat(s) < 128 * Pow(256, |s| - 1) then BeNat(s) else BeNat(s) - Pow(256, |s|)
  }

  /** An integer takes the fewest octets that hold it (section 8.3 of X.690). */
  predicate IsInteger(s: octets, i: int) {
    Signed(s) == i && BerInteger.FitsWidth(i, |s|) && !BerInteger.FitsWidth(i, |s| - 1)
  }

  /** The contents octets of a primitive value. The unused-bits octet counts 8 where X.690 has 0. */
  predicate IsLeaf(s: octets, v: Val, ty: Ty)
    requires Typed(v, ty)
  {
    match ty
    case TBool => s == [if v.b then 0xFF else 0]
    case TInt => IsInteger(s, v.i)
    case TEnum => IsInteger(s, v.i)
    case TOctets => s == if v.Nil? then [] else v.bs
    case TStr => s == v.bs
    case TBits => |s| > 0 && s[1..] == v.bs && 1 <= s[0] <= 8 && (s[0] + v.bitLen) % 8 == 0
    case _ => false
  }

  /** These octets are the encoding of that value. */
  predicate Encodes(bytes: octets, v: Val, ty: Ty, p: Params)
    requires Typed(v, ty)
    decreases ty, 1, 0
  {
    match ty
    case TPtr(t) => v.Ref? && Encodes(bytes, v.target, t, p)
    case TStruct(_) =>
      Headed(bytes, p, true, UniversalNumber(ty, p)) && EncodesMembers(Contents(bytes), v.members, ty, 0)
    case TList(_) =>
      && Headed(bytes, p, true, UniversalNumber(ty, p))
      && EncodesElems(Contents(bytes), if v.Nil? then [] else v.elems, ty, p.(tag := None))
    case TChoice(fs) =>
      && 1 <= v.present <= |fs|
      && var k := v.present - 1;
         if p.tag.None? then Encodes(bytes, v.choices[k], fs[k].ty, fs[k].params)
         else Headed(bytes, p, true, 0) && Encodes(Contents(bytes), v.choices[k], fs[k].ty, fs[k].params)
    case _ => Headed(bytes, p, false, UniversalNumber(ty, p)) && IsLeaf(Contents(bytes), v, ty)
  }

  /** The present members from `k` on, in the order of their fields. */
  predicate EncodesMembers(s: octets, vs: seq<Val>, ty: Ty, k: nat)
    requires ty.TStruct? && TypedAll(vs, ty.fields) && k <= |vs|
    decreases ty, 0, |vs| - k
  {
    if k == |vs| then s == []
    else if Absent(vs[k], ty.fields[k]) then EncodesMembers(s, vs, ty, k + 1)
    else
      && Extent(s) <= |s| && Encodes(s[..Extent(s)], vs[k], ty.fields[k].ty, ty.fields[k].params)
      && EncodesMembers(s[Extent(s)..], vs, ty, k + 1)
  }

  predicate EncodesElems(s: octets, vs: seq<Val>, ty: Ty, p: Params)
    requires ty.TList? && forall i :: 0 <= i < |vs| ==> Typed(vs[i], ty.elem)
    decreases ty, 0, |vs|
  {
    if vs == [] then s == []
    else
      && Extent(s) <= |s| && Encodes(s[..Extent(s)], vs[0], ty.elem, p)
      && EncodesElems(s[Extent(s)..], vs[1..], ty, p)
  }

  lemma {:induction false} IntegerWritten(i: int)
    ensures IsInteger(BerInteger.IntOctets(i), i)
  {
    var n := BerInteger.IntLen(i);
    BerInteger.IntLenIsLeast(i, n);
    if n > 1 {
      BerInteger.IntLenIsLeast(i, n - 1);
    }
    BeFixedValue(i, n);
    var p := Pow(256, n);
    assert p == 256 * Pow(256, n - 1);
    ModUnique(i, if i < 0 then -1 else 0, if i < 0 then i + p else i, p);
  }

  /** What `Wrap` puts before the contents, whatever follows. */
  lemma {:induction false} WrapWritten(p: Params, constructed: bool, universal: nat, value: Enc, rest: octets)
    requires Wrap(p, constructed, universal, value).Ok?
    ensures var s := Image(Wrap(p, constructed, universal, value).value);
            && Headed(s, p, constructed, universal) && Contents(s) == Image(value)
            && Extent(s + rest) == |s|
  {
    hide Head, HeaderOctets, Image;
    var h := HeaderFor(p, constructed, universal, Len(value));
    var e := Wrap(p, constructed, universal, value).value;
    BerImage(e);
    var s := Image(e);
    HeadWritten(h, Image(value));
    HeadWritten(h, Image(value) + rest);
    Regroup(HeaderOctets(h), Image(value), rest);
  }

  lemma {:induction false} BerImage(e: Enc)
    requires e.BerEnc?
    ensures Image(e) == e.tagAndLen + Image(e.value) && |Image(e.value)| == Len(e.value)
  {
  }

  lemma {:induction false} LeafWritten(v: Val, ty: Ty, p: Params, rest: octets)
    requires Typed(v, ty) && MakeField(v, ty, p).Ok?
    requires ty.TInt? || ty.TEnum? || ty.TBool? || ty.TOctets? || ty.TBits? || ty.TStr?
    ensures var s := Image(MakeField(v, ty, p).value);
            Encodes(s, v, ty, p) && Extent(s + rest) == |s|
  {
    hide Wrap, Headed, Contents, Extent;
    var e := MakeField(v, ty, p).value;
    WrapWritten(p, false, UniversalNumber(ty, p), e.value, rest);
    if ty.TInt? || ty.TEnum? {
      IntegerWritten(v.i);
    }
  }

  /** Whatever the marshaller writes is the encoding of the value it was given, and its own header tells where it ends:
      class, form, tag number, length and contents, at every depth. */
  lemma {:induction false} Written(v: Val, ty: Ty, p: Params, rest: octets)
    requires Typed(v, ty) && MakeField(v, ty, p).Ok?
    ensures var s := Image(MakeField(v, ty, p).value);
            Encodes(s, v, ty, p) && Extent(s + rest) == |s|
    decreases ty, 1, 0
  {
    hide Wrap, Headed, Contents, Extent, Image, IsLeaf;
    match ty
    case TPtr(t) => Written(v.target, t, p, rest);
    case TStruct(fs) =>
      var parts := MakeMembers(v.members, ty, 0).value;
      WrapWritten(p, true, if p.isSet then 17 else 16, StructEnc(parts), rest);
      PartsImage(parts);
      MembersWritten(v.members, ty, 0);
    case TList(t) =>
      var vs := if v.Nil? then [] else v.elems;
      var parts := MakeElems(vs, ty, p.(tag := None)).value;
      WrapWritten(p, true, if p.isSet then 17 else 16, StructEnc(parts), rest);
      PartsImage(parts);
      ElemsWritten(vs, ty, p.(tag := None));
    case TChoice(fs) =>
      var k := v.present - 1;
      if p.tag.None? {
        Written(v.choices[k], fs[k].ty, fs[k].params, rest);
      } else {
        var inner := MakeField(v.choices[k], fs[k].ty, fs[k].params).value;
        WrapWritten(p, true, 0, inner, rest);
        Written(v.choices[k], fs[k].ty, fs[k].params, []);
      }
    case _ => LeafWritten(v, ty, p, rest);
  }

  lemma {:induction false} PartsImage(parts: seq<Enc>)
    ensures Image(StructEnc(parts)) == ImageAll(parts)
  {
  }

  lemma {:induction false} MembersWritten(vs: seq<Val>, ty: Ty, k: nat)
    requires ty.TStruct? && TypedAll(vs, ty.fields) && k <= |vs| && MakeMembers(vs, ty, k).Ok?
    ensures EncodesMembers(ImageAll(MakeMembers(vs, ty, k).value), vs, ty, k)
    decreases ty, 0, |vs| - k
  {
    hide MakeField, Encodes, Typed, Extent, Image;
    if k < |vs| {
      var f, parts := ty.fields[k], MakeMembers(vs, ty, k).value;
      MembersWritten(vs, ty, k + 1);
      var s, rest := ImageAll(parts), ImageAll(parts[1..]);
      assert s == Image(parts[0]) + rest;
      if Absent(vs[k], f) {
        EmptyImage();
        assert s == rest;
      } else {
        Written(vs[k], f.ty, f.params, rest);
        assert s[..Extent(s)] == Image(parts[0]) && s[Extent(s)..] == rest;
      }
    }
  }

  lemma {:induction false} EmptyImage()
    ensures Image(BytesEnc([])) == []
  {
  }

  lemma {:induction false} ElemsWritten(vs: seq<Val>, ty: Ty, p: Params)
    requires ty.TList? && (forall i :: 0 <= i < |vs| ==> Typed(vs[i], ty.elem)) && MakeElems(vs, ty, p).Ok?
    ensures EncodesElems(ImageAll(MakeElems(vs, ty, p).value), vs, ty, p)
    decreases ty, 0, |vs|
  {
    hide MakeField, Encodes, Typed, Extent, Image;
    if vs != [] {
      var parts := MakeElems(vs, ty, p).value;
      ElemsWritten(vs[1..], ty, p);
      var s, rest := ImageAll(parts), ImageAll(parts[1..]);
      Written(vs[0], ty.elem, p, rest);
      assert s == Image(parts[0]) + rest;
      assert s[..Extent(s)] == Image(parts[0]) && s[Extent(s)..] == rest;
    }
  }

  // ---------------------------------------------------------------- which values have an encoding

  /** Why a value has no encoding: a nil pointer where a value is due and an unset choice are errors; a struct without
      present members, a selector beyond the arms and a tagged choice without an encoding are panics. */
  function Trouble(v: Val, ty: Ty, p: Params): Option<Failure>
    requires Typed(v, ty)
    decreases ty, 1, 0
  {
    match ty
    case TPtr(t) => if v.Nil? then Some(Error) else Trouble(v.target, t, p)
    case TStruct(fs) =>
      var first := MemberTrouble(v.members, ty, 0);
      if first.None? && forall i :: 0 <= i < |fs| ==> Absent(v.members[i], fs[i]) then Some(Panic) else first
    case TList(_) => ElemTrouble(if v.Nil? then [] else v.elems, ty, p)
    case TChoice(fs) =>
      if v.present == 0 then Some(Error)
      else if !(1 <= v.present <= |fs|) then Some(Panic)
      else
        var inner := Trouble(v.choices[v.present - 1], fs[v.present - 1].ty, fs[v.present - 1].params);
        if inner.Some? && p.tag.Some? then Some(Panic) else inner
    case _ => None
  }

  function MemberTrouble(vs: seq<Val>, ty: Ty, k: nat): Option<Failure>
    requires ty.TStruct? && TypedAll(vs, ty.fields) && k <= |vs|
    decreases ty, 0, |vs| - k
  {
    if k == |vs| then None
    else
      var first := if Absent(vs[k], ty.fields[k]) then None else Trouble(vs[k], ty.fields[k].ty, ty.fields[k].params);
      if first.Some? then first else MemberTrouble(vs, ty, k + 1)
  }

  function ElemTrouble(vs: seq<Val>, ty: Ty, p: Params): Option<Failure>
    requires ty.TList? && forall i :: 0 <= i < |vs| ==> Typed(vs[i], ty.elem)
    decreases ty, 0, |vs|
  {
    if vs == [] then None
    else
      var first := Trouble(vs[0], ty.elem, p.(tag := None));
      if first.Some? then first else ElemTrouble(vs[1..], ty, p)
  }

  /** At least as much as a value takes: no header is longer than nineteen octets. */
  function Weight(v: Val, ty: Ty): (n: nat)
    requires Typed(v, ty)
    ensures n >= 20
    decreases ty, 1, 0
  {
    match ty
    case TPtr(t) => if v.Nil? then 20 else Weight(v.target, t)
    case TStruct(_) => 20 + MemberWeight(v.members, ty, 0)
    case TList(_) => 20 + ElemWeight(if v.Nil? then [] else v.elems, ty)
    case TChoice(fs) => if 1 <= v.present <= |fs| then 20 + Weight(v.choices[v.present - 1], fs[v.present - 1].ty) else 20
    case TOctets => 20 + (if v.Nil? then 0 else |v.bs|)
    case TBits => 21 + |v.bs|
    case TStr => 20 + |v.bs|
    case _ => 28
  }

  function MemberWeight(vs: seq<Val>, ty: Ty, k: nat): nat
    requires ty.TStruct? && TypedAll(vs, ty.fields) && k <= |vs|
    decreases ty, 0, |vs| - k
  {
    if k == |vs| then 0 else Weight(vs[k], ty.fields[k].ty) + MemberWeight(vs, ty, k + 1)
  }

  function ElemWeight(vs: seq<Val>, ty: Ty): nat
    requires ty.TList? && forall i :: 0 <= i < |vs| ==> Typed(vs[i], ty.elem)
    decreases ty, 0, |vs|
  {
    if vs == [] then 0 else Weight(vs[0], ty.elem) + ElemWeight(vs[1..], ty)
  }

  lemma {:induction false} HeaderSize(h: Header)
    requires h.cls < 4 && h.tag < TWO_63 && h.len < TWO_63
    ensures |HeaderOctets(h)| <= 19
  {
    PowValues();
    HighTagSize(h.tag, 9);
    BeShortestSize(h.len, 8);
  }

  lemma {:induction false} WrapEnds(p: Params, constructed: bool, universal: nat, value: Enc, n: nat)
    requires (p.tag.Some? ==> p.tag.value < TWO_63) && universal < TWO_63
    requires Len(value) + 20 <= n < TWO_63
    ensures Wrap(p, constructed, universal, value).Ok? && Len(Wrap(p, constructed, universal, value).value) <= n
  {
    HeaderSize(HeaderFor(p, constructed, universal, Len(value)));
  }

  /** How marshalling ends, told without marshalling: a value of a declared schema and of a size that memory can hold has
      an encoding if and only if nothing in it is in the way, and otherwise fails as the first thing in the way does. */
  lemma {:induction false} Ends(v: Val, ty: Ty, p: Params)
    requires Typed(v, ty) && WellFormed(ty, p) && Weight(v, ty) < TWO_63
    ensures match Trouble(v, ty, p)
            case Some(how) => MakeField(v, ty, p) == Fail(how)
            case None => MakeField(v, ty, p).Ok? && Len(MakeField(v, ty, p).value) <= Weight(v, ty)
    decreases ty, 1, 0
  {
    hide Wrap, Len, MakeMembers, MakeElems, MemberTrouble, ElemTrouble, MemberWeight, ElemWeight;
    match ty
    case TPtr(t) =>
      if !v.Nil? {
        Ends(v.target, t, p);
      }
    case TStruct(fs) =>
      MembersEnd(v.members, ty, 0);
      if Trouble(v, ty, p).None? {
        var parts := MakeMembers(v.members, ty, 0).value;
        PartsLen(parts);
        WrapEnds(p, true, if p.isSet then 17 else 16, StructEnc(parts), Weight(v, ty));
      }
    case TList(_) =>
      var vs := if v.Nil? then [] else v.elems;
      ElemsEnd(vs, ty, p);
      if Trouble(v, ty, p).None? {
        var parts := MakeElems(vs, ty, p.(tag := None)).value;
        PartsLen(parts);
        WrapEnds(p, true, if p.isSet then 17 else 16, StructEnc(parts), Weight(v, ty));
      }
    case TChoice(fs) =>
      if 1 <= v.present <= |fs| {
        var k := v.present - 1;
        Ends(v.choices[k], fs[k].ty, fs[k].params);
        if Trouble(v, ty, p).None? {
          WrapEnds(p, true, 0, MakeField(v.choices[k], fs[k].ty, fs[k].params).value, Weight(v, ty));
        }
      }
    case _ => LeafEnds(v, ty, p);
  }

  lemma {:induction false} LeafEnds(v: Val, ty: Ty, p: Params)
    requires Typed(v, ty) && WellFormed(ty, p) && Weight(v, ty) < TWO_63
    requires ty.TInt? || ty.TEnum? || ty.TBool? || ty.TOctets? || ty.TBits? || ty.TStr?
    ensures MakeField(v, ty, p).Ok? && Len(MakeField(v, ty, p).value) <= Weight(v, ty)
  {
    hide Wrap, BerInteger.IntLen;
    var value :=
      if ty.TBits? then BitsEnc(v.bs, v.bitLen)
      else if ty.TBool? then ByteEnc(if v.b then 255 else 0)
      else if ty.TInt? || ty.TEnum? then IntEnc(v.i)
      else BytesEnc(if v.Nil? then [] else v.bs);
    if ty.TInt? || ty.TEnum? {
      BerInteger.Int64Width(v.i);
    }
    WrapEnds(p, false, UniversalNumber(ty, p), value, Weight(v, ty));
  }

  lemma {:induction false} PartsLen(parts: seq<Enc>)
    ensures Len(StructEnc(parts)) == LenAll(parts)
  {
  }

  lemma {:induction false} MembersEnd(vs: seq<Val>, ty: Ty, k: nat)
    requires ty.TStruct? && TypedAll(vs, ty.fields) && k <= |vs| && MemberWeight(vs, ty, k) < TWO_63
    requires forall i :: 0 <= i < |vs| ==>
               WellFormed(ty.fields[i].ty, ty.fields[i].params) && (ty.fields[i].params.optional ==> Nillable(ty.fields[i].ty))
    ensures match MemberTrouble(vs, ty, k)
            case Some(how) => MakeMembers(vs, ty, k) == Fail(how)
            case None => MakeMembers(vs, ty, k).Ok? && LenAll(MakeMembers(vs, ty, k).value) <= MemberWeight(vs, ty, k)
    decreases ty, 0, |vs| - k
  {
    hide MakeField, Typed, Len, WellFormed, Trouble, Weight;
    if k < |vs| {
      var f := ty.fields[k];
      assert Weight(vs[k], f.ty) >= 20;
      MembersEnd(vs, ty, k + 1);
      if Absent(vs[k], f) {
        EmptyLen();
      } else {
        Ends(vs[k], f.ty, f.params);
      }
    }
  }

  lemma {:induction false} EmptyLen()
    ensures Len(BytesEnc([])) == 0
  {
  }

  lemma {:induction false} ElemsEnd(vs: seq<Val>, ty: Ty, p: Params)
    requires ty.TList? && (forall i :: 0 <= i < |vs| ==> Typed(vs[i], ty.elem)) && ElemWeight(vs, ty) < TWO_63
    requires WellFormed(ty.elem, p.(tag := None))
    ensures var es := MakeElems(vs, ty, p.(tag := None));
            match ElemTrouble(vs, ty, p)
            case Some(how) => es == Fail(how)
            case None => es.Ok? && LenAll(es.value) <= ElemWeight(vs, ty)
    decreases ty, 0, |vs|
  {
    hide MakeField, Typed, Len, WellFormed, Trouble, Weight;
    if vs != [] {
      assert Weight(vs[0], ty.elem) >= 20;
      ElemsEnd(vs[1..], ty, p);
      Ends(vs[0], ty.elem, p.(tag := None));
    }
  }
}
