/** The encoder tree and `makeField`. */
module BerMarshal {
  import opened Octets
  import opened BerSchema
  import BerHeader
  import BerInteger

  datatype Enc =
    | ByteEnc(b: byte)
    | BytesEnc(bs: octets)
    | IntEnc(i: int)
    | BitsEnc(bits: octets, bitLen: nat)
    | StructEnc(parts: seq<Enc>)
    | BerEnc(tagAndLen: octets, value: Enc)

  function Len(e: Enc): nat
    decreases e
  {
    match e
    case ByteEnc(_) => 1
    case BytesEnc(bs) => |bs|
    case IntEnc(i) => BerInteger.IntLen(i)
    case BitsEnc(bits, _) => |bits| + 1
    case StructEnc(parts) => LenAll(parts)
    case BerEnc(t, v) => |t| + Len(v)
  }

  function LenAll(es: seq<Enc>): nat
    decreases es
  {
    if es == [] then 0 else Len(es[0]) + LenAll(es[1..])
  }

  /** The octets an encoder stands for; the unused-bits octet of a bit string is 8 - BitLength % 8. */
  function Image(e: Enc): (s: octets)
    ensures |s| == Len(e)
    decreases e
  {
    match e
    case ByteEnc(b) => [b]
    case BytesEnc(bs) => bs
    case IntEnc(i) => BerInteger.IntOctets(i)
    case BitsEnc(bits, n) => [8 - n % 8] + bits
    case StructEnc(parts) => ImageAll(parts)
    case BerEnc(t, v) => t + Image(v)
  }

  function ImageAll(es: seq<Enc>): (s: octets)
    ensures |s| == LenAll(es)
    decreases es
  {
    if es == [] then [] else Image(es[0]) + ImageAll(es[1..])
  }

  lemma {:induction false} LenAllAppend(es: seq<Enc>, e: Enc)
    ensures LenAll(es + [e]) == LenAll(es) + Len(e)
  {
    hide Len;
    if es == [] {
      assert [] + [e] == [e] && [e][1..] == [];
      assert LenAll([]) == 0;
    } else {
      LenAllAppend(es[1..], e);
      assert (es + [e])[0] == es[0] && (es + [e])[1..] == es[1..] + [e];
    }
  }

  lemma {:induction false} ImageAllAppend(es: seq<Enc>, e: Enc)
    ensures ImageAll(es + [e]) == ImageAll(es) + Image(e)
  {
    hide Image, Len;
    if es == [] {
      assert [] + [e] == [e] && [e][1..] == [];
      assert ImageAll([]) == [];
      assert Image(e) + [] == Image(e) && [] + Image(e) == Image(e);
    } else {
      ImageAllAppend(es[1..], e);
      assert (es + [e])[0] == es[0] && (es + [e])[1..] == es[1..] + [e];
      Regroup(Image(es[0]), ImageAll(es[1..]), Image(e));
    }
  }

  // ---------------------------------------------------------------- Len and Encode

  method LenOf(e: Enc) returns (n: nat)
    ensures n == Len(e)
    decreases e
  {
    match e
    case ByteEnc(_) => n := 1;
    case BytesEnc(bs) => n := |bs|;
    case IntEnc(i) => n := BerInteger.Len(i);
    case BitsEnc(bits, _) => n := |bits| + 1;
    case StructEnc(parts) =>
      n := 0;
      for k := 0 to |parts|
        invariant n == LenAll(parts[..k])
      {
        var m := LenOf(parts[k]);
        LenAllAppend(parts[..k], parts[k]);
        assert parts[..k + 1] == parts[..k] + [parts[k]];
        n := n + m;
      }
      assert parts[..|parts|] == parts;
    case BerEnc(t, v) =>
      var m := LenOf(v);
      n := |t| + m;
  }

  /** `copy(dst[at:], bs)` */
  method Copy(dst: array<byte>, at: nat, bs: octets)
    requires at + |bs| <= dst.Length
    modifies dst
    ensures dst[..] == Put(old(dst[..]), at, bs)
  {
    hide Put;
    PutNothing(dst[..], at);
    for k := 0 to |bs|
      invariant dst[..] == Put(old(dst[..]), at, bs[..k])
    {
      PutPut(old(dst[..]), at, bs[..k], [bs[k]]);
      assert bs[..k + 1] == bs[..k] + [bs[k]];
      ghost var before := dst[..];
      dst[at + k] := bs[k];
      assert dst[..] == before[at + k := bs[k]];
      PutOne(before, at + k, bs[k]);
    }
    assert bs[..|bs|] == bs;
  }

  lemma {:induction false} FixedLast(x: int, n: nat)
    requires n > 0
    ensures BeFixed(x, n)[n - 1] == x % 256 && BeFixed(x, n)[..n - 1] == BeFixed(x / 256, n - 1)
  {
  }

  method EncodeInt(i: int, dst: array<byte>, at: nat)
    requires at + BerInteger.IntLen(i) <= dst.Length
    modifies dst
    ensures dst[..] == Put(old(dst[..]), at, BerInteger.IntOctets(i))
  {
    hide Put;
    var n := BerInteger.Len(i);
    var x := i;
    ghost var full := BerInteger.IntOctets(i);
    PutNothing(dst[..], at + n);
    assert full[n..] == [];
    for j := 0 to n
      invariant BeFixed(x, n - j) == full[..n - j]
      invariant dst[..] == Put(old(dst[..]), at + n - j, full[n - j..])
    {
      PrefixLast(full, n - j);
      FixedLast(x, n - j);
      PutBefore(old(dst[..]), at + n - j - 1, x % 256, full[n - j..]);
      HeadTail(full, n - j - 1);
      ghost var before := dst[..];
      dst[at + n - 1 - j] := x % 256;
      assert dst[..] == before[at + n - 1 - j := x % 256];
      x := x / 256;
    }
    assert full[0..] == full;
  }

  /** Encode writes exactly `Len(e)` octets, those of `Image(e)`, at the front of the destination it
      is given (the slice `dst[at..]`), and leaves every other octet as it was. */
  method Encode(e: Enc, dst: array<byte>, at: nat)
    requires at + Len(e) <= dst.Length
    modifies dst
    ensures dst[..] == Put(old(dst[..]), at, Image(e))
    decreases e
  {
    hide Put;
    match e
    case ByteEnc(b) => Copy(dst, at, [b]);
    case BytesEnc(bs) => Copy(dst, at, bs);
    case IntEnc(i) => EncodeInt(i, dst, at);
    case BitsEnc(bits, n) =>
      Copy(dst, at, [8 - n % 8]);
      Copy(dst, at + 1, bits);
      PutPut(old(dst[..]), at, [8 - n % 8], bits);
    case StructEnc(parts) => EncodeParts(parts, dst, at);
    case BerEnc(t, v) =>
      Copy(dst, at, t);
      Encode(v, dst, at + |t|);
      PutPut(old(dst[..]), at, t, Image(v));
  }

  /** A struct encoder writes its parts one behind the other. */
  method EncodeParts(parts: seq<Enc>, dst: array<byte>, at: nat)
    requires at + LenAll(parts) <= dst.Length
    modifies dst
    ensures dst[..] == Put(old(dst[..]), at, ImageAll(parts))
    decreases parts
  {
    hide Put, Len, Image;
    var pos := at;
    PutNothing(dst[..], at);
    for k := 0 to |parts|
      invariant pos == at + LenAll(parts[..k]) <= at + LenAll(parts)
      invariant dst[..] == Put(old(dst[..]), at, ImageAll(parts[..k]))
    {
      LenAllAppend(parts[..k], parts[k]);
      ImageAllAppend(parts[..k], parts[k]);
      assert parts[..k + 1] == parts[..k] + [parts[k]];
      LenAllPrefix(parts, k + 1);
      var len := LenOf(parts[k]);
      Encode(parts[k], dst, pos);
      PutPut(old(dst[..]), at, ImageAll(parts[..k]), Image(parts[k]));
      pos := pos + len;
    }
    assert parts[..|parts|] == parts;
  }

  lemma {:induction false} LenAllPrefix(es: seq<Enc>, k: nat)
    requires k <= |es|
    ensures LenAll(es[..k]) <= LenAll(es)
    decreases |es| - k
  {
    if k == |es| {
      assert es[..k] == es;
    } else {
      LenAllAppend(es[..k], es[k]);
      assert es[..k + 1] == es[..k] + [es[k]];
      LenAllPrefix(es, k + 1);
    }
  }

  // ---------------------------------------------------------------- makeField

  /** The header is context-specific when the field has a tag number, universal otherwise. */
  function HeaderFor(p: Params, constructed: bool, universalTag: nat, len: nat): BerHeader.Header {
    if p.tag.Some? then BerHeader.Header(2, constructed, p.tag.value, len)
    else BerHeader.Header(0, constructed, universalTag, len)
  }

  /** Wraps contents in their header; a tag number or length Go's integers cannot hold has no encoding. */
  function Wrap(p: Params, constructed: bool, universalTag: nat, value: Enc): (r: Outcome<Enc>)
    ensures r.Ok? ==> r.value.BerEnc? && r.value.value == value
  {
    var h := HeaderFor(p, constructed, universalTag, Len(value));
    if BerHeader.IsHeader(h) && h.len < TWO_63 then Ok(BerEnc(BerHeader.HeaderOctets(h), value)) else Fail(Error)
  }

  /** Builds the encoder of a value. A struct without a present member and a tagged choice without an encoding leave a
      nil encoder behind, whose length is asked for. */
  function MakeField(v: Val, ty: Ty, p: Params): (r: Outcome<Enc>)
    requires Typed(v, ty)
    ensures r.Ok? ==> r.value.BerEnc?
    decreases ty, 1, 0
  {
    match ty
    case TPtr(t) => if v.Nil? then Fail(Error) else MakeField(v.target, t, p)
    case TBits => Wrap(p, false, 3, BitsEnc(v.bs, v.bitLen))
    case TOctets => Wrap(p, false, 4, BytesEnc(if v.Nil? then [] else v.bs))
    case TEnum => Wrap(p, false, 10, IntEnc(v.i))
    case TBool => Wrap(p, false, 1, ByteEnc(if v.b then 255 else 0))
    case TInt => Wrap(p, false, 2, IntEnc(v.i))
    case TStr => Wrap(p, false, p.stringType, BytesEnc(v.bs))
    case TStruct(fs) =>
      var parts := MakeMembers(v.members, ty, 0);
      if parts.Fail? then Fail(parts.how)
      else if forall i :: 0 <= i < |fs| ==> Absent(v.members[i], fs[i]) then Fail(Panic)
      else Wrap(p, true, if p.isSet then 17 else 16, StructEnc(parts.value))
    case TList(t) =>
      var parts := MakeElems(if v.Nil? then [] else v.elems, ty, p.(tag := None));
      if parts.Fail? then Fail(parts.how)
      else Wrap(p, true, if p.isSet then 17 else 16, StructEnc(parts.value))
    case TChoice(fs) =>
      if v.present == 0 then Fail(Error)
      else if !(1 <= v.present <= |fs|) then Fail(Panic)
      else
        var k := v.present - 1;
        var inner := MakeField(v.choices[k], fs[k].ty, fs[k].params);
        if p.tag.None? then inner
        else if inner.Fail? then Fail(Panic)
        else Wrap(p, true, 0, inner.value)
  }

  /** The encoders of the members from `k` on: an absent member is an empty encoder, and `IsNil` panics on a kind that
      is never nil. */
  function MakeMembers(vs: seq<Val>, ty: Ty, k: nat): (r: Outcome<seq<Enc>>)
    requires ty.TStruct? && TypedAll(vs, ty.fields) && k <= |vs|
    ensures r.Ok? ==> |r.value| == |vs| - k
    decreases ty, 0, |vs| - k
  {
    if k == |vs| then Ok([])
    else
      var f := ty.fields[k];
      if f.params.optional && !Nillable(f.ty) then Fail(Panic)
      else
        var head := if Absent(vs[k], f) then Ok(BytesEnc([])) else MakeField(vs[k], f.ty, f.params);
        if head.Fail? then Fail(head.how)
        else
          var tail := MakeMembers(vs, ty, k + 1);
          if tail.Fail? then tail else Ok([head.value] + tail.value)
  }

  function MakeElems(vs: seq<Val>, ty: Ty, p: Params): (r: Outcome<seq<Enc>>)
    requires ty.TList? && forall i :: 0 <= i < |vs| ==> Typed(vs[i], ty.elem)
    ensures r.Ok? ==> |r.value| == |vs|
    decreases ty, 0, |vs|
  {
    if vs == [] then Ok([])
    else
      var head := MakeField(vs[0], ty.elem, p);
      if head.Fail? then Fail(head.how)
      else
        var tail := MakeElems(vs[1..], ty, p);
        if tail.Fail? then tail else Ok([head.value] + tail.value)
  }

  /** `BerMarshalWithParams`: allocate `Len` octets, then encode into them. */
  method Marshal(v: Val, ty: Ty, p: Params) returns (r: Outcome<octets>)
    requires Typed(v, ty)
    ensures r == match MakeField(v, ty, p) case Fail(how) => Fail(how) case Ok(e) => Ok(Image(e))
  {
    var e := MakeField(v, ty, p);
    if e.Fail? {
      return Fail(e.how);
    }
    var n := LenOf(e.value);
    var buf := new byte[n];
    ghost var blank := buf[..];
    Encode(e.value, buf, 0);
    PutAll(blank, Image(e.value));
    return Ok(buf[..]);
  }
}
