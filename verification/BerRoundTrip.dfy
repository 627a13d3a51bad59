/** What comes back when the parser reads what the marshaller wrote. */
module BerRoundTrip {
  import opened Octets
  import opened BerSchema
  import opened BerHeader
  import opened BerMarshal
  import opened BerUnmarshal
  import BerInteger

  /** The value the parser returns for the octets of `v`: integers lose their sign extension, bit counts are
      recomputed from the unused-bits octet, nil slices become empty ones, unselected arms become zero. */
  function Returned(v: Val, ty: Ty): (r: Val)
    requires Typed(v, ty)
    decreases ty
  {
    match ty
    case TInt => VInt(WrapInt64(v.i % Pow(256, BerInteger.IntLen(v.i))))
    case TEnum => VInt(WrapInt64(v.i % Pow(256, BerInteger.IntLen(v.i))))
    case TBool => v
    case TStr => v
    case TOctets => VOctets(if v.Nil? then [] else v.bs)
    case TBits => VBits(v.bs, (|v.bs| * 8 - (8 - v.bitLen % 8)) % TWO_64)
    case TPtr(t) => if v.Nil? then Nil else Ref(Returned(v.target, t))
    case TList(t) => VList(if v.Nil? then [] else seq(|v.elems|, i requires 0 <= i < |v.elems| => Returned(v.elems[i], t)))
    case TStruct(fs) => VStruct(seq(|fs|, i requires 0 <= i < |fs| => ReturnedMember(v.members[i], fs[i])))
    case TChoice(fs) =>
      if 1 <= v.present <= |fs| then
        var k := v.present - 1;
        VChoice(v.present, Zeros(fs)[k := Returned(v.choices[k], fs[k].ty)])
      else v
  }

  function ReturnedMember(v: Val, f: Field): Val
    requires Typed(v, f.ty)
    decreases f
  {
    if Absent(v, f) then Nil else Returned(v, f.ty)
  }

  function ReturnedMembers(vs: seq<Val>, fs: seq<Field>): (r: seq<Val>)
    requires TypedAll(vs, fs)
    ensures |r| == |fs|
  {
    seq(|fs|, i requires 0 <= i < |fs| => ReturnedMember(vs[i], fs[i]))
  }

  function ReturnedElems(vs: seq<Val>, t: Ty): (r: seq<Val>)
    requires forall i :: 0 <= i < |vs| ==> Typed(vs[i], t)
    ensures |r| == |vs|
  {
    seq(|vs|, i requires 0 <= i < |vs| => Returned(vs[i], t))
  }

  /** Every tagged choice in the value has an outer header as long as the header of its selected arm, and no
      tagged list holds choices (its elements are written untagged but read as if they were tagged). */
  predicate Aligned(v: Val, ty: Ty, p: Params)
    requires Typed(v, ty)
    decreases ty
  {
    match ty
    case TPtr(t) => v.Nil? || Aligned(v.target, t, p)
    case TList(t) =>
      v.Nil? || v.elems == [] ||
      ((p.tag.Some? ==> !EndsInChoice(t)) && forall i :: 0 <= i < |v.elems| ==> Aligned(v.elems[i], t, p.(tag := None)))
    case TStruct(fs) =>
      forall i :: 0 <= i < |fs| ==> Absent(v.members[i], fs[i]) || Aligned(v.members[i], fs[i].ty, fs[i].params)
    case TChoice(fs) =>
      1 <= v.present <= |fs| ==>
        var k := v.present - 1;
        && Aligned(v.choices[k], fs[k].ty, fs[k].params)
        && (p.tag.Some? ==> HeadersMatch(MakeField(v, ty, p)))
    case _ => true
  }

  predicate HeadersMatch(e: Outcome<Enc>) {
    e.Ok? && e.value.BerEnc? && e.value.value.BerEnc? ==> |e.value.tagAndLen| == |e.value.value.tagAndLen|
  }

  // ---------------------------------------------------------------- headers of encoded values

  lemma {:induction false} WrapHeader(p: Params, constructed: bool, universalTag: nat, value: Enc, rest: octets)
    requires (p.tag.Some? ==> p.tag.value < TWO_63) && universalTag < TWO_63
    requires Len(value) < TWO_24
    ensures Wrap(p, constructed, universalTag, value).Ok?
    ensures var e := Wrap(p, constructed, universalTag, value).value;
            var r := ParseHeader(Image(e) + rest);
            && r.Parsed? && r.size == |e.tagAndLen| && r.header.len == Len(e.value)
            && (p.tag.Some? ==> r.header.tag == p.tag.value)
  {
    hide ParseHeader, HeaderOctets;
    var h := HeaderFor(p, constructed, universalTag, Len(value));
    HeaderRoundTrip(h, Image(value) + rest);
    Regroup(HeaderOctets(h), Image(value), rest);
    assert Image(BerEnc(HeaderOctets(h), value)) == HeaderOctets(h) + Image(value);
  }

  /** The header of an encoded value announces exactly its contents, whatever follows. */
  lemma {:induction false} EncodedHeader(v: Val, ty: Ty, p: Params, rest: octets)
    requires Typed(v, ty) && WellFormed(ty, p)
    requires MakeField(v, ty, p).Ok? && Len(MakeField(v, ty, p).value) < TWO_24
    ensures var e := MakeField(v, ty, p).value;
            var r := ParseHeader(Image(e) + rest);
            && r.Parsed? && r.size == |e.tagAndLen| && r.header.len == Len(e.value)
            && (p.tag.Some? ==> r.header.tag == p.tag.value)
    decreases ty
  {
    hide ParseHeader, HeaderOctets, Image, MakeMembers, MakeElems;
    var e := MakeField(v, ty, p).value;
    match ty
    case TPtr(t) => EncodedHeader(v.target, t, p, rest);
    case TBits => WrapHeader(p, false, 3, e.value, rest);
    case TOctets => WrapHeader(p, false, 4, e.value, rest);
    case TEnum => WrapHeader(p, false, 10, e.value, rest);
    case TBool => WrapHeader(p, false, 1, e.value, rest);
    case TInt => WrapHeader(p, false, 2, e.value, rest);
    case TStr => WrapHeader(p, false, p.stringType, e.value, rest);
    case TStruct(fs) => WrapHeader(p, true, if p.isSet then 17 else 16, e.value, rest);
    case TList(t) => WrapHeader(p, true, if p.isSet then 17 else 16, e.value, rest);
    case TChoice(fs) =>
      var k := v.present - 1;
      if p.tag.None? {
        EncodedHeader(v.choices[k], fs[k].ty, fs[k].params, rest);
      } else {
        WrapHeader(p, true, 0, e.value, rest);
      }
  }

  /** Cutting one element off a run of encoded values: its tag, and the offset just past its octets. */
  lemma {:induction false} EncodedElement(v: Val, ty: Ty, p: Params, bytes: octets, off: nat, rest: octets)
    requires Typed(v, ty) && WellFormed(ty, p)
    requires MakeField(v, ty, p).Ok? && Len(MakeField(v, ty, p).value) < TWO_24
    requires off <= |bytes| && bytes[off..] == Image(MakeField(v, ty, p).value) + rest
    ensures var e := MakeField(v, ty, p).value;
            && off < |bytes| && off + Len(e) <= |bytes|
            && bytes[off..off + Len(e)] == Image(e) && bytes[off + Len(e)..] == rest
            && Element(bytes, off).Ok? && Element(bytes, off).value.1 == off + Len(e)
            && (p.tag.Some? ==> Element(bytes, off).value.0 == p.tag.value)
  {
    hide MakeField, Typed, WellFormed, Image, Len, ParseHeader;
    var e := MakeField(v, ty, p).value;
    EncodedHeader(v, ty, p, rest);
    ContentsOf(e);
    var n := Len(e);
    assert n == |e.tagAndLen| + Len(e.value);
    assert |bytes| - off == n + |rest|;
    assert bytes[off..off + n] == bytes[off..][..n] == Image(e);
    assert bytes[off + n..] == bytes[off..][n..] == rest;
  }

  /** With distinct tags a search that starts at or before a field finds that field. */
  lemma {:induction false} FindFieldDistinct(fs: seq<Field>, from: nat, k: nat)
    requires DistinctTags(fs) && from <= k < |fs|
    ensures FindField(fs, from, fs[k].params.tag.value) == Ok(k)
    decreases k - from
  {
    if from < k {
      FindFieldDistinct(fs, from + 1, k);
    }
  }

  lemma {:induction false} FindArmDistinct(fs: seq<Field>, from: nat, k: nat)
    requires DistinctTags(fs) && from <= k < |fs|
    ensures FindArm(fs, from, fs[k].params.tag.value) == Ok(k)
    decreases k - from
  {
    if from < k {
      FindArmDistinct(fs, from + 1, k);
    }
  }

  /** Off a choice's spine the parser never looks at the field's own tag number. */
  lemma {:induction false} TagUnread(ty: Ty, dst: Val, bytes: octets, p: Params)
    requires Typed(dst, ty) && !EndsInChoice(ty)
    ensures ParseField(ty, dst, bytes, p) == ParseField(ty, dst, bytes, p.(tag := None))
    decreases ty, 1, 0
  {
    if ty.TPtr? {
      TagUnread(ty.elem, Zero(ty.elem), bytes, p);
    } else if ty.TList? && ParseHeader(bytes).Parsed? {
      var items := Split(bytes, ParseHeader(bytes).size);
      if items.Ok? {
        TagUnreadItems(ty, items.value, p);
      }
    }
  }

  lemma {:induction false} TagUnreadItems(ty: Ty, items: seq<octets>, p: Params)
    requires ty.TList? && !EndsInChoice(ty.elem)
    ensures ParseItems(ty, items, p) == ParseItems(ty, items, p.(tag := None))
    decreases ty, 0, |items|
  {
    if items != [] {
      TagUnread(ty.elem, Zero(ty.elem), items[0], p);
      TagUnreadItems(ty, items[1..], p);
    }
  }

  // ---------------------------------------------------------------- members

  /** The encoder of each member is its own field's encoder, or empty when the member is absent. */
  lemma {:induction false} MemberAt(vs: seq<Val>, ty: Ty, k: nat, i: nat)
    requires ty.TStruct? && TypedAll(vs, ty.fields) && k <= i < |vs|
    requires MakeMembers(vs, ty, k).Ok?
    ensures var part, f := MakeMembers(vs, ty, k).value[i - k], ty.fields[i];
            && (f.params.optional ==> Nillable(f.ty))
            && if Absent(vs[i], f) then part == BytesEnc([]) else MakeField(vs[i], f.ty, f.params) == Ok(part)
    decreases i - k
  {
    hide MakeField, Typed;
    if k < i {
      MemberAt(vs, ty, k + 1, i);
    }
  }

  lemma {:induction false} PartBound(es: seq<Enc>, i: nat)
    requires i < |es|
    ensures Len(es[i]) <= LenAll(es)
  {
    if i > 0 {
      PartBound(es[1..], i - 1);
    }
  }

  function Pick(es: seq<Enc>, order: seq<nat>): (r: seq<Enc>)
    requires forall j :: 0 <= j < |order| ==> order[j] < |es|
    ensures |r| == |order|
  {
    seq(|order|, j requires 0 <= j < |order| => es[order[j]])
  }

  /** The members that an order names are filled in; the others keep what they held. */
  function Filled(ms: seq<Val>, new_: seq<Val>, order: seq<nat>): (r: seq<Val>)
    requires |ms| == |new_|
    ensures |r| == |ms|
  {
    seq(|ms|, i requires 0 <= i < |ms| => if i in order then new_[i] else ms[i])
  }

  predicate Distinct(order: seq<nat>) {
    forall i, j :: 0 <= i < j < |order| ==> order[i] != order[j]
  }

  /** What the member loops rely on, one level of the schema deep. */
  predicate Members(vs: seq<Val>, ty: Ty) {
    && ty.TStruct? && TypedAll(vs, ty.fields) && DistinctTags(ty.fields)
    && forall i :: 0 <= i < |vs| ==>
         var f := ty.fields[i];
         && WellFormed(f.ty, f.params) && (f.params.optional ==> Nillable(f.ty))
         && (Absent(vs[i], f) || Aligned(vs[i], f.ty, f.params))
  }

  lemma {:induction false} MembersOf(v: Val, ty: Ty, p: Params)
    requires ty.TStruct? && Typed(v, ty) && WellFormed(ty, p) && Aligned(v, ty, p)
    ensures v.VStruct? && Members(v.members, ty)
  {
  }

  lemma {:induction false} ZeroNillable(ty: Ty)
    requires Nillable(ty)
    ensures Zero(ty) == Nil
  {
  }

  lemma {:induction false} SeqStep(ty: Ty, ms: seq<Val>, bytes: octets, off: nat, c: nat, tag: nat, next: nat, k: nat, x: Val)
    requires ty.TStruct? && TypedAll(ms, ty.fields) && off < |bytes|
    requires Element(bytes, off) == Ok((tag, next)) && FindField(ty.fields, c, tag) == Ok(k)
    requires ParseField(ty.fields[k].ty, ms[k], bytes[off..next], ty.fields[k].params) == Ok(x)
    ensures TypedAll(ms[k := x], ty.fields)
    ensures SeqLoop(ty, ms, bytes, off, c) == SeqLoop(ty, ms[k := x], bytes, next, k + 1)
  {
    hide ParseField, Element, FindField, Typed;
  }

  lemma {:induction false} MakeStep(vs: seq<Val>, ty: Ty, k: nat)
    requires ty.TStruct? && TypedAll(vs, ty.fields) && k < |vs| && MakeMembers(vs, ty, k).Ok?
    ensures var parts, f := MakeMembers(vs, ty, k).value, ty.fields[k];
            && MakeMembers(vs, ty, k + 1) == Ok(parts[1..])
            && ImageAll(parts) == Image(parts[0]) + ImageAll(parts[1..])
            && LenAll(parts) == Len(parts[0]) + LenAll(parts[1..])
            && if Absent(vs[k], f) then parts[0] == BytesEnc([]) else MakeField(vs[k], f.ty, f.params) == Ok(parts[0])
  {
    hide MakeField, Typed, Image, Len;
  }

  /** The SEQUENCE loop, from member `k` on: absent members are passed over and present ones filled in. */
  lemma {:induction false} SeqMembers(vs: seq<Val>, ty: Ty, k: nat, ms: seq<Val>, bytes: octets, off: nat, c: nat)
    requires Members(vs, ty) && c <= k <= |vs|
    requires MakeMembers(vs, ty, k).Ok? && LenAll(MakeMembers(vs, ty, k).value) < TWO_24
    requires off <= |bytes| && bytes[off..] == ImageAll(MakeMembers(vs, ty, k).value)
    requires TypedAll(ms, ty.fields)
    requires forall i :: k <= i < |ms| ==> ms[i] == Zero(ty.fields[i].ty)
    ensures SeqLoop(ty, ms, bytes, off, c) == Ok(ms[..k] + ReturnedMembers(vs, ty.fields)[k..])
    decreases ty, 0, |vs| - k
  {
    hide MakeField, ParseField, Typed, WellFormed, Aligned, Zero, Returned, Element, FindField, Image, Len,
         DistinctTags, MakeMembers, SeqLoop, ImageAll, LenAll;
    var fs := ty.fields;
    var rm := ReturnedMembers(vs, fs);
    if k == |vs| {
      SeqEnd(vs, ty, ms, bytes, off, c);
      assert ms[..k] + rm[k..] == ms;
    } else {
      MakeStep(vs, ty, k);
      var parts := MakeMembers(vs, ty, k).value;
      var rest := ImageAll(parts[1..]);
      if Absent(vs[k], fs[k]) {
        ZeroNillable(fs[k].ty);
        EmptyPart(parts[0]);
        assert bytes[off..] == rest;
        SeqMembers(vs, ty, k + 1, ms, bytes, off, c);
        assert ms[..k + 1] + rm[k + 1..] == ms[..k] + rm[k..];
      } else {
        var f := fs[k];
        EncodedElement(vs[k], f.ty, f.params, bytes, off, rest);
        FindFieldDistinct(fs, c, k);
        ParseMarshalled(vs[k], f.ty, f.params);
        var ms' := ms[k := rm[k]];
        SeqStep(ty, ms, bytes, off, c, f.params.tag.value, off + Len(parts[0]), k, rm[k]);
        SeqMembers(vs, ty, k + 1, ms', bytes, off + Len(parts[0]), k + 1);
        assert ms'[..k + 1] + rm[k + 1..] == ms[..k] + rm[k..];
      }
    }
  }

  lemma {:induction false} SeqEnd(vs: seq<Val>, ty: Ty, ms: seq<Val>, bytes: octets, off: nat, c: nat)
    requires ty.TStruct? && TypedAll(vs, ty.fields) && TypedAll(ms, ty.fields)
    requires off <= |bytes| && MakeMembers(vs, ty, |vs|).Ok? && bytes[off..] == ImageAll(MakeMembers(vs, ty, |vs|).value)
    ensures SeqLoop(ty, ms, bytes, off, c) == Ok(ms)
  {
    assert off == |bytes|;
  }

  lemma {:induction false} EmptyPart(e: Enc)
    requires e == BytesEnc([])
    ensures Image(e) == [] && Len(e) == 0
  {
  }

  lemma {:induction false} SetStep(ty: Ty, ms: seq<Val>, bytes: octets, off: nat, tag: nat, next: nat, k: nat, x: Val)
    requires ty.TStruct? && TypedAll(ms, ty.fields) && off < |bytes|
    requires Element(bytes, off) == Ok((tag, next)) && FindField(ty.fields, 0, tag) == Ok(k)
    requires ParseField(ty.fields[k].ty, ms[k], bytes[off..next], ty.fields[k].params) == Ok(x)
    ensures TypedAll(ms[k := x], ty.fields)
    ensures SetLoop(ty, ms, bytes, off) == SetLoop(ty, ms[k := x], bytes, next)
  {
    hide ParseField, Element, FindField, Typed;
  }

  lemma {:induction false} SetEnd(ty: Ty, ms: seq<Val>, bytes: octets, off: nat)
    requires ty.TStruct? && TypedAll(ms, ty.fields) && off == |bytes|
    ensures SetLoop(ty, ms, bytes, off) == Ok(ms)
  {
  }

  /** The first of the picked parts, then the rest of them. */
  lemma {:induction false} PickStep(es: seq<Enc>, order: seq<nat>)
    requires order != [] && forall j :: 0 <= j < |order| ==> order[j] < |es|
    ensures ImageAll(Pick(es, order)) == Image(es[order[0]]) + ImageAll(Pick(es, order[1..]))
  {
    hide Image;
    assert Pick(es, order)[1..] == Pick(es, order[1..]);
  }

  /** The SET loop over the members in any order, each at most once. */
  lemma {:induction false} SetMembers(vs: seq<Val>, ty: Ty, order: seq<nat>, ms: seq<Val>, bytes: octets, off: nat)
    requires Members(vs, ty)
    requires MakeMembers(vs, ty, 0).Ok? && LenAll(MakeMembers(vs, ty, 0).value) < TWO_24
    requires Distinct(order) && forall j :: 0 <= j < |order| ==> order[j] < |vs|
    requires off <= |bytes| && bytes[off..] == ImageAll(Pick(MakeMembers(vs, ty, 0).value, order))
    requires TypedAll(ms, ty.fields)
    requires forall j :: 0 <= j < |order| ==> ms[order[j]] == Zero(ty.fields[order[j]].ty)
    ensures SetLoop(ty, ms, bytes, off) == Ok(Filled(ms, ReturnedMembers(vs, ty.fields), order))
    decreases ty, 0, |order|
  {
    hide MakeField, MakeMembers, ParseField, Typed, WellFormed, Aligned, Zero, Returned, Element, FindField, Image,
         Len, DistinctTags, SetLoop, ImageAll, LenAll, Pick;
    var fs := ty.fields;
    var rm := ReturnedMembers(vs, fs);
    var parts := MakeMembers(vs, ty, 0).value;
    if order == [] {
      assert ImageAll(Pick(parts, order)) == [] by { NothingPicked(parts, order); }
      SetEnd(ty, ms, bytes, off);
      assert Filled(ms, rm, order) == ms;
    } else {
      var k, order' := order[0], order[1..];
      MemberAt(vs, ty, 0, k);
      PartBound(parts, k);
      PickStep(parts, order);
      assert k !in order';
      assert forall i :: i in order <==> i == k || i in order';
      if Absent(vs[k], fs[k]) {
        ZeroNillable(fs[k].ty);
        EmptyPart(parts[k]);
        assert ms[k] == rm[k];
        assert bytes[off..] == ImageAll(Pick(parts, order'));
        SetMembers(vs, ty, order', ms, bytes, off);
        assert Filled(ms, rm, order') == Filled(ms, rm, order);
      } else {
        var f := fs[k];
        EncodedElement(vs[k], f.ty, f.params, bytes, off, ImageAll(Pick(parts, order')));
        FindFieldDistinct(fs, 0, k);
        ParseMarshalled(vs[k], f.ty, f.params);
        var ms' := ms[k := rm[k]];
        SetStep(ty, ms, bytes, off, f.params.tag.value, off + Len(parts[k]), k, rm[k]);
        SetMembers(vs, ty, order', ms', bytes, off + Len(parts[k]));
        assert Filled(ms', rm, order') == Filled(ms, rm, order);
      }
    }
  }

  lemma {:induction false} NothingPicked(es: seq<Enc>, order: seq<nat>)
    requires order == []
    ensures ImageAll(Pick(es, order)) == []
  {
  }

  /** The slice loop cuts the contents into the encoded elements and parses each. */
  lemma {:induction false} ListItems(vs: seq<Val>, ty: Ty, p: Params, bytes: octets, off: nat)
    requires ty.TList? && WellFormed(ty.elem, p.(tag := None)) && (vs != [] && p.tag.Some? ==> !EndsInChoice(ty.elem))
    requires forall i :: 0 <= i < |vs| ==> Typed(vs[i], ty.elem) && Aligned(vs[i], ty.elem, p.(tag := None))
    requires var es := MakeElems(vs, ty, p.(tag := None));
             && es.Ok? && LenAll(es.value) < TWO_24
             && off <= |bytes| && bytes[off..] == ImageAll(es.value)
    ensures Split(bytes, off).Ok?
    ensures ParseItems(ty, Split(bytes, off).value, p) == Ok(ReturnedElems(vs, ty.elem))
    decreases ty, 0, |vs|
  {
    hide MakeField, ParseField, Typed, WellFormed, Aligned, Zero, Returned, Element, Image, Len, EndsInChoice;
    var q := p.(tag := None);
    var t := ty.elem;
    if vs == [] {
      assert off == |bytes|;
    } else {
      var es := MakeElems(vs, ty, q).value;
      assert es[1..] == MakeElems(vs[1..], ty, q).value;
      EncodedElement(vs[0], t, q, bytes, off, ImageAll(es[1..]));
      var next := off + Len(es[0]);
      ListItems(vs[1..], ty, p, bytes, next);
      ParseMarshalled(vs[0], t, q);
      if p.tag.Some? {
        TagUnread(t, Zero(t), Image(es[0]), p);
      } else {
        assert p == q;
      }
      var items := Split(bytes, off).value;
      assert items[0] == Image(es[0]) && items[1..] == Split(bytes, next).value;
      assert [Returned(vs[0], t)] + ReturnedElems(vs[1..], t) == ReturnedElems(vs, t);
    }
  }

  // ---------------------------------------------------------------- the round trip

  lemma {:induction false} BitsRead(v: Val)
    requires Typed(v, TBits)
    ensures ParseBits(Image(BitsEnc(v.bs, v.bitLen))) == Ok(Returned(v, TBits))
  {
    var s := [(8 - v.bitLen % 8) as byte] + v.bs;
    assert Image(BitsEnc(v.bs, v.bitLen)) == s;
    assert s[1..] == v.bs;
  }

  /** Parsing the octets of any value into a fresh destination gives `Returned`, at any depth of nesting. */
  lemma {:induction false} ParseMarshalled(v: Val, ty: Ty, p: Params)
    requires Typed(v, ty) && WellFormed(ty, p) && Aligned(v, ty, p)
    requires MakeField(v, ty, p).Ok? && Len(MakeField(v, ty, p).value) < TWO_24
    ensures ParseField(ty, Zero(ty), Image(MakeField(v, ty, p).value), p) == Ok(Returned(v, ty))
    decreases ty, 1, 0
  {
    match ty
    case TPtr(t) => ParseMarshalled(v.target, t, p);
    case TStruct(fs) => StructMarshalled(v, ty, p);
    case TList(t) => ListMarshalled(v, ty, p);
    case TChoice(fs) => ChoiceMarshalled(v, ty, p);
    case _ => LeafMarshalled(v, ty, p);
  }

  lemma {:induction false} LeafMarshalled(v: Val, ty: Ty, p: Params)
    requires ty.TBits? || ty.TEnum? || ty.TInt? || ty.TOctets? || ty.TBool? || ty.TStr?
    requires Typed(v, ty) && WellFormed(ty, p)
    requires MakeField(v, ty, p).Ok? && Len(MakeField(v, ty, p).value) < TWO_24
    ensures ParseField(ty, Zero(ty), Image(MakeField(v, ty, p).value), p) == Ok(Returned(v, ty))
  {
    var e := MakeField(v, ty, p).value;
    EncodedHeader(v, ty, p, []);
    assert Image(e) + [] == Image(e);
    ContentsOf(e);
    hide ParseHeader, WellFormed;
    if ty.TBits? {
      BitsRead(v);
    } else if ty.TInt? || ty.TEnum? {
      BerInteger.IntDecoded(v.i);
    }
  }

  /** The octets after the header of an encoded value are its contents. */
  lemma {:induction false} ContentsOf(e: Enc)
    requires e.BerEnc?
    ensures Image(e) == e.tagAndLen + Image(e.value)
    ensures Image(e)[|e.tagAndLen|..] == Image(e.value) && |Image(e)| == Len(e) == |e.tagAndLen| + Len(e.value)
  {
  }

  /** What the parser does with a struct once its header is read. */
  lemma {:induction false} StructContents(ty: Ty, bytes: octets, p: Params)
    requires ty.TStruct? && ty.fields != [] && ParseHeader(bytes).Parsed?
    requires ParseHeader(bytes).size + ParseHeader(bytes).header.len == |bytes|
    ensures var off := ParseHeader(bytes).size;
            var ms := if p.isSet then SetLoop(ty, Zeros(ty.fields), bytes, off) else SeqLoop(ty, Zeros(ty.fields), bytes, off, 0);
            ParseField(ty, Zero(ty), bytes, p) == if ms.Fail? then Fail(ms.how) else Ok(VStruct(ms.value))
  {
    hide ParseHeader, SeqLoop, SetLoop, Typed;
    assert Zero(ty).members == Zeros(ty.fields);
  }

  lemma {:induction false} StructMarshalled(v: Val, ty: Ty, p: Params)
    requires ty.TStruct? && Typed(v, ty) && WellFormed(ty, p) && Aligned(v, ty, p)
    requires MakeField(v, ty, p).Ok? && Len(MakeField(v, ty, p).value) < TWO_24
    ensures ParseField(ty, Zero(ty), Image(MakeField(v, ty, p).value), p) == Ok(Returned(v, ty))
    decreases ty, 0, |ty.fields| + 2
  {
    hide MakeField, ParseField, Typed, WellFormed, Aligned, Zero, MakeMembers, SeqLoop, SetLoop, ParseHeader,
         Members, Image, Len, Returned, ReturnedMembers;
    MembersOf(v, ty, p);
    StructEncoding(v, ty, p);
    EncodedHeader(v, ty, p, []);
    var e := MakeField(v, ty, p).value;
    var bytes := Image(e);
    assert bytes + [] == bytes;
    ContentsOf(e);
    StructContents(ty, bytes, p);
    ReturnedStruct(v, ty);
    if p.isSet {
      WholeSet(v.members, ty, bytes, |e.tagAndLen|);
    } else {
      WholeSeq(v.members, ty, bytes, |e.tagAndLen|);
    }
  }

  lemma {:induction false} ReturnedStruct(v: Val, ty: Ty)
    requires ty.TStruct? && Typed(v, ty)
    ensures TypedAll(v.members, ty.fields) && Returned(v, ty) == VStruct(ReturnedMembers(v.members, ty.fields))
  {
  }

  lemma {:induction false} WholeSeq(vs: seq<Val>, ty: Ty, bytes: octets, off: nat)
    requires Members(vs, ty)
    requires MakeMembers(vs, ty, 0).Ok? && LenAll(MakeMembers(vs, ty, 0).value) < TWO_24
    requires off <= |bytes| && bytes[off..] == ImageAll(MakeMembers(vs, ty, 0).value)
    ensures SeqLoop(ty, Zeros(ty.fields), bytes, off, 0) == Ok(ReturnedMembers(vs, ty.fields))
    decreases ty, 0, |ty.fields| + 1
  {
    hide MakeMembers, Typed, WellFormed, Aligned, SeqLoop, ImageAll, LenAll;
    SeqMembers(vs, ty, 0, Zeros(ty.fields), bytes, off, 0);
    assert Zeros(ty.fields)[..0] + ReturnedMembers(vs, ty.fields)[0..] == ReturnedMembers(vs, ty.fields);
  }

  lemma {:induction false} WholeSet(vs: seq<Val>, ty: Ty, bytes: octets, off: nat)
    requires Members(vs, ty)
    requires MakeMembers(vs, ty, 0).Ok? && LenAll(MakeMembers(vs, ty, 0).value) < TWO_24
    requires off <= |bytes| && bytes[off..] == ImageAll(MakeMembers(vs, ty, 0).value)
    ensures SetLoop(ty, Zeros(ty.fields), bytes, off) == Ok(ReturnedMembers(vs, ty.fields))
    decreases ty, 0, |ty.fields| + 1
  {
    hide MakeMembers, Typed, WellFormed, Aligned, SetLoop, ImageAll, LenAll;
    var order := seq(|vs|, i => i);
    assert Pick(MakeMembers(vs, ty, 0).value, order) == MakeMembers(vs, ty, 0).value;
    SetMembers(vs, ty, order, Zeros(ty.fields), bytes, off);
    forall i | 0 <= i < |vs|
      ensures i in order
    {
      assert order[i] == i;
    }
    assert Filled(Zeros(ty.fields), ReturnedMembers(vs, ty.fields), order) == ReturnedMembers(vs, ty.fields);
  }

  lemma {:induction false} StructEncoding(v: Val, ty: Ty, p: Params)
    requires ty.TStruct? && Typed(v, ty) && MakeField(v, ty, p).Ok?
    ensures var e := MakeField(v, ty, p).value;
            && ty.fields != [] && TypedAll(v.members, ty.fields) && MakeMembers(v.members, ty, 0).Ok?
            && e.value == StructEnc(MakeMembers(v.members, ty, 0).value)
            && Image(e.value) == ImageAll(MakeMembers(v.members, ty, 0).value)
            && Len(e.value) == LenAll(MakeMembers(v.members, ty, 0).value) <= Len(e)
  {
  }

  lemma {:induction false} ListMarshalled(v: Val, ty: Ty, p: Params)
    requires ty.TList? && Typed(v, ty) && WellFormed(ty, p) && Aligned(v, ty, p)
    requires MakeField(v, ty, p).Ok? && Len(MakeField(v, ty, p).value) < TWO_24
    ensures ParseField(ty, Zero(ty), Image(MakeField(v, ty, p).value), p) == Ok(Returned(v, ty))
    decreases ty, 0, if v.VList? then |v.elems| + 1 else 1
  {
    hide MakeField, ParseField, Typed, WellFormed, Aligned, Zero, ParseHeader, Image, Len, Returned, MakeElems,
         ImageAll, LenAll, ReturnedElems, ParseItems, Split;
    var vs := ListEncoding(v, ty, p);
    EncodedHeader(v, ty, p, []);
    var e := MakeField(v, ty, p).value;
    var bytes := Image(e);
    assert bytes + [] == bytes;
    ContentsOf(e);
    ListItems(vs, ty, p, bytes, |e.tagAndLen|);
    ListContents(ty, bytes, p);
  }

  /** What the parser does with a list once its header is read. */
  lemma {:induction false} ListContents(ty: Ty, bytes: octets, p: Params)
    requires ty.TList? && ParseHeader(bytes).Parsed?
    requires ParseHeader(bytes).size + ParseHeader(bytes).header.len == |bytes|
    requires Split(bytes, ParseHeader(bytes).size).Ok?
    ensures var vs := ParseItems(ty, Split(bytes, ParseHeader(bytes).size).value, p);
            ParseField(ty, Zero(ty), bytes, p) == if vs.Fail? then Fail(vs.how) else Ok(VList(vs.value))
  {
    hide ParseHeader, Split, ParseItems, Typed;
  }

  /** One level of the definitions, for a list that has an encoding. */
  lemma {:induction false} ListEncoding(v: Val, ty: Ty, p: Params) returns (vs: seq<Val>)
    requires ty.TList? && Typed(v, ty) && WellFormed(ty, p) && Aligned(v, ty, p) && MakeField(v, ty, p).Ok?
    ensures |vs| == if v.VList? then |v.elems| else 0
    ensures forall i :: 0 <= i < |vs| ==> Typed(vs[i], ty.elem) && Aligned(vs[i], ty.elem, p.(tag := None))
    ensures WellFormed(ty.elem, p.(tag := None)) && (vs != [] && p.tag.Some? ==> !EndsInChoice(ty.elem))
    ensures Returned(v, ty) == VList(ReturnedElems(vs, ty.elem))
    ensures var e, es := MakeField(v, ty, p).value, MakeElems(vs, ty, p.(tag := None));
            && es.Ok? && Image(e.value) == ImageAll(es.value) && LenAll(es.value) == Len(e.value) <= Len(e)
  {
    vs := if v.Nil? then [] else v.elems;
    ListReturned(v, ty, vs);
    ListEncoded(v, ty, p, vs);
  }

  lemma {:induction false} ListReturned(v: Val, ty: Ty, vs: seq<Val>)
    requires ty.TList? && Typed(v, ty) && vs == if v.Nil? then [] else v.elems
    ensures forall i :: 0 <= i < |vs| ==> Typed(vs[i], ty.elem)
    ensures Returned(v, ty) == VList(ReturnedElems(vs, ty.elem))
  {
    assert Returned(v, ty).elems == ReturnedElems(vs, ty.elem);
  }

  lemma {:induction false} ListEncoded(v: Val, ty: Ty, p: Params, vs: seq<Val>)
    requires ty.TList? && Typed(v, ty) && MakeField(v, ty, p).Ok? && vs == if v.Nil? then [] else v.elems
    requires forall i :: 0 <= i < |vs| ==> Typed(vs[i], ty.elem)
    ensures var e, es := MakeField(v, ty, p).value, MakeElems(vs, ty, p.(tag := None));
            && es.Ok? && Image(e.value) == ImageAll(es.value) && LenAll(es.value) == Len(e.value) <= Len(e)
  {
    hide MakeElems, Typed;
  }

  /** An untagged choice parses as its selected arm; a tagged one reads the arm from the size of the inner header on. */
  lemma {:induction false} ChoiceContents(ty: Ty, dst: Val, bytes: octets, p: Params)
    requires ty.TChoice? && Typed(dst, ty) && ParseHeader(bytes).Parsed?
    requires ParseHeader(bytes).size + ParseHeader(bytes).header.len <= |bytes|
    ensures p.tag.None? ==> ParseField(ty, dst, bytes, p) == ParseArm(ty, dst, bytes, ParseHeader(bytes).header.tag, 0)
    ensures p.tag.Some? ==>
              var inner := ParseHeader(bytes[ParseHeader(bytes).size..]);
              ParseField(ty, dst, bytes, p) ==
                if inner.Malformed? then Fail(inner.how)
            else if inner.size + inner.header.len > |bytes| then Fail(Error)
                else ParseArm(ty, dst, bytes, inner.header.tag, inner.size)
  {
  }

  lemma {:induction false} ChoiceMarshalled(v: Val, ty: Ty, p: Params)
    requires ty.TChoice? && Typed(v, ty) && WellFormed(ty, p) && Aligned(v, ty, p)
    requires MakeField(v, ty, p).Ok? && Len(MakeField(v, ty, p).value) < TWO_24
    ensures ParseField(ty, Zero(ty), Image(MakeField(v, ty, p).value), p) == Ok(Returned(v, ty))
    decreases ty, 0, 0
  {
    hide MakeField, ParseField, Typed, WellFormed, Aligned, Zero, ParseHeader, Image, Len, Returned, FindArm;
    var k := ChoiceEncoding(v, ty, p);
    var f := ty.arms[k];
    var inner := MakeField(v.choices[k], f.ty, f.params).value;
    var e := MakeField(v, ty, p).value;
    var bytes := Image(e);
    EncodedHeader(v, ty, p, []);
    EncodedHeader(v.choices[k], f.ty, f.params, []);
    ContentsOf(e);
    ContentsOf(inner);
    assert bytes + [] == bytes && Image(inner) + [] == Image(inner) && bytes[0..] == bytes;
    ChoiceContents(ty, Zero(ty), bytes, p);
    FindArmDistinct(ty.arms, 0, k);
    ParseMarshalled(v.choices[k], f.ty, f.params);
  }

  /** One level of the definitions, for a choice that has an encoding. */
  lemma {:induction false} ChoiceEncoding(v: Val, ty: Ty, p: Params) returns (k: nat)
    requires ty.TChoice? && Typed(v, ty) && WellFormed(ty, p) && Aligned(v, ty, p) && MakeField(v, ty, p).Ok?
    ensures v.VChoice? && |v.choices| == |ty.arms| && k < |ty.arms| && DistinctTags(ty.arms)
    ensures Zero(ty).VChoice? && Zero(ty).choices == Zeros(ty.arms)
    ensures var f := ty.arms[k];
            && Typed(v.choices[k], f.ty) && WellFormed(f.ty, f.params) && Aligned(v.choices[k], f.ty, f.params)
            && MakeField(v.choices[k], f.ty, f.params).Ok?
            && Returned(v, ty) == VChoice(k + 1, Zeros(ty.arms)[k := Returned(v.choices[k], f.ty)])
    ensures var e, inner := MakeField(v, ty, p).value, MakeField(v.choices[k], ty.arms[k].ty, ty.arms[k].params).value;
            && Len(inner) <= Len(e)
            && if p.tag.None? then e == inner else e.value == inner && |e.tagAndLen| == |inner.tagAndLen|
  {
    hide MakeField, Typed, WellFormed, Aligned, Zero, Returned, Image, Len;
    ChoiceImage(v, ty, p);
    k := v.present - 1;
    ChoiceLevels(v, ty, p);
    var e := MakeField(v, ty, p).value;
    ContentsOf(e);
  }

  lemma {:induction false} ChoiceLevels(v: Val, ty: Ty, p: Params)
    requires ty.TChoice? && v.VChoice? && Typed(v, ty) && WellFormed(ty, p) && Aligned(v, ty, p)
    requires 1 <= v.present <= |ty.arms| == |v.choices|
    ensures DistinctTags(ty.arms)
    ensures Zero(ty).VChoice? && Zero(ty).choices == Zeros(ty.arms)
    ensures var f, x := ty.arms[v.present - 1], v.choices[v.present - 1];
            && Typed(x, f.ty) && WellFormed(f.ty, f.params) && Aligned(x, f.ty, f.params)
            && Returned(v, ty) == VChoice(v.present, Zeros(ty.arms)[v.present - 1 := Returned(x, f.ty)])
            && (p.tag.Some? ==> HeadersMatch(MakeField(v, ty, p)))
  {
    hide MakeField;
  }

  lemma {:induction false} ChoiceImage(v: Val, ty: Ty, p: Params)
    requires ty.TChoice? && Typed(v, ty) && MakeField(v, ty, p).Ok?
    ensures v.VChoice? && |v.choices| == |ty.arms| && 1 <= v.present <= |ty.arms|
    ensures Typed(v.choices[v.present - 1], ty.arms[v.present - 1].ty)
    ensures var f, x := ty.arms[v.present - 1], v.choices[v.present - 1];
            && MakeField(x, f.ty, f.params).Ok?
            && var e, inner := MakeField(v, ty, p).value, MakeField(x, f.ty, f.params).value;
               if p.tag.None? then e == inner else e.value == inner
  {
  }

  // ---------------------------------------------------------------- exactly when the value itself comes back

  const TWO_61: int := 0x2000_0000_0000_0000

  /** The octet count is one more than the whole octets in BitLength (modulo 2^61, which no buffer reaches):
      for a bit string of ceil(BitLength / 8) octets this says BitLength is not a multiple of eight. */
  predicate SurvivesBits(bs: octets, bitLen: nat) {
    (|bs| - 1) % TWO_61 == bitLen / 8
  }

  /** Values that come back unchanged: conditions on the leaves that a caller can check before the call. */
  predicate Faithful(v: Val, ty: Ty)
    requires Typed(v, ty)
    decreases ty
  {
    match ty
    case TInt => BerInteger.SurvivesInt(v.i)
    case TEnum => BerInteger.SurvivesInt(v.i)
    case TBool => true
    case TStr => true
    case TOctets => v.VOctets?
    case TBits => SurvivesBits(v.bs, v.bitLen)
    case TPtr(t) => v.Nil? || Faithful(v.target, t)
    case TList(t) => v.VList? && forall i :: 0 <= i < |v.elems| ==> Faithful(v.elems[i], t)
    case TStruct(fs) => forall i :: 0 <= i < |fs| ==> Absent(v.members[i], fs[i]) || Faithful(v.members[i], fs[i].ty)
    case TChoice(fs) =>
      1 <= v.present <= |fs| ==>
        && Faithful(v.choices[v.present - 1], fs[v.present - 1].ty)
        && forall i :: 0 <= i < |fs| && i != v.present - 1 ==> v.choices[i] == Zero(fs[i].ty)
  }

  lemma {:induction false} BitsSurvive(bs: octets, bitLen: nat)
    requires bitLen < TWO_64
    ensures (|bs| * 8 - (8 - bitLen % 8)) % TWO_64 == bitLen <==> SurvivesBits(bs, bitLen)
  {
    var x := |bs| - 1;
    var q, r := x / TWO_61, x % TWO_61;
    assert x == q * TWO_61 + r;
    ModUnique(x * 8 + bitLen % 8, q, r * 8 + bitLen % 8, TWO_64);
    assert bitLen == bitLen / 8 * 8 + bitLen % 8;
  }

  lemma {:induction false} ReturnedUnchanged(v: Val, ty: Ty)
    requires Typed(v, ty)
    ensures Returned(v, ty) == v <==> Faithful(v, ty)
    decreases ty
  {
    match ty
    case TInt =>
      BerInteger.IntDecoded(v.i);
      BerInteger.IntRoundTrip(v.i);
    case TEnum =>
      BerInteger.IntDecoded(v.i);
      BerInteger.IntRoundTrip(v.i);
    case TBits => BitsSurvive(v.bs, v.bitLen);
    case TPtr(t) =>
      if v.Ref? {
        ReturnedUnchanged(v.target, t);
      }
    case TList(t) => UnchangedList(v, ty);
    case TStruct(fs) => UnchangedStruct(v, ty);
    case TChoice(fs) =>
      if 1 <= v.present <= |fs| {
        UnchangedChoice(v, ty);
      }
    case _ =>
  }

  lemma {:induction false} UnchangedList(v: Val, ty: Ty)
    requires ty.TList? && Typed(v, ty)
    ensures Returned(v, ty) == v <==> Faithful(v, ty)
    decreases ty, 0
  {
    if v.VList? {
      forall i | 0 <= i < |v.elems|
        ensures Returned(v.elems[i], ty.elem) == v.elems[i] <==> Faithful(v.elems[i], ty.elem)
      {
        ReturnedUnchanged(v.elems[i], ty.elem);
      }
      SameSeq(Returned(v, ty).elems, v.elems);
    }
  }

  lemma {:induction false} UnchangedStruct(v: Val, ty: Ty)
    requires ty.TStruct? && Typed(v, ty)
    ensures Returned(v, ty) == v <==> Faithful(v, ty)
    decreases ty, 0
  {
    var fs := ty.fields;
    forall i | 0 <= i < |fs|
      ensures ReturnedMember(v.members[i], fs[i]) == v.members[i] <==>
                Absent(v.members[i], fs[i]) || Faithful(v.members[i], fs[i].ty)
    {
      ReturnedUnchanged(v.members[i], fs[i].ty);
    }
    SameSeq(Returned(v, ty).members, v.members);
  }

  lemma {:induction false} UnchangedChoice(v: Val, ty: Ty)
    requires ty.TChoice? && v.VChoice? && Typed(v, ty) && 1 <= v.present <= |ty.arms|
    ensures Returned(v, ty) == v <==> Faithful(v, ty)
    decreases ty, 0
  {
    hide Faithful, Returned, Typed, Zero;
    ChoiceReturned(v, ty);
    ChoiceFaithful(v, ty);
    var k := v.present - 1;
    ReturnedUnchanged(v.choices[k], ty.arms[k].ty);
    ZerosBut(ty.arms, v.choices, k, Returned(v.choices[k], ty.arms[k].ty));
  }

  lemma {:induction false} ChoiceReturned(v: Val, ty: Ty)
    requires ty.TChoice? && Typed(v, ty) && 1 <= v.present <= |ty.arms|
    ensures var k, fs := v.present - 1, ty.arms;
            && v.VChoice? && |v.choices| == |fs| && Typed(v.choices[k], fs[k].ty)
            && Returned(v, ty) == VChoice(v.present, Zeros(fs)[k := Returned(v.choices[k], fs[k].ty)])
  {
  }

  lemma {:induction false} ChoiceFaithful(v: Val, ty: Ty)
    requires ty.TChoice? && v.VChoice? && Typed(v, ty) && 1 <= v.present <= |ty.arms|
    requires |v.choices| == |ty.arms| && Typed(v.choices[v.present - 1], ty.arms[v.present - 1].ty)
    ensures var k, fs := v.present - 1, ty.arms;
            Faithful(v, ty) <==>
              Faithful(v.choices[k], fs[k].ty) && forall i :: 0 <= i < |fs| && i != k ==> v.choices[i] == Zero(fs[i].ty)
  {
    hide Typed, Zero;
  }

  lemma {:induction false} ZerosBut(fs: seq<Field>, vs: seq<Val>, k: nat, x: Val)
    requires k < |fs| == |vs|
    ensures Zeros(fs)[k := x] == vs <==>
            x == vs[k] && forall i :: 0 <= i < |fs| && i != k ==> vs[i] == Zero(fs[i].ty)
  {
    hide Zero, Typed;
    SameSeq(Zeros(fs)[k := x], vs);
  }

  lemma {:induction false} SameSeq<T>(a: seq<T>, b: seq<T>)
    requires |a| == |b|
    ensures a == b <==> forall i :: 0 <= i < |a| ==> a[i] == b[i]
  {
  }

  /** The round trip, exactly: the octets of a value parse back to that very value if and only if it is `Faithful`. */
  lemma {:induction false} RoundTrip(v: Val, ty: Ty, p: Params)
    requires Typed(v, ty) && WellFormed(ty, p) && Aligned(v, ty, p)
    requires MakeField(v, ty, p).Ok? && Len(MakeField(v, ty, p).value) < TWO_24
    ensures ParseField(ty, Zero(ty), Image(MakeField(v, ty, p).value), p) == Ok(v) <==> Faithful(v, ty)
  {
    ParseMarshalled(v, ty, p);
    ReturnedUnchanged(v, ty);
  }

  // ---------------------------------------------------------------- SET members in any order

  /** The order names each of the first `n` indices exactly once. */
  predicate Permutation(order: seq<nat>, n: nat) {
    Distinct(order) && (forall j :: 0 <= j < |order| ==> order[j] < n) && (forall i :: 0 <= i < n ==> i in order)
  }

  lemma {:induction false} LenAllRemove(es: seq<Enc>, j: nat)
    requires j < |es|
    ensures LenAll(es) == Len(es[j]) + LenAll(es[..j] + es[j + 1..])
  {
    hide Len;
    if j == 0 {
      assert es[..0] + es[1..] == es[1..];
    } else {
      LenAllRemove(es[1..], j - 1);
      var r := es[..j] + es[j + 1..];
      assert r[1..] == es[1..][..j - 1] + es[1..][j..];
    }
  }

  /** The total length of the members does not depend on their order. */
  lemma {:induction false} LenAllPermuted(es: seq<Enc>, order: seq<nat>)
    requires Permutation(order, |es|)
    ensures LenAll(Pick(es, order)) == LenAll(es)
  {
    hide Len, LenAll;
    if es == [] {
      assert Pick(es, order) == [];
    } else {
      var n := |es| - 1;
      assert n in order;
      var j :| 0 <= j < |order| && order[j] == n;
      var rest := order[..j] + order[j + 1..];
      WithoutLast(order, n, j);
      LenAllPermuted(es[..n], rest);
      LenAllRemove(Pick(es, order), j);
      assert Pick(es, order)[..j] + Pick(es, order)[j + 1..] == Pick(es[..n], rest);
      LenAllAppend(es[..n], es[n]);
      assert es == es[..n] + [es[n]];
    }
  }

  lemma {:induction false} WithoutLast(order: seq<nat>, n: nat, j: nat)
    requires Permutation(order, n + 1) && j < |order| && order[j] == n
    ensures Permutation(order[..j] + order[j + 1..], n)
  {
    var rest := order[..j] + order[j + 1..];
    forall i | 0 <= i < n
      ensures i in rest
    {
      assert i in order;
      var k :| 0 <= k < |order| && order[k] == i;
      assert rest[if k < j then k else k - 1] == i;
    }
  }

  /** The octets of a SET whose members have been put in another order, under the same header. */
  function Reordered(v: Val, ty: Ty, p: Params, order: seq<nat>): octets
    requires ty.TStruct? && Typed(v, ty) && MakeField(v, ty, p).Ok?
    requires Permutation(order, |ty.fields|)
  {
    var e := MakeField(v, ty, p).value;
    e.tagAndLen + ImageAll(Pick(e.value.parts, order))
  }

  /** A SET decodes to the same record whatever the order of its member TLVs. */
  lemma {:induction false} SetOrderInsensitive(v: Val, ty: Ty, p: Params, order: seq<nat>)
    requires ty.TStruct? && p.isSet && Typed(v, ty) && WellFormed(ty, p) && Aligned(v, ty, p)
    requires MakeField(v, ty, p).Ok? && Len(MakeField(v, ty, p).value) < TWO_24
    requires Permutation(order, |ty.fields|)
    ensures ParseField(ty, Zero(ty), Reordered(v, ty, p, order), p) == Ok(Returned(v, ty))
    ensures ParseField(ty, Zero(ty), Reordered(v, ty, p, order), p) == ParseField(ty, Zero(ty), Image(MakeField(v, ty, p).value), p)
  {
    hide MakeField, ParseField, Typed, WellFormed, Aligned, Zero, MakeMembers, SetLoop, ParseHeader, Image, Len,
         Returned, ImageAll, LenAll, Pick;
    ParseMarshalled(v, ty, p);
    StructEncoding(v, ty, p);
    MembersOf(v, ty, p);
    ReturnedStruct(v, ty);
    var e := MakeField(v, ty, p).value;
    ReorderedHeader(v, ty, p, order);
    var bytes := Reordered(v, ty, p, order);
    StructContents(ty, bytes, p);
    assert bytes[|e.tagAndLen|..] == ImageAll(Pick(e.value.parts, order));
    var zs, rm := Zeros(ty.fields), ReturnedMembers(v.members, ty.fields);
    SetMembers(v.members, ty, order, zs, bytes, |e.tagAndLen|);
    assert Filled(zs, rm, order) == rm;
  }

  lemma {:induction false} ReorderedHeader(v: Val, ty: Ty, p: Params, order: seq<nat>)
    requires ty.TStruct? && Typed(v, ty) && WellFormed(ty, p)
    requires MakeField(v, ty, p).Ok? && Len(MakeField(v, ty, p).value) < TWO_24
    requires Permutation(order, |ty.fields|)
    ensures var bytes := Reordered(v, ty, p, order);
            var r := ParseHeader(bytes);
            r.Parsed? && r.size == |MakeField(v, ty, p).value.tagAndLen| && r.size + r.header.len == |bytes|
  {
    StructEncoding(v, ty, p);
    var e := MakeField(v, ty, p).value;
    var parts := e.value.parts;
    LenAllPermuted(parts, order);
    SameHeader(p, e, ImageAll(Pick(parts, order)));
  }

  /** A header only depends on how long the contents are. */
  lemma {:induction false} SameHeader(p: Params, e: Enc, contents: octets)
    requires e.BerEnc? && |contents| == Len(e.value) && Len(e) < TWO_24
    requires exists tag: nat :: tag < TWO_63 && Wrap(p, true, tag, e.value) == Ok(e)
    requires p.tag.Some? ==> p.tag.value < TWO_63
    ensures var r := ParseHeader(e.tagAndLen + contents);
            r.Parsed? && r.size == |e.tagAndLen| && r.header.len == |contents|
  {
    var tag: nat :| tag < TWO_63 && Wrap(p, true, tag, e.value) == Ok(e);
    HeaderRoundTrip(HeaderFor(p, true, tag, Len(e.value)), contents);
  }

  // ---------------------------------------------------------------- SEQUENCE members only in order

  /** The present members among `order` come in the order of their fields, none before field `c`. */
  predicate Rising(vs: seq<Val>, fs: seq<Field>, order: seq<nat>, c: nat)
    requires |vs| == |fs| && forall j :: 0 <= j < |order| ==> order[j] < |vs|
  {
    && (forall i :: 0 <= i < |order| && !Absent(vs[order[i]], fs[order[i]]) ==> c <= order[i])
    && (forall i, j :: 0 <= i < j < |order| && !Absent(vs[order[i]], fs[order[i]]) && !Absent(vs[order[j]], fs[order[j]]) ==>
          order[i] < order[j])
  }

  lemma {:induction false} RisingStep(vs: seq<Val>, fs: seq<Field>, order: seq<nat>, c: nat)
    requires |vs| == |fs| && order != [] && forall j :: 0 <= j < |order| ==> order[j] < |vs|
    ensures var k := order[0];
            Rising(vs, fs, order, c) <==>
              if Absent(vs[k], fs[k]) then Rising(vs, fs, order[1..], c)
              else c <= k && Rising(vs, fs, order[1..], k + 1)
  {
    hide Absent;
    var k, rest := order[0], order[1..];
    assert forall j :: 1 <= j < |order| ==> order[j] == rest[j - 1];
    if Absent(vs[k], fs[k]) {
      assert Rising(vs, fs, rest, c) ==> Rising(vs, fs, order, c);
    } else if c <= k && Rising(vs, fs, rest, k + 1) {
      assert forall j :: 1 <= j < |order| && !Absent(vs[order[j]], fs[order[j]]) ==> k + 1 <= rest[j - 1];
    }
  }

  /** A search that starts behind the only field with the tag finds nothing. */
  lemma {:induction false} FindFieldBehind(fs: seq<Field>, from: nat, k: nat)
    requires DistinctTags(fs) && k < from && k < |fs|
    ensures fs[k].params.tag.Some? && FindField(fs, from, fs[k].params.tag.value) == Fail(Error)
    decreases |fs| - from
  {
    if from < |fs| {
      FindFieldBehind(fs, from + 1, k);
    }
  }

  lemma {:induction false} SeqStuck(ty: Ty, ms: seq<Val>, bytes: octets, off: nat, c: nat, tag: nat, next: nat)
    requires ty.TStruct? && TypedAll(ms, ty.fields) && off < |bytes|
    requires Element(bytes, off) == Ok((tag, next)) && FindField(ty.fields, c, tag) == Fail(Error)
    ensures SeqLoop(ty, ms, bytes, off, c) == Fail(Error)
  {
    hide ParseField, Element, FindField, Typed;
  }

  /** The SEQUENCE loop over members in any order: it fills them in up to the first that comes too late. */
  lemma {:induction false} SeqPicked(vs: seq<Val>, ty: Ty, order: seq<nat>, ms: seq<Val>, bytes: octets, off: nat, c: nat)
    requires Members(vs, ty)
    requires MakeMembers(vs, ty, 0).Ok? && LenAll(MakeMembers(vs, ty, 0).value) < TWO_24
    requires Distinct(order) && forall j :: 0 <= j < |order| ==> order[j] < |vs|
    requires off <= |bytes| && bytes[off..] == ImageAll(Pick(MakeMembers(vs, ty, 0).value, order))
    requires TypedAll(ms, ty.fields)
    requires forall j :: 0 <= j < |order| ==> ms[order[j]] == Zero(ty.fields[order[j]].ty)
    ensures SeqLoop(ty, ms, bytes, off, c)
            == if Rising(vs, ty.fields, order, c) then Ok(Filled(ms, ReturnedMembers(vs, ty.fields), order)) else Fail(Error)
    decreases |order|
  {
    hide MakeField, MakeMembers, ParseField, Typed, WellFormed, Aligned, Zero, Returned, Element, FindField, Image,
         Len, DistinctTags, SeqLoop, ImageAll, LenAll, Pick, Rising;
    var fs := ty.fields;
    var rm := ReturnedMembers(vs, fs);
    var parts := MakeMembers(vs, ty, 0).value;
    if order == [] {
      NothingPicked(parts, order);
      SeqDone(ty, ms, bytes, off, c);
      NothingRising(vs, fs, c);
      assert Filled(ms, rm, order) == ms;
    } else {
      var k, order' := order[0], order[1..];
      MemberAt(vs, ty, 0, k);
      PartBound(parts, k);
      PickStep(parts, order);
      RisingStep(vs, fs, order, c);
      assert forall i :: i in order <==> i == k || i in order';
      if Absent(vs[k], fs[k]) {
        ZeroNillable(fs[k].ty);
        EmptyPart(parts[k]);
        assert bytes[off..] == ImageAll(Pick(parts, order'));
        SeqPicked(vs, ty, order', ms, bytes, off, c);
        assert Filled(ms, rm, order') == Filled(ms, rm, order);
      } else {
        var f := fs[k];
        EncodedElement(vs[k], f.ty, f.params, bytes, off, ImageAll(Pick(parts, order')));
        if k < c {
          FindFieldBehind(fs, c, k);
          SeqStuck(ty, ms, bytes, off, c, f.params.tag.value, off + Len(parts[k]));
        } else {
          FindFieldDistinct(fs, c, k);
          ParseMarshalled(vs[k], f.ty, f.params);
          var ms' := ms[k := rm[k]];
          SeqStep(ty, ms, bytes, off, c, f.params.tag.value, off + Len(parts[k]), k, rm[k]);
          SeqPicked(vs, ty, order', ms', bytes, off + Len(parts[k]), k + 1);
          assert Filled(ms', rm, order') == Filled(ms, rm, order);
        }
      }
    }
  }

  lemma {:induction false} SeqDone(ty: Ty, ms: seq<Val>, bytes: octets, off: nat, c: nat)
    requires ty.TStruct? && TypedAll(ms, ty.fields) && off == |bytes|
    ensures SeqLoop(ty, ms, bytes, off, c) == Ok(ms)
  {
  }

  lemma {:induction false} NothingRising(vs: seq<Val>, fs: seq<Field>, c: nat)
    requires |vs| == |fs|
    ensures Rising(vs, fs, [], c)
  {
  }

  /** A SEQUENCE decodes to its record if and only if its member TLVs come in the order of their fields; any other order is
      refused with an error. */
  lemma {:induction false} SequenceOrderMatters(v: Val, ty: Ty, p: Params, order: seq<nat>)
    requires ty.TStruct? && !p.isSet && Typed(v, ty) && WellFormed(ty, p) && Aligned(v, ty, p)
    requires MakeField(v, ty, p).Ok? && Len(MakeField(v, ty, p).value) < TWO_24
    requires Permutation(order, |ty.fields|)
    ensures ParseField(ty, Zero(ty), Reordered(v, ty, p, order), p)
            == if Rising(v.members, ty.fields, order, 0) then Ok(Returned(v, ty)) else Fail(Error)
  {
    hide MakeField, ParseField, Typed, WellFormed, Aligned, Zero, MakeMembers, SeqLoop, ParseHeader, Image, Len,
         Returned, ImageAll, LenAll, Pick, Rising;
    StructEncoding(v, ty, p);
    MembersOf(v, ty, p);
    ReturnedStruct(v, ty);
    var e := MakeField(v, ty, p).value;
    ReorderedHeader(v, ty, p, order);
    var bytes := Reordered(v, ty, p, order);
    StructContents(ty, bytes, p);
    assert bytes[|e.tagAndLen|..] == ImageAll(Pick(e.value.parts, order));
    var zs, rm := Zeros(ty.fields), ReturnedMembers(v.members, ty.fields);
    SeqPicked(v.members, ty, order, zs, bytes, |e.tagAndLen|, 0);
    assert Filled(zs, rm, order) == rm;
  }

  // ---------------------------------------------------------------- cut off

  /** The header before an encoded value. */
  lemma {:induction false} HeaderBefore(v: Val, ty: Ty, p: Params) returns (h: Header)
    requires Typed(v, ty) && WellFormed(ty, p)
    requires MakeField(v, ty, p).Ok? && Len(MakeField(v, ty, p).value) < TWO_24
    ensures var e := MakeField(v, ty, p).value;
            && Readable(h) && h.len == Len(e.value) && e.tagAndLen == HeaderOctets(h)
            && (p.tag.Some? ==> h.tag == p.tag.value)
    decreases ty
  {
    hide HeaderOctets, MakeMembers, MakeElems;
    var e := MakeField(v, ty, p).value;
    match ty
    case TPtr(t) => h := HeaderBefore(v.target, t, p);
    case TBits => h := HeaderFor(p, false, 3, Len(e.value));
    case TOctets => h := HeaderFor(p, false, 4, Len(e.value));
    case TEnum => h := HeaderFor(p, false, 10, Len(e.value));
    case TBool => h := HeaderFor(p, false, 1, Len(e.value));
    case TInt => h := HeaderFor(p, false, 2, Len(e.value));
    case TStr => h := HeaderFor(p, false, p.stringType, Len(e.value));
    case TStruct(fs) => h := HeaderFor(p, true, if p.isSet then 17 else 16, Len(e.value));
    case TList(t) => h := HeaderFor(p, true, if p.isSet then 17 else 16, Len(e.value));
    case TChoice(fs) =>
      if p.tag.None? {
        var k := v.present - 1;
        h := HeaderBefore(v.choices[k], fs[k].ty, fs[k].params);
      } else {
        h := HeaderFor(p, true, 0, Len(e.value));
      }
  }

  /** No value is read from octets that are cut off: the parser panics on empty input and between the first and the last
      length octet, and reports an error wherever else they end. */
  lemma {:induction false} CutRefused(v: Val, ty: Ty, p: Params, n: nat) returns (h: Header)
    requires Typed(v, ty) && WellFormed(ty, p)
    requires MakeField(v, ty, p).Ok? && n < Len(MakeField(v, ty, p).value) < TWO_24
    ensures var e := MakeField(v, ty, p).value;
            && IsHeader(h) && h.len < TWO_63 && e.tagAndLen == HeaderOctets(h) && (p.tag.Some? ==> h.tag == p.tag.value)
            && ParseField(ty, Zero(ty), Image(e)[..n], p)
               == Fail(if n == 0 || |TagOctets(h)| < n < |e.tagAndLen| then Panic else Error)
  {
    hide MakeField, Typed, WellFormed, Image, Len, ParseField, Zero, HeaderOctets;
    h := HeaderBefore(v, ty, p);
    var e := MakeField(v, ty, p).value;
    ContentsOf(e);
    var s := Image(e)[..n];
    if n < |e.tagAndLen| {
      assert s == HeaderOctets(h)[..n];
      HeaderCut(h, n);
    } else {
      HeaderRoundTrip(h, s[|e.tagAndLen|..]);
      assert s == HeaderOctets(h) + s[|e.tagAndLen|..];
    }
    HeaderFails(ty, Zero(ty), s, p);
  }

  /** What fails in the header fails the value, behind however many pointers. */
  lemma {:induction false} HeaderFails(ty: Ty, dst: Val, bytes: octets, p: Params)
    requires Typed(dst, ty)
    ensures var r := ParseHeader(bytes);
            && (r.Malformed? ==> ParseField(ty, dst, bytes, p) == Fail(r.how))
            && (r.Parsed? && r.size + r.header.len > |bytes| ==> ParseField(ty, dst, bytes, p) == Fail(Error))
    decreases ty
  {
    hide ParseHeader;
    if ty.TPtr? {
      HeaderFails(ty.elem, Zero(ty.elem), bytes, p);
    }
  }

  // ---------------------------------------------------------------- where the two directions part

  /** A tagged choice, aligned or not: the parser reads the selected arm from the inner header's size on,
      where the arm's octets really start at the outer header's size. */
  lemma {:induction false} TaggedChoiceReads(v: Val, ty: Ty, p: Params)
    requires ty.TChoice? && Typed(v, ty) && WellFormed(ty, p) && p.tag.Some?
    requires MakeField(v, ty, p).Ok? && Len(MakeField(v, ty, p).value) < TWO_24
    ensures var e := MakeField(v, ty, p).value;
            var f := ty.arms[v.present - 1];
            && e.value.BerEnc?
            && Image(e)[|e.tagAndLen|..] == Image(MakeField(v.choices[v.present - 1], f.ty, f.params).value)
            && ParseField(ty, Zero(ty), Image(e), p) ==
                 match ParseField(f.ty, Zero(f.ty), Image(e)[|e.value.tagAndLen|..], f.params)
                 case Fail(how) => Fail(how)
                 case Ok(x) => Ok(VChoice(v.present, Zeros(ty.arms)[v.present - 1 := x]))
  {
    hide MakeField, ParseField, Typed, WellFormed, Zero, ParseHeader, Image, Len, FindArm;
    ChoiceImage(v, ty, p);
    ChoiceZero(v, ty, p);
    var k := v.present - 1;
    var f := ty.arms[k];
    var e := MakeField(v, ty, p).value;
    var inner := MakeField(v.choices[k], f.ty, f.params).value;
    ContentsOf(e);
    ContentsOf(inner);
    EncodedHeader(v, ty, p, []);
    EncodedHeader(v.choices[k], f.ty, f.params, []);
    assert Image(e) + [] == Image(e) && Image(inner) + [] == Image(inner);
    ChoiceContents(ty, Zero(ty), Image(e), p);
    FindArmDistinct(ty.arms, 0, k);
  }

  lemma {:induction false} ChoiceZero(v: Val, ty: Ty, p: Params)
    requires ty.TChoice? && v.VChoice? && Typed(v, ty) && WellFormed(ty, p) && 1 <= v.present <= |ty.arms|
    ensures |v.choices| == |ty.arms| && DistinctTags(ty.arms)
    ensures Zero(ty).VChoice? && Zero(ty).choices == Zeros(ty.arms)
    ensures Typed(v.choices[v.present - 1], ty.arms[v.present - 1].ty)
    ensures WellFormed(ty.arms[v.present - 1].ty, ty.arms[v.present - 1].params)
  {
  }

  function OctetChoice(armTag: nat): Ty {
    TChoice([Field(TOctets, Params(false, Some(armTag), false, 0))])
  }

  lemma {:induction false} OctetChoiceTyped(armTag: nat, bs: octets)
    requires armTag <= 30
    ensures var v, ty := VChoice(1, [VOctets(bs)]), OctetChoice(armTag);
            && Typed(v, ty) && WellFormed(ty, Params(false, Some(1), false, 0)) && Faithful(v, ty)
            && Zeros(ty.arms) == [Nil]
  {
    var fs := OctetChoice(armTag).arms;
    assert |fs| == 1 && fs[0].ty == TOctets;
    assert Zeros(fs)[0] == Nil;
  }

  /** Inner contents of 126 octets: the inner header takes two octets, the outer one three. */
  lemma {:induction false} OctetChoiceImage(armTag: nat, bs: octets)
    requires armTag <= 30 && |bs| == 126
    requires Typed(VChoice(1, [VOctets(bs)]), OctetChoice(armTag))
    ensures var e := MakeField(VChoice(1, [VOctets(bs)]), OctetChoice(armTag), Params(false, Some(1), false, 0));
            && e.Ok? && Image(e.value) == [0xA1, 0x81, 0x80, 0x80 + armTag, 0x7E] + bs
            && |e.value.tagAndLen| == 3 && e.value.value.BerEnc? && |e.value.value.tagAndLen| == 2
  {
    assert Typed(VOctets(bs), TOctets);
    hide Typed;
    var inner := Header(2, false, armTag, 126);
    assert HeaderOctets(inner) == [0x80 + armTag, 0x7E];
    var outer := Header(2, true, 1, 128);
    assert BeShortest(128) == [0x80];
    assert HeaderOctets(outer) == [0xA1, 0x81, 0x80];
    var arm := BerEnc(HeaderOctets(inner), BytesEnc(bs));
    assert Len(BytesEnc(bs)) == 126 && Image(BytesEnc(bs)) == bs;
    assert Len(arm) == 128 && Image(arm) == [0x80 + armTag, 0x7E] + bs;
    assert MakeField(VOctets(bs), TOctets, Params(false, Some(armTag), false, 0)) == Ok(arm);
    var p := Params(false, Some(1), false, 0);
    assert Wrap(p, true, 0, arm) == Ok(BerEnc(HeaderOctets(outer), arm));
    var v, ty := VChoice(1, [VOctets(bs)]), OctetChoice(armTag);
    assert ty.arms[0] == Field(TOctets, Params(false, Some(armTag), false, 0));
    assert MakeField(v, ty, p) == Ok(BerEnc(HeaderOctets(outer), arm));
    assert [0xA1, 0x81, 0x80] + ([0x80 + armTag, 0x7E] + bs) == [0xA1, 0x81, 0x80, 0x80 + armTag, 0x7E] + bs;
  }

  lemma {:induction false} OctetsContents(bytes: octets, p: Params)
    requires ParseHeader(bytes).Parsed? && ParseHeader(bytes).size + ParseHeader(bytes).header.len <= |bytes|
    ensures ParseField(TOctets, Nil, bytes, p) == Ok(VOctets(bytes[ParseHeader(bytes).size..]))
  {
    hide ParseHeader;
  }

  /** What the parser makes of the misaligned arm: the octets from the third on are read as a header. */
  lemma {:induction false} MisalignedRead(armTag: nat, bs: octets)
    requires armTag <= 30 && |bs| == 126
    ensures var v, ty, p := VChoice(1, [VOctets(bs)]), OctetChoice(armTag), Params(false, Some(1), false, 0);
            && Typed(v, ty) && MakeField(v, ty, p).Ok?
            && ParseField(ty, Zero(ty), Image(MakeField(v, ty, p).value), p) ==
                 match ParseField(TOctets, Nil, [0x80, 0x80 + armTag, 0x7E] + bs, ty.arms[0].params)
                 case Fail(how) => Fail(how)
                 case Ok(x) => Ok(VChoice(1, [x]))
  {
    hide ParseField, Image, Len, ParseHeader, MakeField, WellFormed, Typed, Faithful;
    var v, ty, p := VChoice(1, [VOctets(bs)]), OctetChoice(armTag), Params(false, Some(1), false, 0);
    OctetChoiceTyped(armTag, bs);
    OctetChoiceImage(armTag, bs);
    var e := MakeField(v, ty, p).value;
    assert Len(e) == |Image(e)| == 131;
    TaggedChoiceReads(v, ty, p);
    assert Image(e)[2..] == [0x80, 0x80 + armTag, 0x7E] + bs;
    assert ty.arms[0].ty == TOctets && Zero(TOctets) == Nil;
    assert forall x: Val :: Zeros(ty.arms)[0 := x] == [x];
  }

  lemma {:induction false} LowHeader(bytes: octets, len: nat, end: nat)
    requires bytes != [] && bytes[0] % 32 != 31 && ParseLength(bytes, 1) == Ok((len, end))
    ensures ParseHeader(bytes).Parsed? && ParseHeader(bytes).size == end && ParseHeader(bytes).header.len == len
  {
    hide ParseLength, TagLoop;
  }

  /** A length octet of 128 + n, for n at most one, announces n further length octets. */
  lemma {:induction false} MisreadHeader(bytes: octets)
    requires |bytes| >= 3 && bytes[0] == 0x80 && 0x80 <= bytes[1] <= 0x81
    ensures var r := ParseHeader(bytes);
            && r.Parsed? && r.size == bytes[1] - 0x7E
            && r.header.len == if bytes[1] == 0x80 then 0 else bytes[2] as nat
  {
    hide ParseHeader;
    if bytes[1] == 0x80 {
      assert bytes[2..2] == [];
      LowHeader(bytes, 0, 2);
    } else {
      assert bytes[2..3] == [] + [bytes[2]];
      BeNatAppend([], bytes[2]);
      LowHeader(bytes, bytes[2], 3);
    }
  }

  /** A concrete misaligned choice that does not come back: the arm's length octet leaks into its value. */
  lemma {:induction false} MisalignedChoiceFails(bs: octets)
    requires |bs| == 126
    ensures var v, ty, p := VChoice(1, [VOctets(bs)]), OctetChoice(0), Params(false, Some(1), false, 0);
            && Typed(v, ty) && MakeField(v, ty, p).Ok? && Faithful(v, ty)
            && ParseField(ty, Zero(ty), Image(MakeField(v, ty, p).value), p) == Ok(VChoice(1, [VOctets([0x7E] + bs)]))
  {
    hide ParseField, ParseHeader, Image, Len, MakeField, WellFormed, Typed, Faithful, Zero;
    OctetChoiceTyped(0, bs);
    MisalignedRead(0, bs);
    var bytes := [0x80, 0x80, 0x7E] + bs;
    MisreadHeader(bytes);
    OctetsContents(bytes, OctetChoice(0).arms[0].params);
    assert bytes[2..] == [0x7E] + bs;
  }

  /** Equal header sizes are not necessary either: with arm tag 1 the misread header ends where the arm's own does. */
  lemma {:induction false} MisalignedChoiceMaySurvive(bs: octets)
    requires |bs| == 126
    ensures var v, ty, p := VChoice(1, [VOctets(bs)]), OctetChoice(1), Params(false, Some(1), false, 0);
            && Typed(v, ty) && MakeField(v, ty, p).Ok? && !HeadersMatch(MakeField(v, ty, p))
            && ParseField(ty, Zero(ty), Image(MakeField(v, ty, p).value), p) == Ok(v)
  {
    hide ParseField, ParseHeader, Image, Len, MakeField, WellFormed, Typed, Faithful, Zero;
    OctetChoiceTyped(1, bs);
    OctetChoiceImage(1, bs);
    MisalignedRead(1, bs);
    var bytes := [0x80, 0x81, 0x7E] + bs;
    MisreadHeader(bytes);
    OctetsContents(bytes, OctetChoice(1).arms[0].params);
    assert bytes[3..] == bs;
  }
}
