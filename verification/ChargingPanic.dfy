/** A charging record that the CHF writes and the console panics on. */
module ChargingPanic {
  import opened Octets
  import opened BerSchema
  import BerHeader
  import BerInteger
  import BerMarshal
  import BerRoundTrip
  import opened CdrFile
  import opened Charging

  // ---------------------------------------------------------------- short values have short encodings

  /** Low tags and short contents take at most six header octets. */
  lemma {:induction false} WrapShort(p: Params, constructed: bool, universalTag: nat, value: BerMarshal.Enc)
    requires BerMarshal.Len(value) < TWO_16 && universalTag < 256 && (p.tag.Some? ==> p.tag.value < 256)
    ensures var e := BerMarshal.Wrap(p, constructed, universalTag, value);
            e.Ok? && BerMarshal.Len(e.value) <= 6 + BerMarshal.Len(value)
  {
    hide BerHeader.HighTag, BerHeader.BeShortest;
    var h := BerMarshal.HeaderFor(p, constructed, universalTag, BerMarshal.Len(value));
    HeaderShort(h);
  }

  lemma {:induction false} HeaderShort(h: BerHeader.Header)
    requires BerHeader.IsHeader(h) && h.tag < 256 && h.len < TWO_16
    ensures |BerHeader.HeaderOctets(h)| <= 6
  {
    assert Pow(128, 2) == 16384 && Pow(256, 2) == TWO_16 by {
      assert Pow(128, 1) == 128 && Pow(256, 1) == 256;
    }
    BerHeader.HighTagSize(h.tag, 2);
    BerHeader.BeShortestSize(h.len, 2);
  }

  /** The encoding of a value exists and takes at most `n` octets. */
  predicate Short(v: Val, f: Field, n: nat)
    requires Typed(v, f.ty)
  {
    var e := BerMarshal.MakeField(v, f.ty, f.params);
    e.Ok? && BerMarshal.Len(e.value) <= n
  }

  predicate ShortMember(v: Val, f: Field, n: nat)
    requires Typed(v, f.ty)
  {
    (f.params.optional ==> Nillable(f.ty)) && (Absent(v, f) || Short(v, f, n))
  }

  /** Members that are absent or short make a short struct. */
  lemma {:induction false} MembersShort(vs: seq<Val>, ty: Ty, k: nat, n: nat)
    requires ty.TStruct? && TypedAll(vs, ty.fields) && k <= |vs|
    requires forall i :: k <= i < |vs| ==> ShortMember(vs[i], ty.fields[i], n)
    ensures var r := BerMarshal.MakeMembers(vs, ty, k);
            r.Ok? && BerMarshal.LenAll(r.value) <= n * (|vs| - k)
    decreases |vs| - k
  {
    hide BerMarshal.MakeField, Typed, BerMarshal.Len;
    if k < |vs| {
      MembersShort(vs, ty, k + 1, n);
      var r := BerMarshal.MakeMembers(vs, ty, k + 1).value;
      assert ShortMember(vs[k], ty.fields[k], n);
      var head := BerMarshal.MakeMembers(vs, ty, k).value;
      assert head[1..] == r;
      EmptyShort();
      assert n * (|vs| - k) == n * (|vs| - k - 1) + n;
    }
  }

  lemma {:induction false} EmptyShort()
    ensures BerMarshal.Len(BerMarshal.BytesEnc([])) == 0
  {
  }

  /** A value of a type with an encoding of at most `n` octets. */
  predicate Fits(v: Val, ty: Ty, p: Params, n: nat) { Typed(v, ty) && Short(v, Field(ty, p), n) }

  lemma {:induction false} StructShort(vs: seq<Val>, ty: Ty, p: Params, n: nat, total: nat, k: nat)
    requires ty.TStruct? && TypedAll(vs, ty.fields) && k < |vs| && !Absent(vs[k], ty.fields[k])
    requires p.tag.Some? ==> p.tag.value < 256
    requires forall i :: 0 <= i < |vs| ==> ShortMember(vs[i], ty.fields[i], n)
    requires n * |vs| <= total < TWO_16
    ensures Fits(VStruct(vs), ty, p, 6 + total)
  {
    hide BerMarshal.Wrap, BerMarshal.MakeMembers, ShortMember;
    MembersShort(vs, ty, 0, n);
    var parts := BerMarshal.MakeMembers(vs, ty, 0).value;
    WrapShort(p, true, if p.isSet then 17 else 16, BerMarshal.StructEnc(parts));
  }

  /** The leaves that occur here. */
  lemma {:induction false} LeafShort(v: Val, ty: Ty, p: Params)
    requires Typed(v, ty) && (p.tag.Some? ==> p.tag.value < 256) && p.stringType < 256
    requires (v == VInt(200) && ty == TInt) || (v == VInt(1) && (ty == TInt || ty == TEnum)) || (v == VStr([]) && ty == TStr)
             || (v == VOctets([]) && ty == TOctets) || (v == VList([]) && ty.TList?)
    ensures Short(v, Field(ty, p), 8)
  {
    hide BerMarshal.Wrap;
    if v.VInt? {
      assert BerInteger.IntLen(0) == 1 && BerInteger.IntLen(1) == 1 && BerInteger.IntLen(200) == 2;
      WrapShort(p, false, if ty.TInt? then 2 else 10, BerMarshal.IntEnc(v.i));
    } else if v.VList? {
      assert BerMarshal.MakeElems([], ty, p.(tag := None)) == Ok([]);
      WrapShort(p, true, if p.isSet then 17 else 16, BerMarshal.StructEnc([]));
    } else {
      WrapShort(p, false, if ty.TStr? then p.stringType else 4, BerMarshal.BytesEnc([]));
    }
  }

  lemma {:induction false} PointerShort(v: Val, t: Ty, p: Params, n: nat)
    requires Typed(v, t) && Short(v, Field(t, p), n)
    ensures Typed(Ref(v), TPtr(t)) && Short(Ref(v), Field(TPtr(t), p), n)
  {
  }

  lemma {:induction false} ListShort(v: Val, t: Ty, p: Params, n: nat)
    requires Typed(v, t) && Short(v, Field(t, p.(tag := None)), n) && n < TWO_16 && (p.tag.Some? ==> p.tag.value < 256)
    ensures Typed(VList([v]), TList(t)) && Short(VList([v]), Field(TList(t), p), n + 6)
  {
    hide BerMarshal.Wrap;
    var q := p.(tag := None);
    var e := BerMarshal.MakeField(v, t, q).value;
    assert [v][1..] == [];
    assert BerMarshal.MakeElems([], TList(t), q) == Ok([]);
    assert BerMarshal.MakeElems([v], TList(t), q) == Ok([e]) by {
      assert [e] + [] == [e];
    }
    BerMarshal.LenAllAppend([], e);
    assert [] + [e] == [e];
    WrapShort(p, true, if p.isSet then 17 else 16, BerMarshal.StructEnc([e]));
  }

  // ---------------------------------------------------------------- the record

  const SUBSCRIPTION := TStruct([Tagged(TEnum, 0), Tagged(TStr, 1)])
  const CONSUMER := TStruct([Tagged(TEnum, 0), Opt(TPtr(TStr), 1), Opt(TPtr(TOctets), 2), Opt(TPtr(TOctets), 3),
                             Opt(TPtr(TOctets), 4), Opt(TPtr(TOctets), 5)])
  const PDU_INFO := TStruct([Opt(TPtr(SNSSAI), 7), Opt(TPtr(TStr), 13)])

  function Tagged(ty: Ty, tag: nat): Field { Field(ty, Params(false, Some(tag), false, 0)) }

  /** The members of a charging record, by tag; structures that stay nil here stand as opaque pointers. */
  function RecordType(i: nat): Ty {
    if i in {0, 7, 9} then TInt
    else if i == 1 then TStr
    else if i == 2 then TPtr(SUBSCRIPTION)
    else if i == 3 then CONSUMER
    else if i == 5 then TList(USAGE)
    else if i == 6 then TOctets
    else if i in {8, 11, 27} then TPtr(TInt)
    else if i == 13 then TPtr(PDU_INFO)
    else TPtr(TOctets)
  }

  function RecordField(i: nat): Field {
    if i in {0, 1, 3, 6, 7, 9} then Tagged(RecordType(i), i) else Opt(RecordType(i), i)
  }

  const RECORD := Layout(TStruct(seq(28, i requires 0 <= i => RecordField(i))), 5, 13, 0, 1)

  const REPORT := UnitUsage(1, [], [])

  const SUBSCRIBER := VStruct([VInt(1), VStr([])])
  const SMF := VStruct([VInt(1), Nil, Nil, Nil, Nil, Nil])

  function RecordMember(i: nat): Val {
    if i == 0 then VInt(200)
    else if i in {7, 9} then VInt(1)
    else if i == 1 then VStr([])
    else if i == 2 then Ref(SUBSCRIBER)
    else if i == 3 then SMF
    else if i == 5 then VList([ToUsage(REPORT)])
    else if i == 6 then VOctets([])
    else if i in {11, 27} then Ref(VInt(1))
    else Nil
  }

  /** A record as `OpenCDR` makes it for a request without PDU session information, updated with one unit usage. */
  const NAMELESS := VStruct(seq(28, i requires 0 <= i => RecordMember(i)))

  /** All that one member of the record needs. */
  ghost predicate Sound(v: Val, f: Field) {
    && Typed(v, f.ty) && WellFormed(f.ty, f.params) && (f.params.optional ==> Nillable(f.ty))
    && (Absent(v, f) || BerRoundTrip.Aligned(v, f.ty, f.params)) && ShortMember(v, f, 100)
  }

  lemma {:induction false} LeafSound(v: Val, f: Field)
    requires f.params.tag.Some? && f.params.tag.value < 256 && f.params.stringType < 256
    requires f.params.optional ==> Nillable(f.ty)
    requires (v == VInt(200) && f.ty == TInt) || (v == VInt(1) && (f.ty == TInt || f.ty == TEnum))
             || (v == VStr([]) && f.ty == TStr) || (v == VOctets([]) && f.ty == TOctets)
             || (v == Nil && f.params.optional && (f.ty == TPtr(TOctets) || f.ty == TPtr(TInt) || f.ty == TPtr(TStr)))
             || (v == Ref(VInt(1)) && f.ty == TPtr(TInt)) || (v == Ref(VStr([])) && f.ty == TPtr(TStr))
    ensures Sound(v, f) && ShortMember(v, f, 8)
  {
    hide BerMarshal.MakeField;
    if v.Ref? {
      LeafShort(v.target, f.ty.elem, f.params);
      PointerShort(v.target, f.ty.elem, f.params, 8);
    } else if !v.Nil? {
      LeafShort(v, f.ty, f.params);
    }
  }

  /** A value under its own type and parameters, without the question whether it may be absent. */
  ghost predicate Inner(v: Val, ty: Ty, p: Params, n: nat) {
    Typed(v, ty) && WellFormed(ty, p) && BerRoundTrip.Aligned(v, ty, p) && Short(v, Field(ty, p), n)
  }

  predicate Low(p: Params) { (p.tag.Some? ==> p.tag.value < 256) && p.stringType < 256 }

  /** A struct of sound members is sound. */
  lemma {:induction false} StructInner(vs: seq<Val>, ty: Ty, p: Params, k: nat)
    requires ty.TStruct? && TypedAll(vs, ty.fields) && DistinctTags(ty.fields) && k < |vs| <= 8 && Low(p)
    requires !Absent(vs[k], ty.fields[k])
    requires forall i :: 0 <= i < |vs| ==> Sound(vs[i], ty.fields[i]) && ShortMember(vs[i], ty.fields[i], 8)
    ensures Inner(VStruct(vs), ty, p, 70)
  {
    hide BerMarshal.MakeField, ShortMember;
    StructShort(vs, ty, p, 8, 64, k);
  }

  lemma {:induction false} InnerSound(v: Val, f: Field)
    requires !f.params.optional && Inner(v, f.ty, f.params, 70)
    ensures Sound(v, f)
  {
    hide BerMarshal.MakeField, Typed, WellFormed, BerRoundTrip.Aligned;
  }

  lemma {:induction false} PointerSound(v: Val, t: Ty, p: Params)
    requires Inner(v, t, p, 70)
    ensures Sound(Ref(v), Field(TPtr(t), p))
  {
    PointerShort(v, t, p, 70);
    hide BerMarshal.MakeField;
  }

  lemma {:induction false} ListSound(v: Val, t: Ty, p: Params)
    requires Inner(v, t, p.(tag := None), 70) && Low(p) && !EndsInChoice(t)
    ensures Sound(VList([v]), Field(TList(t), p))
  {
    ListShort(v, t, p, 70);
    hide BerMarshal.MakeField;
  }

  // ---------------------------------------------------------------- its members

  lemma {:induction false} ContainerWellFormed(p: Params)
    requires Low(p)
    ensures WellFormed(CONTAINER, p)
  {
    hide WellFormed;
    var fs := CONTAINER_FIELDS;
    assert |fs| == 16;
    forall i | 0 <= i < 16
      ensures fs[i].params == Params(true, Some(i), false, 0)
      ensures WellFormed(fs[i].ty, fs[i].params) && Nillable(fs[i].ty)
    {
      var t := fs[i].ty;
      assert t == TPtr(TInt) || t == TPtr(TOctets) || t == TPtr(TBool) || t == TPtr(TEnum) || t == TList(TRIGGER)
             || t == TList(TOctets);
      assert fs[i].params == Params(true, Some(i), false, 0);
      OptionalWellFormed(fs[i].params);
      TriggersWellFormed(fs[i].params);
    }
    FieldsWellFormed(fs, p);
  }

  lemma {:induction false} OptionalWellFormed(p: Params)
    requires Low(p)
    ensures WellFormed(TPtr(TInt), p) && WellFormed(TPtr(TOctets), p) && WellFormed(TPtr(TBool), p)
    ensures WellFormed(TPtr(TEnum), p) && WellFormed(TList(TOctets), p) && WellFormed(TPtr(TStr), p) && WellFormed(TInt, p)
  {
    hide WellFormed;
    LeafWellFormed(p);
    LeafWellFormed(p.(tag := None));
    PointerWellFormed(TInt, p);
    PointerWellFormed(TOctets, p);
    PointerWellFormed(TBool, p);
    PointerWellFormed(TEnum, p);
    PointerWellFormed(TStr, p);
    ListWellFormed(TOctets, p);
  }

  lemma {:induction false} LeafWellFormed(p: Params)
    requires Low(p)
    ensures WellFormed(TInt, p) && WellFormed(TOctets, p) && WellFormed(TBool, p) && WellFormed(TEnum, p) && WellFormed(TStr, p)
  {
  }

  lemma {:induction false} ListWellFormed(t: Ty, p: Params)
    requires Low(p) && WellFormed(t, p.(tag := None))
    ensures WellFormed(TList(t), p)
  {
  }

  lemma {:induction false} TriggersWellFormed(p: Params)
    requires Low(p)
    ensures WellFormed(TList(TRIGGER), p)
  {
    var arms := TRIGGER.arms;
    assert |arms| == 1 && WellFormed(arms[0].ty, arms[0].params);
    assert WellFormed(TRIGGER, p.(tag := None));
  }

  lemma {:induction false} FieldsWellFormed(fs: seq<Field>, p: Params)
    requires Low(p) && DistinctTags(fs)
    requires forall i :: 0 <= i < |fs| ==>
               WellFormed(fs[i].ty, fs[i].params) && (fs[i].params.optional ==> Nillable(fs[i].ty))
    ensures WellFormed(TStruct(fs), p)
  {
  }

  lemma {:induction false} EmptyListSound(p: Params)
    requires Low(p) && WellFormed(CONTAINER, p.(tag := None))
    ensures Sound(VList([]), Field(TList(CONTAINER), p)) && ShortMember(VList([]), Field(TList(CONTAINER), p), 8)
  {
    LeafShort(VList([]), TList(CONTAINER), p);
    hide BerMarshal.MakeField;
  }

  lemma {:induction false} ReportShape()
    ensures ToUsage(REPORT) == VStruct([VInt(1), VList([]), Ref(VStr([])), Nil])
    ensures |USAGE.fields| == 4 && USAGE.fields[0] == Tagged(TInt, 0) && USAGE.fields[1] == Opt(TList(CONTAINER), 1)
    ensures USAGE.fields[2] == Opt(TPtr(TStr), 2) && USAGE.fields[3] == Opt(TPtr(TOctets), 3)
  {
    assert ToContainers([]) == [];
  }

  lemma {:induction false} ReportInner(p: Params)
    requires Low(p)
    ensures Inner(ToUsage(REPORT), USAGE, p, 70)
  {
    hide Sound, ShortMember, Inner, ToUsage;
    ReportShape();
    ContainerWellFormed(USAGE.fields[1].params.(tag := None));
    UsageInner([VInt(1), VList([]), Ref(VStr([])), Nil], USAGE.fields, p);
  }

  lemma {:induction false} UsageInner(u: seq<Val>, fs: seq<Field>, p: Params)
    requires Low(p) && u == [VInt(1), VList([]), Ref(VStr([])), Nil]
    requires |fs| == 4 && fs[0] == Tagged(TInt, 0) && fs[1] == Opt(TList(CONTAINER), 1)
    requires fs[2] == Opt(TPtr(TStr), 2) && fs[3] == Opt(TPtr(TOctets), 3)
    requires WellFormed(CONTAINER, fs[1].params.(tag := None))
    ensures Inner(VStruct(u), TStruct(fs), p, 70)
  {
    hide Sound, ShortMember, Inner, WellFormed;
    LeafSound(u[0], fs[0]);
    EmptyListSound(fs[1].params);
    LeafSound(u[2], fs[2]);
    LeafSound(u[3], fs[3]);
    SoundTyped(u, fs);
    StructInner(u, TStruct(fs), p, 0);
  }

  lemma {:induction false} SoundTyped(vs: seq<Val>, fs: seq<Field>)
    requires |vs| == |fs| && forall i :: 0 <= i < |fs| ==> Sound(vs[i], fs[i])
    ensures TypedAll(vs, fs)
  {
    hide Typed, WellFormed, BerRoundTrip.Aligned, ShortMember;
  }

  lemma {:induction false} SubscriberInner(p: Params)
    requires Low(p)
    ensures Inner(SUBSCRIBER, SUBSCRIPTION, p, 70)
  {
    hide Sound, ShortMember, Inner;
    var fs := SUBSCRIPTION.fields;
    LeafSound(VInt(1), fs[0]);
    LeafSound(VStr([]), fs[1]);
    SoundTyped(SUBSCRIBER.members, fs);
    StructInner(SUBSCRIBER.members, SUBSCRIPTION, p, 0);
  }

  lemma {:induction false} ConsumerInner(p: Params)
    requires Low(p)
    ensures Inner(SMF, CONSUMER, p, 70)
  {
    hide Sound, ShortMember, Inner;
    var vs, fs := SMF.members, CONSUMER.fields;
    LeafSound(vs[0], fs[0]);
    LeafSound(vs[1], fs[1]);
    LeafSound(vs[2], fs[2]);
    LeafSound(vs[3], fs[3]);
    LeafSound(vs[4], fs[4]);
    LeafSound(vs[5], fs[5]);
    SoundTyped(vs, fs);
    StructInner(vs, CONSUMER, p, 0);
  }

  lemma {:induction false} NoInfoSound(p: Params)
    requires Low(p) && p.optional
    ensures Sound(Nil, Field(TPtr(PDU_INFO), p))
  {
    InfoWellFormed(p);
  }

  lemma {:induction false} InfoWellFormed(p: Params)
    requires Low(p)
    ensures WellFormed(TPtr(PDU_INFO), p)
  {
    hide WellFormed;
    var fs := SNSSAI.fields;
    OptionalWellFormed(fs[0].params);
    OptionalWellFormed(fs[1].params);
    FieldsWellFormed(fs, PDU_INFO.fields[0].params);
    PointerWellFormed(SNSSAI, PDU_INFO.fields[0].params);
    OptionalWellFormed(PDU_INFO.fields[1].params);
    FieldsWellFormed(PDU_INFO.fields, p);
    PointerWellFormed(PDU_INFO, p);
  }

  lemma {:induction false} PointerWellFormed(t: Ty, p: Params)
    requires Low(p) && WellFormed(t, p)
    ensures WellFormed(TPtr(t), p)
  {
  }

  /** Every member of the record is sound. */
  lemma {:induction false} MemberSound(i: nat)
    requires i < 28
    ensures Sound(RecordMember(i), RecordField(i))
  {
    hide Sound, Inner, ShortMember;
    var p := RecordField(i).params;
    if i == 2 {
      SubscriberInner(p);
      PointerSound(SUBSCRIBER, SUBSCRIPTION, p);
    } else if i == 3 {
      ConsumerInner(p);
      InnerSound(SMF, RecordField(3));
    } else if i == 5 {
      ReportInner(p.(tag := None));
      ListSound(ToUsage(REPORT), USAGE, p);
    } else if i == 13 {
      NoInfoSound(p);
    } else {
      LeafSound(RecordMember(i), RecordField(i));
    }
  }

  lemma {:induction false} RecordIsLayout()
    ensures IsLayout(RECORD)
  {
    var fs := RECORD.ty.fields;
    assert fs[5].ty == TList(USAGE) && fs[13].ty == TPtr(PDU_INFO);
  }

  lemma {:induction false} RecordAt(i: nat)
    requires i < 28
    ensures |NAMELESS.members| == 28 && |RECORD.ty.fields| == 28
    ensures NAMELESS.members[i] == RecordMember(i) && RECORD.ty.fields[i] == RecordField(i)
    ensures RecordField(i).params.tag == Some(i)
  {
    hide RecordMember, RecordType;
  }

  lemma {:induction false} AllSound(vs: seq<Val>, fs: seq<Field>)
    requires vs == NAMELESS.members && fs == RECORD.ty.fields
    ensures |vs| == |fs| == 28
    ensures forall i :: 0 <= i < 28 ==> Sound(vs[i], fs[i]) && fs[i].params.tag == Some(i)
  {
    hide Sound, RecordMember, RecordField;
    RecordAt(0);
    forall i | 0 <= i < 28
      ensures Sound(vs[i], fs[i]) && fs[i].params.tag == Some(i)
    {
      RecordAt(i);
      MemberSound(i);
    }
  }

  lemma {:induction false} HoldsFrom(rec: Val, l: Layout, ms: seq<UnitUsage>)
    requires IsLayout(l) && rec.VStruct? && Inner(rec, l.ty, ARM, 3000)
    requires forall i :: 0 <= i < |ms| ==> ReportableUsage(ms[i])
    requires |rec.members| == |l.ty.fields| && rec.members[l.usages] == VList(ToUsages(ms))
    ensures Holds(rec, l, ms) && Encoded(rec, l.ty).Ok?
  {
    hide Typed, BerMarshal.MakeField, WellFormed, BerRoundTrip.Aligned, IsLayout, ReportableUsage;
  }

  lemma {:induction false} NamelessHolds()
    ensures Holds(NAMELESS, RECORD, [REPORT]) && Encoded(NAMELESS, RECORD.ty).Ok?
  {
    hide Sound, Inner, IsLayout, Holds, Encoded, RecordField;
    var vs, fs := NAMELESS.members, RECORD.ty.fields;
    AllSound(vs, fs);
    SoundTyped(vs, fs);
    RecordAt(0);
    RecordAt(5);
    NamelessInner(vs, fs);
    RecordIsLayout();
    assert ToUsages([REPORT]) == [ToUsage(REPORT)];
    HoldsFrom(NAMELESS, RECORD, [REPORT]);
  }

  lemma {:induction false} NamelessInner(vs: seq<Val>, fs: seq<Field>)
    requires |vs| == |fs| == 28 && TypedAll(vs, fs)
    requires forall i :: 0 <= i < 28 ==> Sound(vs[i], fs[i]) && fs[i].params.tag == Some(i)
    requires !Absent(vs[0], fs[0])
    ensures Inner(VStruct(vs), TStruct(fs), ARM, 3000)
  {
    hide BerMarshal.MakeField;
    StructShort(vs, TStruct(fs), ARM, 100, 2800, 0);
  }

  /** A record alone in its file that is not legible: the console panics and no volume comes back. */
  lemma {:induction false} OneRecordPanics(rec: Val, l: Layout, ms: seq<UnitUsage>, fileLength: u32)
    requires Holds(rec, l, ms) && Encoded(rec, l.ty).Ok? && !Legible(rec, l, ms)
    ensures ReadVolumes(FileOctets(DumpedFile([Encoded(rec, l.ty).value], fileLength)), l) == None
  {
    hide Holds, Encoded, ReadVolumes, FileOctets, Typed, Legible, IsLayout, DumpedFile, DumpedLength;
    HoldsTyped(rec, l, ms);
    BodySize(rec, l, ms);
    var recs, batches := [rec], [ms];
    var body := Encoded(rec, l.ty).value;
    assert BodiesOf(Encodings(recs, l, batches)) == [body];
    OneLength(body);
    Conservation(recs, l, batches, fileLength);
    assert !Legible(recs[0], l, batches[0]);
  }

  lemma {:induction false} HoldsTyped(rec: Val, l: Layout, ms: seq<UnitUsage>)
    requires Holds(rec, l, ms)
    ensures IsLayout(l) && Typed(rec, l.ty) && AllHold([rec], l, [ms])
  {
    hide Typed, WellFormed, BerRoundTrip.Aligned, Encoded;
  }

  lemma {:induction false} OneLength(body: octets)
    ensures DumpedLength([body]) == 56 + |body|
  {
    assert [body][..0] == [];
    assert DumpedLength([]) == 52;
  }

  /** One report, and nothing to say which slice it belongs to: the record has an encoding and the file decodes, but the
      console panics. */
  lemma {:induction false} NamelessRecordPanics(fileLength: u32)
    ensures Holds(NAMELESS, RECORD, [REPORT]) && Encoded(NAMELESS, RECORD.ty).Ok?
    ensures ReadVolumes(FileOctets(DumpedFile([Encoded(NAMELESS, RECORD.ty).value], fileLength)), RECORD) == None
  {
    hide Holds, Encoded, ReadVolumes, FileOctets, DumpedFile, Legible, IsLayout, Typed;
    NamelessHolds();
    NamelessIllegible();
    OneRecordPanics(NAMELESS, RECORD, [REPORT], fileLength);
  }

  lemma {:induction false} NamelessIllegible()
    requires Holds(NAMELESS, RECORD, [REPORT])
    ensures Typed(NAMELESS, RECORD.ty) && IsLayout(RECORD) && !Legible(NAMELESS, RECORD, [REPORT])
  {
    RecordShape(NAMELESS, RECORD);
    RecordAt(13);
  }
}
