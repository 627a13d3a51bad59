/** Usage reports read back from the octets of a CDR file by their ASN.1 tags alone. */
module ChargingReports {
  import opened Octets
  import opened BerSchema
  import BerHeader
  import BerMarshal
  import BerUnmarshal
  import BerRoundTrip
  import opened BerEncoding
  import opened CdrFile
  import CdrFileRoundTrip
  import opened Charging

  // ---------------------------------------------------------------- a reader that knows tags only

  /** The encoded values that octets hold, one behind the other. */
  function Items(s: octets): seq<octets> {
    if 0 < Extent(s) <= |s| then [s[..Extent(s)]] + Items(s[Extent(s)..]) else []
  }

  predicate HasTag(item: octets, tag: nat) {
    match Head(item)
    case None => false
    case Some((h, _)) => h.cls == 2 && h.tag == tag
  }

  /** The contents of the first of these values that is under a context-specific tag. */
  function Under(items: seq<octets>, tag: nat): octets {
    if items == [] then []
    else if HasTag(items[0], tag) then Contents(items[0])
    else Under(items[1..], tag)
  }

  /** A used-unit container by the tags of TS 32.298: 4 total, 5 uplink, 6 downlink, 7 service-specific units, 9 local
      sequence number. */
  function ReadContainer(item: octets): UsedUnit {
    var ms := Items(Contents(item));
    UsedUnit(Signed(Under(ms, 9)), Signed(Under(ms, 5)), Signed(Under(ms, 6)), Signed(Under(ms, 4)), Signed(Under(ms, 7)))
  }

  /** A unit usage: 0 rating group, 1 used-unit containers, 2 UPF ID. */
  function ReadUsage(item: octets): UnitUsage {
    var ms := Items(Contents(item));
    var cs := Items(Under(ms, 1));
    UnitUsage(Signed(Under(ms, 0)), seq(|cs|, i requires 0 <= i < |cs| => ReadContainer(cs[i])), Under(ms, 2))
  }

  /** The unit usages that a charging record holds under a tag. */
  function ReadReports(record: octets, tag: nat): seq<UnitUsage> {
    var us := Items(Under(Items(Contents(record)), tag));
    seq(|us|, i requires 0 <= i < |us| => ReadUsage(us[i]))
  }

  /** Nothing is there under any other tag. */
  predicate Only(items: seq<octets>, tags: set<nat>) {
    forall i :: 0 <= i < |items| ==> exists tag :: tag in tags && HasTag(items[i], tag)
  }

  /** A container, and a usage with its containers, hold nothing that the report did not carry. */
  predicate BareContainer(item: octets) {
    Only(Items(Contents(item)), {4, 5, 6, 7, 9})
  }

  predicate BareUsage(item: octets) {
    var ms := Items(Contents(item));
    Only(ms, {0, 1, 2}) && forall i :: 0 <= i < |Items(Under(ms, 1))| ==> BareContainer(Items(Under(ms, 1))[i])
  }

  predicate BareReports(record: octets, tag: nat) {
    var us := Items(Under(Items(Contents(record)), tag));
    forall i :: 0 <= i < |us| ==> BareUsage(us[i])
  }

  // ---------------------------------------------------------------- members and elements

  /** An encoding is one value, under its field's tag if it has one. */
  lemma {:induction false} EncodedWhole(bytes: octets, v: Val, ty: Ty, p: Params)
    requires Typed(v, ty) && Encodes(bytes, v, ty, p)
    ensures Head(bytes).Some? && Extent(bytes) == |bytes| > 0
    ensures p.tag.Some? ==> forall tag :: HasTag(bytes, tag) <==> tag == p.tag.value
    decreases ty
  {
    hide EncodesMembers, EncodesElems, IsLeaf, UniversalNumber, TagNumber, LengthAt;
    match ty
    case TPtr(t) => EncodedWhole(bytes, v.target, t, p);
    case TChoice(fs) =>
      if p.tag.None? {
        EncodedWhole(bytes, v.choices[v.present - 1], fs[v.present - 1].ty, fs[v.present - 1].params);
      }
    case _ =>
  }

  /** What is found under the tag of a member: its own contents, or nothing when it is absent. */
  lemma {:induction false} MemberUnder(s: octets, vs: seq<Val>, ty: Ty, k: nat, i: nat) returns (item: octets)
    requires ty.TStruct? && TypedAll(vs, ty.fields) && DistinctTags(ty.fields) && k <= |vs| && i < |vs|
    requires EncodesMembers(s, vs, ty, k)
    ensures var f := ty.fields[i];
            if i < k || Absent(vs[i], f) then Under(Items(s), f.params.tag.value) == []
            else Encodes(item, vs[i], f.ty, f.params) && Under(Items(s), f.params.tag.value) == Contents(item)
    decreases |vs| - k
  {
    hide Encodes, Typed, Extent, Contents, HasTag;
    item := [];
    var tag := ty.fields[i].params.tag.value;
    if k == |vs| {
      NoItems();
    } else if Absent(vs[k], ty.fields[k]) {
      item := MemberUnder(s, vs, ty, k + 1, i);
    } else {
      var f, n := ty.fields[k], Extent(s);
      EncodedWhole(s[..n], vs[k], f.ty, f.params);
      item := MemberUnder(s[n..], vs, ty, k + 1, i);
      assert Items(s) == [s[..n]] + Items(s[n..]);
      assert Items(s)[1..] == Items(s[n..]);
      if k == i {
        item := s[..n];
      }
    }
  }

  /** Every value among the members is under the tag of a present one. */
  lemma {:induction false} ItemOf(s: octets, vs: seq<Val>, ty: Ty, k: nat, n: nat) returns (i: nat)
    requires ty.TStruct? && TypedAll(vs, ty.fields) && DistinctTags(ty.fields) && k <= |vs|
    requires EncodesMembers(s, vs, ty, k) && n < |Items(s)|
    ensures k <= i < |vs| && !Absent(vs[i], ty.fields[i])
    ensures ty.fields[i].params.tag.Some? && HasTag(Items(s)[n], ty.fields[i].params.tag.value)
    decreases |vs| - k
  {
    hide Encodes, Typed, Extent, Contents, HasTag, DistinctTags;
    if k == |vs| {
      NoItems();
      assert false;
    } else if Absent(vs[k], ty.fields[k]) {
      i := ItemOf(s, vs, ty, k + 1, n);
    } else {
      var f, m := ty.fields[k], Extent(s);
      OwnTag(ty.fields, k);
      EncodedWhole(s[..m], vs[k], f.ty, f.params);
      assert Items(s) == [s[..m]] + Items(s[m..]);
      if n == 0 {
        i := k;
      } else {
        i := ItemOf(s[m..], vs, ty, k + 1, n - 1);
      }
    }
  }

  lemma {:induction false} NoItems()
    ensures Items([]) == []
  {
  }

  lemma {:induction false} ElemItems(s: octets, vs: seq<Val>, ty: Ty, p: Params)
    requires ty.TList? && (forall i :: 0 <= i < |vs| ==> Typed(vs[i], ty.elem)) && EncodesElems(s, vs, ty, p)
    ensures |Items(s)| == |vs| && forall i :: 0 <= i < |vs| ==> Encodes(Items(s)[i], vs[i], ty.elem, p)
    decreases |vs|
  {
    hide Encodes, Typed, Extent;
    if vs == [] {
      NoItems();
    } else {
      var n := Extent(s);
      EncodedWhole(s[..n], vs[0], ty.elem, p);
      ElemItems(s[n..], vs[1..], ty, p);
      assert Items(s) == [s[..n]] + Items(s[n..]);
    }
  }

  /** An integer member, read by its tag. */
  lemma {:induction false} NumberUnder(s: octets, vs: seq<Val>, ty: Ty, i: nat, x: int)
    requires ty.TStruct? && TypedAll(vs, ty.fields) && DistinctTags(ty.fields) && i < |vs| && EncodesMembers(s, vs, ty, 0)
    requires (ty.fields[i].ty == TPtr(TInt) && vs[i] == Ref(VInt(x))) || (ty.fields[i].ty == TInt && vs[i] == VInt(x))
    ensures Signed(Under(Items(s), ty.fields[i].params.tag.value)) == x
  {
    hide Signed, Under, Items, EncodesMembers, Headed, Contents;
    var item := MemberUnder(s, vs, ty, 0, i);
  }

  /** One level of an encoded struct without a tag of its own. */
  lemma {:induction false} StructMembers(item: octets, v: Val, ty: Ty, p: Params)
    requires ty.TStruct? && Typed(v, ty) && Encodes(item, v, ty, p)
    ensures v.VStruct? && TypedAll(v.members, ty.fields) && EncodesMembers(Contents(item), v.members, ty, 0)
  {
  }

  lemma {:induction false} ContainerTags()
    ensures DistinctTags(CONTAINER_FIELDS)
    ensures forall i :: 0 <= i < 16 ==> CONTAINER_FIELDS[i].params.tag == Some(i)
    ensures forall i :: i in {4, 5, 6, 7, 9} ==> CONTAINER_FIELDS[i].ty == TPtr(TInt)
  {
  }

  lemma {:induction false} ContainerRead(item: octets, u: UsedUnit, p: Params)
    requires Typed(ToContainer(u), CONTAINER) && Encodes(item, ToContainer(u), CONTAINER, p)
    ensures ReadContainer(item) == u && BareContainer(item)
  {
    hide Signed, Under, Items, EncodesMembers, Contents, Encodes, Typed, DistinctTags;
    ContainerTags();
    StructMembers(item, ToContainer(u), CONTAINER, p);
    var s, vs := Contents(item), ToContainer(u).members;
    NumberUnder(s, vs, CONTAINER, 9, u.sequence);
    NumberUnder(s, vs, CONTAINER, 5, u.uplink);
    NumberUnder(s, vs, CONTAINER, 6, u.downlink);
    NumberUnder(s, vs, CONTAINER, 4, u.total);
    NumberUnder(s, vs, CONTAINER, 7, u.specific);
    forall n | 0 <= n < |Items(s)|
      ensures exists tag :: tag in {4, 5, 6, 7, 9} && HasTag(Items(s)[n], tag)
    {
      var i := ItemOf(s, vs, CONTAINER, 0, n);
      PresentMembers(u);
      assert i in {4, 5, 6, 7, 9};
    }
  }

  lemma {:induction false} PresentMembers(u: UsedUnit)
    ensures forall i :: 0 <= i < 16 && !Absent(ToContainer(u).members[i], CONTAINER_FIELDS[i]) ==> i in {4, 5, 6, 7, 9}
  {
  }

  /** A list member that is there, read by its tag. */
  lemma {:induction false} ListUnder(s: octets, vs: seq<Val>, ty: Ty, i: nat)
    requires ty.TStruct? && TypedAll(vs, ty.fields) && DistinctTags(ty.fields) && i < |vs| && EncodesMembers(s, vs, ty, 0)
    requires ty.fields[i].ty.TList? && vs[i].VList?
    ensures var f, items := ty.fields[i], Items(Under(Items(s), ty.fields[i].params.tag.value));
            && |items| == |vs[i].elems| && Typed(vs[i], f.ty)
            && forall j :: 0 <= j < |items| ==> Encodes(items[j], vs[i].elems[j], f.ty.elem, f.params.(tag := None))
  {
    hide Under, Items, EncodesMembers, EncodesElems, Headed, Contents, DistinctTags;
    var item := MemberUnder(s, vs, ty, 0, i);
    var f := ty.fields[i];
    assert Typed(vs[i], f.ty);
    ElemItems(Contents(item), vs[i].elems, f.ty, f.params.(tag := None));
  }

  lemma {:induction false} TextUnder(s: octets, vs: seq<Val>, ty: Ty, i: nat, x: octets)
    requires ty.TStruct? && TypedAll(vs, ty.fields) && DistinctTags(ty.fields) && i < |vs| && EncodesMembers(s, vs, ty, 0)
    requires ty.fields[i].ty == TPtr(TStr) && vs[i] == Ref(VStr(x))
    ensures Under(Items(s), ty.fields[i].params.tag.value) == x
  {
    hide Under, Items, EncodesMembers, Headed, Contents;
    var item := MemberUnder(s, vs, ty, 0, i);
  }

  lemma {:induction false} UsageTags()
    ensures DistinctTags(USAGE.fields)
    ensures forall i :: 0 <= i < 3 ==> USAGE.fields[i].params.tag == Some(i)
    ensures USAGE.fields[0].ty == TInt && USAGE.fields[1].ty == TList(CONTAINER) && USAGE.fields[2].ty == TPtr(TStr)
  {
  }

  lemma {:induction false} UsageRead(item: octets, m: UnitUsage, p: Params)
    requires Typed(ToUsage(m), USAGE) && Encodes(item, ToUsage(m), USAGE, p)
    ensures ReadUsage(item) == m && BareUsage(item)
  {
    hide Signed, Under, Items, EncodesMembers, Contents, Encodes, Typed, DistinctTags, ReadContainer, BareContainer;
    UsageTags();
    StructMembers(item, ToUsage(m), USAGE, p);
    var s, vs := Contents(item), ToUsage(m).members;
    NumberUnder(s, vs, USAGE, 0, m.ratingGroup);
    TextUnder(s, vs, USAGE, 2, m.upfId);
    ListUnder(s, vs, USAGE, 1);
    var cs := Items(Under(Items(s), 1));
    ContainersTyped(m);
    forall i | 0 <= i < |cs|
      ensures ReadContainer(cs[i]) == m.containers[i] && BareContainer(cs[i])
    {
      ContainerRead(cs[i], m.containers[i], USAGE.fields[1].params.(tag := None));
    }
    assert ReadUsage(item).containers == m.containers;
    forall n | 0 <= n < |Items(s)|
      ensures exists tag :: tag in {0, 1, 2} && HasTag(Items(s)[n], tag)
    {
      var i := ItemOf(s, vs, USAGE, 0, n);
      assert i in {0, 1, 2};
    }
  }

  lemma {:induction false} ContainersTyped(m: UnitUsage)
    requires Typed(VList(ToContainers(m.containers)), TList(CONTAINER))
    ensures forall i :: 0 <= i < |m.containers| ==> Typed(ToContainer(m.containers[i]), CONTAINER)
  {
    hide ToContainer;
    var cs := ToContainers(m.containers);
    assert forall i :: 0 <= i < |cs| ==> Typed(cs[i], CONTAINER);
  }

  lemma {:induction false} UsagesRead(items: seq<octets>, ms: seq<UnitUsage>, p: Params)
    requires |items| == |ms| && forall i :: 0 <= i < |ms| ==> Typed(ToUsage(ms[i]), USAGE)
    requires forall i :: 0 <= i < |ms| ==> Encodes(items[i], ToUsage(ms[i]), USAGE, p)
    ensures seq(|items|, i requires 0 <= i < |items| => ReadUsage(items[i])) == ms
    ensures forall i :: 0 <= i < |items| ==> BareUsage(items[i])
  {
    hide ToUsage, Typed, Encodes, ReadUsage, BareUsage;
    forall i | 0 <= i < |ms|
      ensures ReadUsage(items[i]) == ms[i] && BareUsage(items[i])
    {
      UsageRead(items[i], ms[i], p);
    }
  }

  lemma {:induction false} UsagesTyped(ms: seq<UnitUsage>)
    requires Typed(VList(ToUsages(ms)), TList(USAGE))
    ensures forall i :: 0 <= i < |ms| ==> Typed(ToUsage(ms[i]), USAGE)
  {
    hide ToUsage;
    var us := ToUsages(ms);
    assert forall i :: 0 <= i < |us| ==> Typed(us[i], USAGE);
  }

  lemma {:induction false} OwnTag(fs: seq<Field>, i: nat)
    requires DistinctTags(fs) && i < |fs|
    ensures fs[i].params.tag.Some?
  {
  }

  /** The reports in a written record, whatever its other members, are read back whole by their tags alone: every counter,
      the sequence numbers, the rating groups and the UPF IDs, of any int64 value; and nothing else is written for them. */
  lemma {:induction false} ReportsWritten(rec: Val, l: Layout, ms: seq<UnitUsage>)
    requires IsLayout(l) && Typed(rec, l.ty) && DistinctTags(l.ty.fields) && Encoded(rec, l.ty).Ok?
    requires rec.members[l.usages] == VList(ToUsages(ms)) || (ms == [] && Absent(rec.members[l.usages], l.ty.fields[l.usages]))
    ensures ReadReports(Encoded(rec, l.ty).value, l.ty.fields[l.usages].params.tag.value) == ms
    ensures BareReports(Encoded(rec, l.ty).value, l.ty.fields[l.usages].params.tag.value)
  {
    hide Under, Items, EncodesMembers, Contents, Encodes, DistinctTags, ReadUsage, BareUsage, BerMarshal.MakeField, BerMarshal.Image,
         Typed, ToUsages;
    OwnTag(l.ty.fields, l.usages);
    var bytes, f := Encoded(rec, l.ty).value, l.ty.fields[l.usages];
    Written(rec, l.ty, ARM, []);
    StructMembers(bytes, rec, l.ty, ARM);
    if rec.members[l.usages].VList? {
      ListUnder(Contents(bytes), rec.members, l.ty, l.usages);
      UsagesTyped(ms);
      UsagesRead(Items(Under(Items(Contents(bytes)), f.params.tag.value)), ms, f.params.(tag := None));
    } else {
      var item := MemberUnder(Contents(bytes), rec.members, l.ty, 0, l.usages);
      NoItems();
    }
  }

  // ---------------------------------------------------------------- reports in the parsed record

  /** The member whose field carries the tag; nil if there is none. */
  function Tagged(v: Val, fs: seq<Field>, tag: nat): Val
    decreases |fs|
  {
    if !v.VStruct? || v.members == [] || fs == [] then Nil
    else if fs[0].params.tag == Some(tag) then v.members[0]
    else Tagged(VStruct(v.members[1..]), fs[1..], tag)
  }

  function Count(v: Val): int {
    if v.Ref? && v.target.VInt? then v.target.i else if v.VInt? then v.i else 0
  }

  function Text(v: Val): octets {
    if v.Ref? && v.target.VStr? then v.target.bs else []
  }

  function Listed(v: Val): seq<Val> {
    if v.VList? then v.elems else []
  }

  /** The same tags as in the octets, looked up in parsed records. */
  function ContainerIn(c: Val): UsedUnit {
    var n := (tag: nat) => Count(Tagged(c, CONTAINER_FIELDS, tag));
    UsedUnit(n(9), n(5), n(6), n(4), n(7))
  }

  function UsageIn(u: Val): UnitUsage {
    var cs := Listed(Tagged(u, USAGE.fields, 1));
    UnitUsage(Count(Tagged(u, USAGE.fields, 0)), seq(|cs|, i requires 0 <= i < |cs| => ContainerIn(cs[i])),
              Text(Tagged(u, USAGE.fields, 2)))
  }

  function ReportsIn(rec: Val, l: Layout): seq<UnitUsage>
    requires IsLayout(l) && l.ty.fields[l.usages].params.tag.Some?
  {
    var us := Listed(Tagged(rec, l.ty.fields, l.ty.fields[l.usages].params.tag.value));
    seq(|us|, i requires 0 <= i < |us| => UsageIn(us[i]))
  }

  lemma {:induction false} TaggedAt(vs: seq<Val>, fs: seq<Field>, k: nat)
    requires |vs| == |fs| && DistinctTags(fs) && k < |fs|
    ensures fs[k].params.tag.Some? && Tagged(VStruct(vs), fs, fs[k].params.tag.value) == vs[k]
    decreases |fs|
  {
    if k > 0 {
      assert fs[0].params.tag != fs[k].params.tag;
      TaggedAt(vs[1..], fs[1..], k - 1);
    }
  }

  lemma {:induction false} ContainerKept(u: UsedUnit)
    ensures ContainerIn(ToContainer(u)) == u
  {
    hide DistinctTags, Tagged;
    ContainerTags();
    var vs := ToContainer(u).members;
    TaggedAt(vs, CONTAINER_FIELDS, 9);
    TaggedAt(vs, CONTAINER_FIELDS, 5);
    TaggedAt(vs, CONTAINER_FIELDS, 6);
    TaggedAt(vs, CONTAINER_FIELDS, 4);
    TaggedAt(vs, CONTAINER_FIELDS, 7);
  }

  lemma {:induction false} UsageKept(m: UnitUsage)
    ensures UsageIn(ToUsage(m)) == m
  {
    hide DistinctTags, Tagged, ContainerIn, ToContainer;
    UsageTags();
    var vs := ToUsage(m).members;
    TaggedAt(vs, USAGE.fields, 0);
    TaggedAt(vs, USAGE.fields, 1);
    TaggedAt(vs, USAGE.fields, 2);
    forall i | 0 <= i < |m.containers|
      ensures ContainerIn(ToContainer(m.containers[i])) == m.containers[i]
    {
      ContainerKept(m.containers[i]);
    }
    assert UsageIn(ToUsage(m)).containers == m.containers;
  }

  /** The record that the console parses holds every report whole, under the tags of its fields. */
  lemma {:induction false} ReportsParsed(rec: Val, l: Layout, ms: seq<UnitUsage>)
    requires Holds(rec, l, ms) && Encoded(rec, l.ty).Ok? && l.ty.fields[l.usages].params.tag.Some?
    ensures var r := BerUnmarshal.ParseField(l.ty, Zero(l.ty), Encoded(rec, l.ty).value, PLAIN);
            r.Ok? && ReportsIn(r.value, l) == ms
  {
    hide Carries, BerUnmarshal.ParseField, BerMarshal.MakeField, BerMarshal.Image, BerMarshal.Len, Zero, DistinctTags,
         BerRoundTrip.Aligned, Typed, UsageIn, ToUsage, Tagged, Encoded;
    RecordRead(rec, l, ms);
    var r := BerUnmarshal.ParseField(l.ty, Zero(l.ty), Encoded(rec, l.ty).value, PLAIN).value;
    TaggedAt(r.members, l.ty.fields, l.usages);
    forall i | 0 <= i < |ms|
      ensures UsageIn(ToUsage(ms[i])) == ms[i]
    {
      UsageKept(ms[i]);
    }
    assert ReportsIn(r, l) == ms;
  }

  // ---------------------------------------------------------------- records that are cut off

  lemma {:induction false} ArmTagOctets(h: BerHeader.Header)
    requires BerHeader.IsHeader(h) && h.tag == 200
    ensures |BerHeader.TagOctets(h)| == 3
  {
    assert BerHeader.Continued(1) == [129];
    assert BerHeader.HighTag(200) == [129, 72];
  }

  /** A record that is cut off adds nothing to the console's table: it is passed over, unless it is empty or ends between the
      first and the last of its length octets, where the parser panics. */
  lemma {:induction false} CutRecord(t: Table, rec: Val, l: Layout, n: nat)
    requires IsLayout(l) && Typed(rec, l.ty) && WellFormed(l.ty, ARM)
    requires Encoded(rec, l.ty).Ok? && n < |Encoded(rec, l.ty).value| < TWO_24
    ensures var header := |BerMarshal.MakeField(rec, l.ty, ARM).value.tagAndLen|;
            AddRecord(t, l, Encoded(rec, l.ty).value[..n]) == if n == 0 || 3 < n < header then None else Some(t)
  {
    hide BerMarshal.MakeField, BerMarshal.Image, BerUnmarshal.ParseField, WellFormed, Typed, Zero;
    var h := BerRoundTrip.CutRefused(rec, l.ty, ARM, n);
    ArmTagOctets(h);
    TagPassed(l.ty, Encoded(rec, l.ty).value[..n]);
  }

  lemma {:induction false} TagPassed(ty: Ty, bytes: octets)
    requires ty.TStruct?
    ensures BerUnmarshal.ParseField(ty, Zero(ty), bytes, ARM) == BerUnmarshal.ParseField(ty, Zero(ty), bytes, PLAIN)
  {
    BerRoundTrip.TagUnread(ty, Zero(ty), bytes, ARM);
    assert ARM.(tag := None) == PLAIN;
  }

  // ---------------------------------------------------------------- the dumped file

  lemma {:induction false} CdrsSplit(cs: seq<Cdr>, i: nat)
    requires i <= |cs|
    ensures CdrsOctets(cs) == CdrsOctets(cs[..i]) + CdrsOctets(cs[i..])
  {
    hide CdrOctets;
    if i == 0 {
      assert cs[..0] == [] && cs[0..] == cs;
    } else {
      CdrsSplit(cs[1..], i - 1);
      assert cs[..i][0] == cs[0] && cs[..i][1..] == cs[1..][..i - 1] && cs[1..][i - 1..] == cs[i..];
      Regroup(CdrOctets(cs[0]), CdrsOctets(cs[..i][1..]), CdrsOctets(cs[i..]));
    }
  }

  /** A record of the dump: its length in 16 bits, release and version 0, data record format 1 (BER), TS number 0, and its
      octets. */
  predicate DumpedAt(data: octets, at: nat, body: octets) {
    && at + 4 + |body| <= |data|
    && BeNat(data[at..at + 2]) == |body| % TWO_16 && data[at + 2] == 0 && data[at + 3] == 0x20
    && data[at + 4..at + 4 + |body|] == body
  }

  /** Every record lies behind those before it, and announces BER. */
  lemma {:induction false} RecordsDumped(bodies: seq<octets>, fileLength: u32, i: nat)
    requires i < |bodies|
    ensures DumpedAt(FileOctets(DumpedFile(bodies, fileLength)), DumpedLength(bodies[..i]), bodies[i])
  {
    hide CdrsOctets, CdrOctets, FixedOctets, BeFixed, BeNat;
    var f := DumpedFile(bodies, fileLength);
    var data, cs := FileOctets(f), f.cdrs;
    assert |HeaderOctets(f.hdr)| == 52;
    CdrsSplit(cs, i);
    DumpedSize(bodies[..i]);
    assert DumpedCdrs(bodies[..i]) == cs[..i];
    var at := DumpedLength(bodies[..i]);
    assert data[at..] == CdrsOctets(cs[i..]);
    FirstOf(cs[i..]);
    CdrFileRoundTrip.CdrReads(cs[i], data, at, CdrsOctets(cs[i..][1..]));
    var t := data[at + 4..];
    assert data[at + 4..at + 4 + |bodies[i]|] == t[..|bodies[i]|] == bodies[i];
  }

  lemma {:induction false} FirstOf(cs: seq<Cdr>)
    requires cs != []
    ensures CdrsOctets(cs) == CdrOctets(cs[0]) + CdrsOctets(cs[1..])
  {
  }

  function Zeroes(n: nat): (s: octets)
    ensures |s| == n
  {
    seq(n, i => 0)
  }

  /** A file that announces its length, header length 52 and the number of its records, and leaves every other field of its
      header zero. */
  function Dump(count: nat, fileLength: u32, records: octets): octets {
    BeFixed(fileLength, 4) + [0, 0, 0, 52] + Zeroes(10) + BeFixed(count, 4) + Zeroes(30) + records
  }

  lemma {:induction false} HeaderDumped(bodies: seq<octets>, fileLength: u32)
    ensures FileOctets(DumpedFile(bodies, fileLength)) == Dump(|bodies| % TWO_32, fileLength, CdrsOctets(DumpedCdrs(bodies)))
  {
    hide CdrsOctets, BeFixed, LeadOctets, CountOctets, DumpedFileHeader, Extensions;
    var h := DumpedFileHeader(|bodies|, fileLength);
    FourZeros();
    LeadDumped(|bodies|, fileLength);
    CountDumped(|bodies|, fileLength);
    NothingVariable(|bodies|, fileLength);
    assert HeaderOctets(h) == LeadOctets(h) + CountOctets(h) + [0, 0];
    assert Zeroes(28) + [0, 0] == Zeroes(30);
  }

  lemma {:induction false} NothingVariable(count: nat, fileLength: u32)
    ensures var h := DumpedFileHeader(count, fileLength);
            h.filter == [] && h.extension == [] && h.extensionLength == 0 && Extensions(h) == []
  {
  }

  lemma {:induction false} LeadDumped(count: nat, fileLength: u32)
    ensures LeadOctets(DumpedFileHeader(count, fileLength)) == BeFixed(fileLength, 4) + [0, 0, 0, 52] + Zeroes(10)
  {
    hide BeFixed, PackTime;
    FourZeros();
    NoTime();
    var h := DumpedFileHeader(count, fileLength);
    var zero: octets := [0, 0];
    var zeros: octets := [0, 0, 0, 0];
    assert zero + zeros + zeros == Zeroes(10);
    assert LeadOctets(h) == BeFixed(fileLength, 4) + BeFixed(52, 4) + zero + zeros + zeros;
  }

  lemma {:induction false} NoTime()
    ensures PackTime(EPOCH) == 0
  {
  }

  lemma {:induction false} CountDumped(count: nat, fileLength: u32)
    ensures CountOctets(DumpedFileHeader(count, fileLength)) == BeFixed(count % TWO_32, 4) + Zeroes(28)
  {
    hide BeFixed;
    FourZeros();
  }

  lemma {:induction false} FourZeros()
    ensures BeFixed(0, 2) == [0, 0] && BeFixed(0, 4) == [0, 0, 0, 0] && BeFixed(52, 4) == [0, 0, 0, 52]
  {
    assert BeFixed(0, 1) == BeFixed(0, 0) + [0];
    assert BeFixed(0, 2) == BeFixed(0, 1) + [0];
    assert BeFixed(0, 3) == BeFixed(0, 2) + [0];
  }

  /** At this place the file announces a record in BER that holds these reports. */
  predicate ReportsAt(data: octets, at: nat, size: nat, tag: nat, ms: seq<UnitUsage>) {
    && at + 4 + size <= |data| && data[at + 3] == 0x20 && BeNat(data[at..at + 2]) == size % TWO_16
    && ReadReports(data[at + 4..at + 4 + size], tag) == ms && BareReports(data[at + 4..at + 4 + size], tag)
  }

  function UsagesTag(l: Layout): nat
    requires IsLayout(l)
  {
    if l.ty.fields[l.usages].params.tag.Some? then l.ty.fields[l.usages].params.tag.value else 0
  }

  /** The reports of a batch are at this place if their record has an encoding. */
  ghost predicate BatchAt(data: octets, at: nat, rec: Val, l: Layout, ms: seq<UnitUsage>)
    requires Holds(rec, l, ms)
  {
    Encoded(rec, l.ty).Ok? ==> ReportsAt(data, at, |Encoded(rec, l.ty).value|, UsagesTag(l), ms)
  }

  /** End to end without the codec: in the octets of the dumped file, the reports of every batch whose record has an
      encoding are read back whole at that record's place. */
  lemma {:induction false} ReportsDumped(recs: seq<Val>, l: Layout, batches: seq<seq<UnitUsage>>, fileLength: u32, i: nat)
    requires AllHold(recs, l, batches) && i < |recs|
    ensures var bodies := BodiesOf(Encodings(recs, l, batches));
            BatchAt(FileOctets(DumpedFile(bodies, fileLength)), DumpedLength(bodies[..i]), recs[i], l, batches[i])
  {
    hide FileOctets, ReadReports, BareReports, DumpedLength, DumpedFile, BerMarshal.MakeField, BerMarshal.Image, DistinctTags, BeNat,
         Encoded, Typed, WellFormed, BerRoundTrip.Aligned;
    var bodies := BodiesOf(Encodings(recs, l, batches));
    RecordsDumped(bodies, fileLength, i);
    assert Holds(recs[i], l, batches[i]);
    OwnTags(l.ty, ARM);
    OwnTag(l.ty.fields, l.usages);
    if Encoded(recs[i], l.ty).Ok? {
      ReportsWritten(recs[i], l, batches[i]);
    }
  }

  lemma {:induction false} OwnTags(ty: Ty, p: Params)
    requires ty.TStruct? && WellFormed(ty, p)
    ensures DistinctTags(ty.fields)
  {
  }
}
