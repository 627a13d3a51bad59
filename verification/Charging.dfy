/** Usage reports on their way into charging records, and the web console's way back to volumes. */
module Charging {
  import opened Octets
  import opened BerSchema
  import BerMarshal
  import BerUnmarshal
  import BerRoundTrip
  import opened CdrFile
  import CdrFileRoundTrip

  // ---------------------------------------------------------------- reports and their record types

  /** The parts of a used-unit container that the converter copies. */
  datatype UsedUnit = UsedUnit(sequence: int, uplink: int, downlink: int, total: int, specific: int)

  datatype UnitUsage = UnitUsage(ratingGroup: int, containers: seq<UsedUnit>, upfId: octets)

  const PLAIN := Params(false, None, false, 0)

  function Opt(ty: Ty, tag: nat): Field {
    Field(ty, Params(true, Some(tag), false, 0))
  }

  const TRIGGER := TChoice([Field(TPtr(TInt), Params(false, Some(0), false, 0))])

  /** The members of a used-unit container, in tag order; structures the converter never fills stand as opaque pointers. */
  const CONTAINER_FIELDS: seq<Field> := [
    Opt(TPtr(TInt), 0), Opt(TPtr(TInt), 1), Opt(TList(TRIGGER), 2), Opt(TPtr(TOctets), 3),
    Opt(TPtr(TInt), 4), Opt(TPtr(TInt), 5), Opt(TPtr(TInt), 6), Opt(TPtr(TInt), 7),
    Opt(TPtr(TOctets), 8), Opt(TPtr(TInt), 9), Opt(TPtr(TBool), 10), Opt(TPtr(TOctets), 11),
    Opt(TPtr(TBool), 12), Opt(TPtr(TEnum), 13), Opt(TPtr(TOctets), 14), Opt(TList(TOctets), 15)]

  const CONTAINER := TStruct(CONTAINER_FIELDS)

  const USAGE := TStruct([
    Field(TInt, Params(false, Some(0), false, 0)),
    Opt(TList(CONTAINER), 1), Opt(TPtr(TStr), 2), Opt(TPtr(TOctets), 3)])

  function ToContainer(u: UsedUnit): Val {
    VStruct([Nil, Nil, Nil, Nil,
             Ref(VInt(u.total)), Ref(VInt(u.uplink)), Ref(VInt(u.downlink)), Ref(VInt(u.specific)),
             Nil, Ref(VInt(u.sequence)), Nil, Nil, Nil, Nil, Nil, Nil])
  }

  function ToUsage(m: UnitUsage): Val {
    VStruct([VInt(m.ratingGroup), VList(ToContainers(m.containers)), Ref(VStr(m.upfId)), Nil])
  }

  function ToContainers(us: seq<UsedUnit>): (r: seq<Val>)
    ensures |r| == |us| && forall i :: 0 <= i < |us| ==> r[i] == ToContainer(us[i])
  {
    seq(|us|, i requires 0 <= i < |us| => ToContainer(us[i]))
  }

  function ToUsages(ms: seq<UnitUsage>): (r: seq<Val>)
    ensures |r| == |ms| && forall i :: 0 <= i < |ms| ==> r[i] == ToUsage(ms[i])
  {
    seq(|ms|, i requires 0 <= i < |ms| => ToUsage(ms[i]))
  }

  /** `UsedUnitContainerToCdr` */
  method UsedUnitContainerToCdr(us: seq<UsedUnit>) returns (r: seq<Val>)
    ensures r == ToContainers(us)
  {
    r := [];
    for i := 0 to |us|
      invariant r == ToContainers(us[..i])
    {
      r := r + [ToContainer(us[i])];
      assert r == ToContainers(us[..i + 1]);
    }
    assert us[..|us|] == us;
  }

  /** `MultiUnitUsageToCdr` */
  method MultiUnitUsageToCdr(ms: seq<UnitUsage>) returns (r: seq<Val>)
    ensures r == ToUsages(ms)
  {
    r := [];
    for i := 0 to |ms|
      invariant r == ToUsages(ms[..i])
    {
      var cs := UsedUnitContainerToCdr(ms[i].containers);
      r := r + [VStruct([VInt(ms[i].ratingGroup), VList(cs), Ref(VStr(ms[i].upfId)), Nil])];
      assert r == ToUsages(ms[..i + 1]);
    }
    assert ms[..|ms|] == ms;
  }

  // ---------------------------------------------------------------- reports survive the codec

  /** Integers as the reports carry them: counts, sequence numbers and rating groups, none negative. */
  predicate Counted(i: int) {
    0 <= i < TWO_63
  }

  predicate Reportable(u: UsedUnit) {
    Counted(u.sequence) && Counted(u.uplink) && Counted(u.downlink) && Counted(u.total) && Counted(u.specific)
  }

  predicate ReportableUsage(m: UnitUsage) {
    Counted(m.ratingGroup) && forall i :: 0 <= i < |m.containers| ==> Reportable(m.containers[i])
  }

  lemma {:induction false} ContainerFaithful(u: UsedUnit)
    requires Reportable(u)
    ensures Typed(ToContainer(u), CONTAINER) && BerRoundTrip.Faithful(ToContainer(u), CONTAINER)
  {
    var v, fs := ToContainer(u), CONTAINER_FIELDS;
    forall i | 0 <= i < |fs|
      ensures Typed(v.members[i], fs[i].ty)
      ensures Absent(v.members[i], fs[i]) || BerRoundTrip.Faithful(v.members[i], fs[i].ty)
    {
      if i in {4, 5, 6, 7, 9} {
        CountFaithful(v.members[i].target.i);
        assert fs[i].ty == TPtr(TInt);
      }
    }
  }

  lemma {:induction false} CountFaithful(i: int)
    requires Counted(i)
    ensures Typed(VInt(i), TInt) && BerRoundTrip.Faithful(VInt(i), TInt)
    ensures Typed(Ref(VInt(i)), TPtr(TInt)) && BerRoundTrip.Faithful(Ref(VInt(i)), TPtr(TInt))
  {
  }

  lemma {:induction false} UsageFaithful(m: UnitUsage)
    requires ReportableUsage(m)
    ensures Typed(ToUsage(m), USAGE) && BerRoundTrip.Faithful(ToUsage(m), USAGE)
  {
    hide Typed, BerRoundTrip.Faithful;
    var cs := ToContainers(m.containers);
    forall i | 0 <= i < |cs|
      ensures Typed(cs[i], CONTAINER) && BerRoundTrip.Faithful(cs[i], CONTAINER)
    {
      ContainerFaithful(m.containers[i]);
    }
    ListFaithful(cs);
    CountFaithful(m.ratingGroup);
    TextFaithful(m.upfId);
    FourFaithful([VInt(m.ratingGroup), VList(cs), Ref(VStr(m.upfId)), Nil], USAGE.fields);
  }

  lemma {:induction false} FourFaithful(vs: seq<Val>, fs: seq<Field>)
    requires |vs| == |fs| == 4 && vs[3] == Nil && fs[3].params.optional && fs[3].ty.TPtr?
    requires forall i :: 0 <= i < 3 ==> Typed(vs[i], fs[i].ty) && BerRoundTrip.Faithful(vs[i], fs[i].ty)
    ensures Typed(VStruct(vs), TStruct(fs)) && BerRoundTrip.Faithful(VStruct(vs), TStruct(fs))
  {
    assert Typed(Nil, fs[3].ty) && Absent(vs[3], fs[3]);
  }

  lemma {:induction false} ListFaithful(cs: seq<Val>)
    requires forall i :: 0 <= i < |cs| ==> Typed(cs[i], CONTAINER) && BerRoundTrip.Faithful(cs[i], CONTAINER)
    ensures Typed(VList(cs), TList(CONTAINER)) && BerRoundTrip.Faithful(VList(cs), TList(CONTAINER))
  {
  }

  lemma {:induction false} TextFaithful(s: octets)
    ensures Typed(Ref(VStr(s)), TPtr(TStr)) && BerRoundTrip.Faithful(Ref(VStr(s)), TPtr(TStr))
  {
  }

  /** A list of converted usages comes back from the parser as it was. */
  lemma {:induction false} UsagesReturned(ms: seq<UnitUsage>)
    requires forall i :: 0 <= i < |ms| ==> ReportableUsage(ms[i])
    ensures Typed(VList(ToUsages(ms)), TList(USAGE))
    ensures BerRoundTrip.Returned(VList(ToUsages(ms)), TList(USAGE)) == VList(ToUsages(ms))
  {
    var us := ToUsages(ms);
    forall i | 0 <= i < |us|
      ensures Typed(us[i], USAGE) && BerRoundTrip.Faithful(us[i], USAGE)
    {
      UsageFaithful(ms[i]);
    }
    BerRoundTrip.ReturnedUnchanged(VList(us), TList(USAGE));
  }

  // ---------------------------------------------------------------- parseCDR

  /** Volumes of one rating group, as int64 counters. */
  datatype Volumes = Volumes(total: int, uplink: int, downlink: int)

  const NOTHING := Volumes(0, 0, 0)

  function Wrapped(v: Volumes): Volumes {
    Volumes(WrapInt64(v.total), WrapInt64(v.uplink), WrapInt64(v.downlink))
  }

  function Plus(a: Volumes, b: Volumes): Volumes {
    Volumes(a.total + b.total, a.uplink + b.uplink, a.downlink + b.downlink)
  }

  lemma {:induction false} ContainerShape(c: Val)
    requires Typed(c, CONTAINER)
    ensures c.VStruct? && |c.members| == 16
    ensures forall i :: 4 <= i <= 6 ==> c.members[i].Nil? || (c.members[i].Ref? && c.members[i].target.VInt?)
  {
    assert forall i :: 4 <= i <= 6 ==> CONTAINER_FIELDS[i].ty == TPtr(TInt);
    assert forall i :: 4 <= i <= 6 ==> Typed(c.members[i], CONTAINER_FIELDS[i].ty);
  }

  /** `du.TotalVol += ...` for the three counters; a container without a volume is a nil dereference. */
  function AddContainer(du: Volumes, c: Val): Option<Volumes>
    requires Typed(c, CONTAINER)
  {
    ContainerShape(c);
    if c.members[4].Nil? || c.members[5].Nil? || c.members[6].Nil? then None
    else Some(Wrapped(Plus(du, Volumes(c.members[4].target.i, c.members[5].target.i, c.members[6].target.i))))
  }

  function AddContainers(du: Volumes, cs: seq<Val>): Option<Volumes>
    requires forall i :: 0 <= i < |cs| ==> Typed(cs[i], CONTAINER)
  {
    if cs == [] then Some(du)
    else
      var rest := AddContainers(du, cs[..|cs| - 1]);
      if rest.None? then None else AddContainer(rest.value, cs[|cs| - 1])
  }

  type Table = map<int, Volumes>

  function Entry(t: Table, rg: int): Volumes {
    if rg in t then t[rg] else NOTHING
  }

  function Elements(v: Val): seq<Val>
    requires v.Nil? || v.VList?
  {
    if v.Nil? then [] else v.elems
  }

  lemma {:induction false} UsageShape(u: Val)
    requires Typed(u, USAGE)
    ensures u.VStruct? && |u.members| == 4 && u.members[0].VInt? && (u.members[1].Nil? || u.members[1].VList?)
    ensures forall i :: 0 <= i < |Elements(u.members[1])| ==> Typed(Elements(u.members[1])[i], CONTAINER)
  {
    assert Typed(u.members[0], TInt) && Typed(u.members[1], TList(CONTAINER));
  }

  function AddUsage(t: Table, u: Val): Option<Table>
    requires Typed(u, USAGE)
  {
    UsageShape(u);
    var du := AddContainers(Entry(t, u.members[0].i), Elements(u.members[1]));
    if du.None? then None else Some(t[u.members[0].i := du.value])
  }

  function AddUsages(t: Table, us: seq<Val>): Option<Table>
    requires forall i :: 0 <= i < |us| ==> Typed(us[i], USAGE)
  {
    if us == [] then Some(t)
    else
      var rest := AddUsages(t, us[..|us| - 1]);
      if rest.None? then None else AddUsage(rest.value, us[|us| - 1])
  }

  const SNSSAI := TStruct([Field(TInt, Params(false, Some(0), false, 0)), Opt(TPtr(TOctets), 1)])

  /** Where the console looks in a record: the list of unit usages, the PDU session information, and in that the slice
      and the data network name. */
  datatype Layout = Layout(ty: Ty, usages: nat, pdu: nat, slice: nat, dnn: nat)

  predicate IsLayout(l: Layout) {
    && l.ty.TStruct? && l.usages < |l.ty.fields| && l.pdu < |l.ty.fields| && l.ty.fields[l.usages].ty == TList(USAGE)
    && l.ty.fields[l.pdu].ty.TPtr? && l.ty.fields[l.pdu].ty.elem.TStruct?
    && var fs := l.ty.fields[l.pdu].ty.elem.fields;
       l.slice < |fs| && l.dnn < |fs| && fs[l.slice].ty == TPtr(SNSSAI) && fs[l.dnn].ty == TPtr(TStr)
  }

  /** The pointers that the console follows for every unit usage are there. */
  predicate Carries(rec: Val, l: Layout)
    requires IsLayout(l) && Typed(rec, l.ty)
  {
    RecordShape(rec, l);
    && rec.members[l.pdu].Ref?
    && var info := rec.members[l.pdu].target;
       && info.members[l.slice].Ref? && info.members[l.slice].target.members[1].Ref? && info.members[l.dnn].Ref?
  }

  lemma {:induction false} RecordShape(rec: Val, l: Layout)
    requires IsLayout(l) && Typed(rec, l.ty)
    ensures rec.VStruct? && |rec.members| == |l.ty.fields|
    ensures rec.members[l.usages].Nil? || rec.members[l.usages].VList?
    ensures forall i :: 0 <= i < |Elements(rec.members[l.usages])| ==> Typed(Elements(rec.members[l.usages])[i], USAGE)
    ensures rec.members[l.pdu].Ref? ==> InfoShape(rec.members[l.pdu].target, l)
  {
    assert Typed(rec.members[l.usages], TList(USAGE));
    var ty := l.ty.fields[l.pdu].ty;
    assert Typed(rec.members[l.pdu], ty);
    if rec.members[l.pdu].Ref? {
      var info := rec.members[l.pdu].target;
      assert Typed(info, ty.elem);
      assert Typed(info.members[l.slice], TPtr(SNSSAI)) && Typed(info.members[l.dnn], TPtr(TStr));
    }
  }

  predicate InfoShape(info: Val, l: Layout)
    requires IsLayout(l)
  {
    && info.VStruct? && |info.members| == |l.ty.fields[l.pdu].ty.elem.fields|
    && (info.members[l.slice].Ref? ==>
          info.members[l.slice].target.VStruct? && |info.members[l.slice].target.members| == 2)
  }

  /** One record's octets: a record that does not parse is skipped, unless the parser panics on it; a record with usages
      and without the pointers is a nil dereference. */
  function AddRecord(t: Table, l: Layout, body: octets): Option<Table>
    requires IsLayout(l)
  {
    match BerUnmarshal.ParseField(l.ty, Zero(l.ty), body, PLAIN)
    case Fail(Error) => Some(t)
    case Fail(Panic) => None
    case Ok(rec) =>
      RecordShape(rec, l);
      var us := Elements(rec.members[l.usages]);
      if us != [] && !Carries(rec, l) then None else AddUsages(t, us)
  }

  function AddRecords(t: Table, l: Layout, bodies: seq<octets>): Option<Table>
    requires IsLayout(l)
  {
    if bodies == [] then Some(t)
    else
      var rest := AddRecords(t, l, bodies[..|bodies| - 1]);
      if rest.None? then None else AddRecord(rest.value, l, bodies[|bodies| - 1])
  }

  function Bodies(cs: seq<Cdr>): (r: seq<octets>)
    ensures |r| == |cs|
  {
    seq(|cs|, i requires 0 <= i < |cs| => cs[i].body)
  }

  /** The volume table the console reads out of a file; `None` is a panic. */
  function ReadVolumes(data: octets, l: Layout): Option<Table>
    requires IsLayout(l)
  {
    match DecodeFile(data)
    case None => None
    case Some((f, _)) => AddRecords(map[], l, Bodies(f.cdrs))
  }

  method SumContainers(du0: Volumes, cs: seq<Val>) returns (du: Option<Volumes>)
    requires forall i :: 0 <= i < |cs| ==> Typed(cs[i], CONTAINER)
    ensures du == AddContainers(du0, cs)
  {
    hide Typed, AddContainer;
    var x := du0;
    for i := 0 to |cs|
      invariant AddContainers(du0, cs[..i]) == Some(x)
    {
      assert cs[..i + 1][..i] == cs[..i];
      var y := AddContainer(x, cs[i]);
      if y.None? {
        ContainersFail(du0, cs, i + 1);
        return None;
      }
      x := y.value;
    }
    assert cs[..|cs|] == cs;
    return Some(x);
  }

  lemma {:induction false} ContainersFail(du: Volumes, cs: seq<Val>, i: nat)
    requires forall j :: 0 <= j < |cs| ==> Typed(cs[j], CONTAINER)
    requires i <= |cs| && AddContainers(du, cs[..i]).None?
    ensures AddContainers(du, cs).None?
    decreases |cs| - i
  {
    if i == |cs| {
      assert cs[..i] == cs;
    } else {
      assert cs[..i + 1][..i] == cs[..i];
      ContainersFail(du, cs, i + 1);
    }
  }

  lemma {:induction false} UsagesFail(t: Table, us: seq<Val>, i: nat)
    requires forall j :: 0 <= j < |us| ==> Typed(us[j], USAGE)
    requires i <= |us| && AddUsages(t, us[..i]).None?
    ensures AddUsages(t, us).None?
    decreases |us| - i
  {
    if i == |us| {
      assert us[..i] == us;
    } else {
      assert us[..i + 1][..i] == us[..i];
      UsagesFail(t, us, i + 1);
    }
  }

  method SumUsages(t0: Table, us: seq<Val>) returns (t: Option<Table>)
    requires forall i :: 0 <= i < |us| ==> Typed(us[i], USAGE)
    ensures t == AddUsages(t0, us)
  {
    hide Typed, AddContainers;
    var x := t0;
    for i := 0 to |us|
      invariant AddUsages(t0, us[..i]) == Some(x)
    {
      assert us[..i + 1][..i] == us[..i];
      UsageShape(us[i]);
      var rg := us[i].members[0].i;
      var du := SumContainers(Entry(x, rg), Elements(us[i].members[1]));
      if du.None? {
        UsagesFail(t0, us, i + 1);
        return None;
      }
      x := x[rg := du.value];
    }
    assert us[..|us|] == us;
    return Some(x);
  }

  /** `parseCDR`: decode the file, parse each record, follow the pointers to its slice and network name, and add up its
      usages. */
  method ParseCdr(data: octets, l: Layout) returns (t: Option<Table>)
    requires IsLayout(l)
    ensures t == ReadVolumes(data, l)
  {
    hide Typed, BerUnmarshal.ParseField, DecodeFile, Carries;
    var f := CdrFile.Decode(data);
    if f.None? {
      return None;
    }
    var cs := f.value.0.cdrs;
    ghost var bodies := Bodies(cs);
    var x: Table := map[];
    for i := 0 to |cs|
      invariant AddRecords(map[], l, bodies[..i]) == Some(x)
    {
      assert bodies[..i + 1][..i] == bodies[..i];
      var rec := BerUnmarshal.Parse(l.ty, Zero(l.ty), cs[i].body, PLAIN);
      if rec == Fail(Error) {
        continue;
      }
      var y: Option<Table> := None;
      if rec.Ok? {
        RecordShape(rec.value, l);
        var us := Elements(rec.value.members[l.usages]);
        if us == [] || Carries(rec.value, l) {
          y := SumUsages(x, us);
        }
      }
      if y.None? {
        RecordsFail(map[], l, bodies, i + 1);
        return None;
      }
      x := y.value;
    }
    assert bodies[..|cs|] == bodies;
    return Some(x);
  }

  lemma {:induction false} RecordsFail(t: Table, l: Layout, bodies: seq<octets>, i: nat)
    requires IsLayout(l) && i <= |bodies| && AddRecords(t, l, bodies[..i]).None?
    ensures AddRecords(t, l, bodies).None?
    decreases |bodies| - i
  {
    if i == |bodies| {
      assert bodies[..i] == bodies;
    } else {
      assert bodies[..i + 1][..i] == bodies[..i];
      RecordsFail(t, l, bodies, i + 1);
    }
  }

  // ---------------------------------------------------------------- what was reported

  function Reported(us: seq<UsedUnit>): Volumes {
    if us == [] then NOTHING
    else
      var u := us[|us| - 1];
      Plus(Reported(us[..|us| - 1]), Volumes(u.total, u.uplink, u.downlink))
  }

  /** The volumes all usages report for one rating group. */
  function ReportedFor(ms: seq<UnitUsage>, rg: int): Volumes {
    if ms == [] then NOTHING
    else
      var m := ms[|ms| - 1];
      var before := ReportedFor(ms[..|ms| - 1], rg);
      if m.ratingGroup == rg then Plus(before, Reported(m.containers)) else before
  }

  predicate Mentions(ms: seq<UnitUsage>, rg: int) {
    exists i :: 0 <= i < |ms| && ms[i].ratingGroup == rg
  }

  /** A table that holds, for exactly the reported rating groups, the reported volumes modulo 2^64. */
  ghost predicate Conserves(t: Table, ms: seq<UnitUsage>) {
    forall rg: int :: (rg in t <==> Mentions(ms, rg)) && Entry(t, rg) == Wrapped(ReportedFor(ms, rg))
  }

  lemma {:induction false} ContainersAdded(base: Volumes, us: seq<UsedUnit>)
    requires forall i :: 0 <= i < |us| ==> Reportable(us[i])
    requires forall i :: 0 <= i < |us| ==> Typed(ToContainers(us)[i], CONTAINER)
    ensures AddContainers(Wrapped(base), ToContainers(us)) == Some(Wrapped(Plus(base, Reported(us))))
  {
    hide Typed, AddContainer, Wrapped, ToContainer;
    if us != [] {
      var n := |us| - 1;
      var cs := ToContainers(us);
      assert cs[..n] == ToContainers(us[..n]);
      ContainersAdded(base, us[..n]);
      var u, acc := us[n], Plus(base, Reported(us[..n]));
      assert cs[n] == ToContainer(u);
      ContainerAdded(acc, u);
    }
  }

  lemma {:induction false} ContainerAdded(acc: Volumes, u: UsedUnit)
    requires Typed(ToContainer(u), CONTAINER)
    ensures AddContainer(Wrapped(acc), ToContainer(u)) == Some(Wrapped(Plus(acc, Volumes(u.total, u.uplink, u.downlink))))
  {
    hide Typed, WrapInt64;
    WrapAbsorbs(acc.total, 1, u.total);
    WrapAbsorbs(acc.uplink, 1, u.uplink);
    WrapAbsorbs(acc.downlink, 1, u.downlink);
  }

  lemma {:induction false} UsageAdded(t: Table, ms: seq<UnitUsage>, m: UnitUsage)
    requires Conserves(t, ms) && ReportableUsage(m) && Typed(ToUsage(m), USAGE)
    ensures AddUsage(t, ToUsage(m)).Some? && Conserves(AddUsage(t, ToUsage(m)).value, ms + [m])
  {
    hide Typed, ToUsage, Wrapped, ReportedFor, Reported, Conserves, AddContainers, ReportableUsage, Reportable;
    var u, rg := ToUsage(m), m.ratingGroup;
    UsageShape(u);
    UsageMembers(m);
    assert Elements(u.members[1]) == ToContainers(m.containers);
    ConservedEntry(t, ms, rg);
    ContainersReportable(m);
    ContainersAdded(ReportedFor(ms, rg), m.containers);
    EntryConserved(t, ms, m);
  }

  lemma {:induction false} UsageMembers(m: UnitUsage)
    ensures var u := ToUsage(m).members;
            |u| == 4 && u[0] == VInt(m.ratingGroup) && u[1] == VList(ToContainers(m.containers))
  {
  }

  lemma {:induction false} ContainersReportable(m: UnitUsage)
    requires ReportableUsage(m)
    ensures forall i :: 0 <= i < |m.containers| ==> Reportable(m.containers[i])
  {
  }

  lemma {:induction false} ConservedEntry(t: Table, ms: seq<UnitUsage>, rg: int)
    requires Conserves(t, ms)
    ensures Entry(t, rg) == Wrapped(ReportedFor(ms, rg))
  {
    hide Wrapped, ReportedFor, Mentions;
    assert rg in t <==> Mentions(ms, rg);
  }

  /** One usage more, and its volumes on top of its rating group's. */
  lemma {:induction false} EntryConserved(t: Table, ms: seq<UnitUsage>, m: UnitUsage)
    requires Conserves(t, ms)
    ensures Conserves(t[m.ratingGroup := Wrapped(Plus(ReportedFor(ms, m.ratingGroup), Reported(m.containers)))], ms + [m])
  {
    hide Wrapped, Reported, Plus, Mentions;
    var rg := m.ratingGroup;
    var t' := t[rg := Wrapped(Plus(ReportedFor(ms, rg), Reported(m.containers)))];
    forall g: int
      ensures (g in t' <==> Mentions(ms + [m], g)) && Entry(t', g) == Wrapped(ReportedFor(ms + [m], g))
    {
      MentionsAppend(ms, m, g);
      ReportedAppend(ms, m, g);
      assert (g in t <==> Mentions(ms, g)) && Entry(t, g) == Wrapped(ReportedFor(ms, g));
    }
  }

  lemma {:induction false} ReportedAppend(ms: seq<UnitUsage>, m: UnitUsage, rg: int)
    ensures ReportedFor(ms + [m], rg)
            == if m.ratingGroup == rg then Plus(ReportedFor(ms, rg), Reported(m.containers)) else ReportedFor(ms, rg)
  {
    assert (ms + [m])[..|ms|] == ms;
  }

  lemma {:induction false} MentionsAppend(ms: seq<UnitUsage>, m: UnitUsage, rg: int)
    ensures Mentions(ms + [m], rg) <==> Mentions(ms, rg) || m.ratingGroup == rg
  {
    assert (ms + [m])[|ms|] == m;
    if Mentions(ms, rg) {
      var i :| 0 <= i < |ms| && ms[i].ratingGroup == rg;
      assert (ms + [m])[i] == ms[i];
    }
  }

  lemma {:induction false} UsagesAdded(t: Table, before: seq<UnitUsage>, ms: seq<UnitUsage>)
    requires Conserves(t, before)
    requires forall i :: 0 <= i < |ms| ==> ReportableUsage(ms[i]) && Typed(ToUsages(ms)[i], USAGE)
    ensures AddUsages(t, ToUsages(ms)).Some? && Conserves(AddUsages(t, ToUsages(ms)).value, before + ms)
  {
    hide Typed, ToUsage, Conserves, AddUsage, ReportableUsage;
    if ms == [] {
      assert before + ms == before;
    } else {
      var n := |ms| - 1;
      assert ToUsages(ms)[..n] == ToUsages(ms[..n]);
      UsagesAdded(t, before, ms[..n]);
      var t' := AddUsages(t, ToUsages(ms[..n])).value;
      assert ToUsages(ms)[n] == ToUsage(ms[n]);
      UsageAdded(t', before + ms[..n], ms[n]);
      assert before + ms[..n] + [ms[n]] == before + ms;
    }
  }

  // ---------------------------------------------------------------- end to end

  const ARM := Params(false, Some(200), false, 0)

  /** A CHF record: a choice whose only arm is the charging record, under tag 200. */
  function ChfRecord(ty: Ty): Ty {
    TChoice([Field(TPtr(ty), ARM)])
  }

  /** The octets written for a record: the CHF choice wrapper adds nothing but the arm's tag. */
  lemma {:induction false} ChfRecordOctets(rec: Val, ty: Ty)
    requires Typed(rec, ty)
    ensures var chf := VChoice(1, [Ref(rec)]);
            && Typed(chf, ChfRecord(ty))
            && BerMarshal.MakeField(chf, ChfRecord(ty), PLAIN) == BerMarshal.MakeField(rec, ty, ARM)
  {
    var chf := VChoice(1, [Ref(rec)]);
    assert Typed(Ref(rec), TPtr(ty));
    assert BerMarshal.MakeField(Ref(rec), TPtr(ty), ARM) == BerMarshal.MakeField(rec, ty, ARM);
  }

  /** What the marshaller makes of a record. */
  function Encoded(rec: Val, ty: Ty): Outcome<octets>
    requires Typed(rec, ty)
  {
    match BerMarshal.MakeField(rec, ty, ARM)
    case Fail(how) => Fail(how)
    case Ok(e) => Ok(BerMarshal.Image(e))
  }

  /** A record that holds these reports, whatever its other members, and does not overflow the length of a CDR. */
  ghost predicate Holds(rec: Val, l: Layout, ms: seq<UnitUsage>) {
    && IsLayout(l) && Typed(rec, l.ty) && WellFormed(l.ty, ARM) && BerRoundTrip.Aligned(rec, l.ty, ARM)
    && (forall i :: 0 <= i < |ms| ==> ReportableUsage(ms[i]))
    && (rec.members[l.usages] == VList(ToUsages(ms)) || (ms == [] && Absent(rec.members[l.usages], l.ty.fields[l.usages])))
    && (Encoded(rec, l.ty).Ok? ==> |Encoded(rec, l.ty).value| < TWO_16)
  }

  /** What the console needs of a record: that it has an encoding, and its pointers if it has usages. */
  ghost predicate Legible(rec: Val, l: Layout, ms: seq<UnitUsage>)
    requires Holds(rec, l, ms)
  {
    Encoded(rec, l.ty).Ok? && (ms != [] ==> Carries(rec, l))
  }

  /** The codec keeps which pointers there are. */
  lemma {:induction false} CarriesReturned(rec: Val, l: Layout)
    requires IsLayout(l) && Typed(rec, l.ty) && Typed(BerRoundTrip.Returned(rec, l.ty), l.ty)
    ensures Carries(BerRoundTrip.Returned(rec, l.ty), l) <==> Carries(rec, l)
  {
    RecordShape(rec, l);
    BerRoundTrip.ReturnedStruct(rec, l.ty);
    var f := l.ty.fields[l.pdu];
    var v := rec.members[l.pdu];
    assert Typed(v, f.ty);
    PointerReturned(v, f);
    if v.Ref? {
      InfoReturned(v.target, l);
    }
  }

  lemma {:induction false} PointerReturned(v: Val, f: Field)
    requires f.ty.TPtr? && Typed(v, f.ty)
    ensures var r := BerRoundTrip.ReturnedMember(v, f);
            if v.Nil? then r.Nil? else v.Ref? && r == Ref(BerRoundTrip.Returned(v.target, f.ty.elem))
  {
  }

  lemma {:induction false} InfoReturned(info: Val, l: Layout)
    requires IsLayout(l) && Typed(info, l.ty.fields[l.pdu].ty.elem) && InfoShape(info, l)
    ensures var r := BerRoundTrip.Returned(info, l.ty.fields[l.pdu].ty.elem);
            && InfoShape(r, l)
            && (r.members[l.slice].Ref? <==> info.members[l.slice].Ref?)
            && (r.members[l.dnn].Ref? <==> info.members[l.dnn].Ref?)
            && (info.members[l.slice].Ref? ==>
                  (r.members[l.slice].target.members[1].Ref? <==> info.members[l.slice].target.members[1].Ref?))
  {
    var ty := l.ty.fields[l.pdu].ty.elem;
    BerRoundTrip.ReturnedStruct(info, ty);
    var s := info.members[l.slice];
    assert Typed(s, ty.fields[l.slice].ty) && Typed(info.members[l.dnn], ty.fields[l.dnn].ty);
    PointerReturned(s, ty.fields[l.slice]);
    PointerReturned(info.members[l.dnn], ty.fields[l.dnn]);
    if s.Ref? {
      assert Typed(s.target, SNSSAI);
      BerRoundTrip.ReturnedStruct(s.target, SNSSAI);
      assert Typed(s.target.members[1], SNSSAI.fields[1].ty);
      PointerReturned(s.target.members[1], SNSSAI.fields[1]);
    }
  }

  /** The console parses the CHF choice as a bare charging record, and gets the reports and the pointers back. */
  lemma {:induction false} RecordRead(rec: Val, l: Layout, ms: seq<UnitUsage>)
    requires Holds(rec, l, ms) && Encoded(rec, l.ty).Ok?
    ensures var r := BerUnmarshal.ParseField(l.ty, Zero(l.ty), Encoded(rec, l.ty).value, PLAIN);
            && r.Ok? && r.value.VStruct? && |r.value.members| == |l.ty.fields|
            && (r.value.members[l.usages].Nil? || r.value.members[l.usages].VList?)
            && Elements(r.value.members[l.usages]) == ToUsages(ms)
            && (Carries(r.value, l) <==> Carries(rec, l))
  {
    hide Carries, BerUnmarshal.ParseField, BerMarshal.MakeField, BerMarshal.Image, BerMarshal.Len, Zero, WellFormed,
         BerRoundTrip.Aligned;
    assert Encoded(rec, l.ty).value == BerMarshal.Image(BerMarshal.MakeField(rec, l.ty, ARM).value);
    BerRoundTrip.ParseMarshalled(rec, l.ty, ARM);
    BerRoundTrip.TagUnread(l.ty, Zero(l.ty), Encoded(rec, l.ty).value, ARM);
    assert ARM.(tag := None) == PLAIN;
    BerRoundTrip.ReturnedStruct(rec, l.ty);
    CarriesReturned(rec, l);
    UsagesReturned(ms);
  }

  /** A record is added if and only if it is legible; otherwise the console panics. */
  lemma {:induction false} RecordAdded(t: Table, before: seq<UnitUsage>, rec: Val, l: Layout, ms: seq<UnitUsage>)
    requires Holds(rec, l, ms) && Conserves(t, before)
    ensures var r := AddRecord(t, l, BodyOf(Encoded(rec, l.ty)));
            (r.Some? <==> Legible(rec, l, ms)) && (r.Some? ==> Conserves(r.value, before + ms))
  {
    hide Conserves, BerUnmarshal.ParseField, BerMarshal.MakeField, WellFormed, BerRoundTrip.Aligned, BerMarshal.Image;
    hide BerMarshal.Len, Carries;
    if Encoded(rec, l.ty).Ok? {
      RecordRead(rec, l, ms);
      UsagesReturned(ms);
      UsagesAdded(t, before, ms);
    } else {
      NothingToParse(l.ty);
    }
  }

  /** An empty record makes the parser index its first octet. */
  lemma {:induction false} NothingToParse(ty: Ty)
    requires ty.TStruct?
    ensures BerUnmarshal.ParseField(ty, Zero(ty), [], PLAIN) == Fail(Panic)
  {
  }

  function Flatten(batches: seq<seq<UnitUsage>>): seq<UnitUsage> {
    if batches == [] then [] else Flatten(batches[..|batches| - 1]) + batches[|batches| - 1]
  }

  ghost predicate AllHold(recs: seq<Val>, l: Layout, batches: seq<seq<UnitUsage>>) {
    |recs| == |batches| && IsLayout(l) && forall i :: 0 <= i < |recs| ==> Holds(recs[i], l, batches[i])
  }

  ghost predicate AllLegible(recs: seq<Val>, l: Layout, batches: seq<seq<UnitUsage>>)
    requires AllHold(recs, l, batches)
  {
    forall i :: 0 <= i < |recs| ==> Legible(recs[i], l, batches[i])
  }

  ghost function Encodings(recs: seq<Val>, l: Layout, batches: seq<seq<UnitUsage>>): (r: seq<Outcome<octets>>)
    requires AllHold(recs, l, batches)
    ensures |r| == |recs|
  {
    seq(|recs|, i requires 0 <= i < |recs| => Encoded(recs[i], l.ty))
  }

  lemma {:induction false} RecordsAdded(recs: seq<Val>, l: Layout, batches: seq<seq<UnitUsage>>)
    requires AllHold(recs, l, batches)
    ensures var t := AddRecords(map[], l, BodiesOf(Encodings(recs, l, batches)));
            (t.Some? <==> AllLegible(recs, l, batches)) && (t.Some? ==> Conserves(t.value, Flatten(batches)))
  {
    hide Conserves, Holds, Legible, AddRecord, AddRecords, Encoded;
    var bodies := BodiesOf(Encodings(recs, l, batches));
    AddRecordsStep(map[], l, bodies);
    if recs == [] {
      NothingReported();
    } else {
      var n := |recs| - 1;
      assert bodies[..n] == BodiesOf(Encodings(recs[..n], l, batches[..n]));
      RecordsAdded(recs[..n], l, batches[..n]);
      LegibleStep(recs, l, batches);
      var t := AddRecords(map[], l, bodies[..n]);
      if t.Some? {
        RecordAdded(t.value, Flatten(batches[..n]), recs[n], l, batches[n]);
      }
    }
  }

  lemma {:induction false} AddRecordsStep(t: Table, l: Layout, bodies: seq<octets>)
    requires IsLayout(l)
    ensures AddRecords(t, l, bodies)
            == if bodies == [] then Some(t)
               else match AddRecords(t, l, bodies[..|bodies| - 1])
                    case None => None
                    case Some(x) => AddRecord(x, l, bodies[|bodies| - 1])
  {
  }

  lemma {:induction false} LegibleStep(recs: seq<Val>, l: Layout, batches: seq<seq<UnitUsage>>)
    requires AllHold(recs, l, batches) && recs != []
    ensures var n := |recs| - 1;
            && AllHold(recs[..n], l, batches[..n]) && Holds(recs[n], l, batches[n])
            && (AllLegible(recs, l, batches) <==>
                  AllLegible(recs[..n], l, batches[..n]) && Legible(recs[n], l, batches[n]))
  {
    hide Holds, Legible;
    var n := |recs| - 1;
    assert forall i :: 0 <= i < n ==> recs[..n][i] == recs[i] && batches[..n][i] == batches[i];
  }

  lemma {:induction false} NothingReported()
    ensures Conserves(map[], [])
  {
  }

  /** The record header `dumpCdrFile` writes: BER, release 0, and the length cut to a uint16. */
  function DumpedHeader(size: nat): CdrHeader {
    CdrHeader(size % TWO_16, 0, 0, 1, 0, 0)
  }

  function DumpedCdrs(bodies: seq<octets>): (r: seq<Cdr>)
    ensures |r| == |bodies|
  {
    seq(|bodies|, i requires 0 <= i < |bodies| => Cdr(DumpedHeader(|bodies[i]|), bodies[i]))
  }

  const EPOCH := TimeStamp(0, 0, 0, 0, 0, 0, 0)

  function DumpedFileHeader(count: nat, fileLength: u32): FileHeader {
    FileHeader(fileLength, 52, 0, 0, 0, 0, EPOCH, EPOCH, count % TWO_32, 0, 0, seq(20, i => 0), 0, 0, [], 0, [], 0, 0)
  }

  function DumpedFile(bodies: seq<octets>, fileLength: u32): File {
    File(DumpedFileHeader(|bodies|, fileLength), DumpedCdrs(bodies))
  }

  function DumpedLength(bodies: seq<octets>): nat {
    if bodies == [] then 52 else DumpedLength(bodies[..|bodies| - 1]) + |bodies[|bodies| - 1]| + 4
  }

  /** The octets of a record that go into the file: an encoding error is logged, and an empty record written. */
  function BodyOf(e: Outcome<octets>): octets { if e.Ok? then e.value else [] }

  function BodiesOf(es: seq<Outcome<octets>>): (r: seq<octets>)
    ensures |r| == |es|
  {
    seq(|es|, i requires 0 <= i < |es| => BodyOf(es[i]))
  }

  /** `dumpCdrFile`: one CDR behind a 4-octet header per record, with a running uint32 file length. No file is written
      when the marshaller panics. */
  method DumpCdrFile(es: seq<Outcome<octets>>) returns (f: Option<File>)
    ensures f == if Fail(Panic) in es then None
                 else Some(DumpedFile(BodiesOf(es), DumpedLength(BodiesOf(es)) % TWO_32))
  {
    ghost var bodies := BodiesOf(es);
    var cdrs: seq<Cdr>, length := [], 52;
    for i := 0 to |es|
      invariant Fail(Panic) !in es[..i]
      invariant cdrs == DumpedCdrs(bodies[..i]) && length == DumpedLength(bodies[..i]) % TWO_32
    {
      if es[i] == Fail(Panic) {
        return None;
      }
      var body := BodyOf(es[i]);
      assert bodies[..i + 1][..i] == bodies[..i];
      cdrs := cdrs + [Cdr(DumpedHeader(|body|), body)];
      assert cdrs == DumpedCdrs(bodies[..i + 1]);
      ModAdd(DumpedLength(bodies[..i]), |body| + 4, TWO_32);
      length := (length + |body| + 4) % TWO_32;
    }
    assert bodies[..|es|] == bodies;
    f := Some(File(DumpedFileHeader(|es|, length), cdrs));
  }

  lemma {:induction false} ModAdd(a: int, b: int, m: int)
    requires m > 0
    ensures (a % m + b) % m == (a + b) % m
  {
    ModShift(a + b, a / m, m);
    assert a == (a / m) * m + a % m;
  }

  /** Each record in a dumped file comes back, and the length field is the length of the file. */
  lemma {:induction false} DumpedSize(bodies: seq<octets>)
    ensures |CdrsOctets(DumpedCdrs(bodies))| + 52 == DumpedLength(bodies)
  {
    if bodies != [] {
      var n := |bodies| - 1;
      DumpedSize(bodies[..n]);
      var c := Cdr(DumpedHeader(|bodies[n]|), bodies[n]);
      assert DumpedCdrs(bodies) == DumpedCdrs(bodies[..n]) + [c];
      CdrsOctetsAppend(DumpedCdrs(bodies[..n]), c);
      assert |CdrOctets(c)| == 4 + |bodies[n]|;
    }
  }

  predicate Short(bodies: seq<octets>) { forall i :: 0 <= i < |bodies| ==> |bodies[i]| < TWO_16 }

  /** A dumped file decodes to itself if and only if every record is shorter than 2^16 octets, which is where its length
      field wraps. */
  lemma {:induction false} DumpedRead(bodies: seq<octets>, fileLength: u32)
    requires DumpedLength(bodies) < TWO_32
    ensures var f := DumpedFile(bodies, fileLength);
            && |FileOctets(f)| == DumpedLength(bodies)
            && (CdrFileRoundTrip.ComesBack(f) <==> Short(bodies))
            && (Short(bodies) ==> DecodeFile(FileOctets(f)) == Some((f, |FileOctets(f)|)))
  {
    hide DecodeFile, CdrsOctets, FixedOctets, BeFixed, CdrFileRoundTrip.ComesBack;
    var f := DumpedFile(bodies, fileLength);
    DumpedSize(bodies);
    DumpedCount(bodies);
    assert |HeaderOctets(f.hdr)| == 52;
    assert forall i :: 0 <= i < |bodies| ==> (CdrFileRoundTrip.CdrFits(f.cdrs[i]) <==> |bodies[i]| < TWO_16);
    assert CdrFileRoundTrip.Consistent(f) <==> Short(bodies);
    CdrFileRoundTrip.FileRoundTrip(f);
  }

  lemma {:induction false} DumpedCount(bodies: seq<octets>)
    ensures |bodies| <= DumpedLength(bodies)
  {
    if bodies != [] {
      DumpedCount(bodies[..|bodies| - 1]);
    }
  }

  /** End-to-end conservation: reports converted, BER-encoded, dumped to a CDR file, decoded and read by the console give
      a table if and only if every record is legible, and that table holds, for exactly the reported rating groups, the
      reported total, uplink and downlink volumes. */
  lemma {:induction false} Conservation(recs: seq<Val>, l: Layout, batches: seq<seq<UnitUsage>>, fileLength: u32)
    requires AllHold(recs, l, batches)
    requires DumpedLength(BodiesOf(Encodings(recs, l, batches))) < TWO_32
    ensures var bodies := BodiesOf(Encodings(recs, l, batches));
            var t := ReadVolumes(FileOctets(DumpedFile(bodies, fileLength)), l);
            (t.Some? <==> AllLegible(recs, l, batches)) && (t.Some? ==> Conserves(t.value, Flatten(batches)))
  {
    hide Conserves, DecodeFile, FileOctets, Holds, AddRecords, Encoded, Legible;
    var bodies := BodiesOf(Encodings(recs, l, batches));
    RecordsAdded(recs, l, batches);
    forall i | 0 <= i < |bodies|
      ensures |bodies[i]| < TWO_16
    {
      BodySize(recs[i], l, batches[i]);
    }
    DumpedRead(bodies, fileLength);
    assert Bodies(DumpedFile(bodies, fileLength).cdrs) == bodies;
  }

  lemma {:induction false} BodySize(rec: Val, l: Layout, ms: seq<UnitUsage>)
    requires Holds(rec, l, ms)
    ensures |BodyOf(Encoded(rec, l.ty))| < TWO_16
  {
  }
}
