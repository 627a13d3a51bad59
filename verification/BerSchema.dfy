/** What the codec sees of a Go type and of a Go value: reflection as data. */
module BerSchema {
  import opened Octets

  /** The parts of a `ber:"..."` field tag that the codec reads. */
  datatype Params = Params(optional: bool, tag: Option<nat>, isSet: bool, stringType: nat)

  datatype Field = Field(ty: Ty, params: Params)

  datatype Ty =
    | TInt | TEnum | TBool | TOctets | TBits | TStr
    | TPtr(elem: Ty)
    | TList(elem: Ty)
    | TStruct(fields: seq<Field>)
    | TChoice(arms: seq<Field>)

  /** `Nil` is a nil pointer or a nil slice; a choice holds all its arms, and arm k is selected by present == k + 1. */
  datatype Val =
    | Nil
    | VInt(i: int)
    | VBool(b: bool)
    | VOctets(bs: octets)
    | VBits(bs: octets, bitLen: nat)
    | VStr(bs: octets)
    | Ref(target: Val)
    | VList(elems: seq<Val>)
    | VStruct(members: seq<Val>)
    | VChoice(present: int, choices: seq<Val>)

  predicate Typed(v: Val, ty: Ty)
    decreases ty
  {
    match ty
    case TInt => v.VInt? && IsInt64(v.i)
    case TEnum => v.VInt? && IsInt64(v.i)
    case TBool => v.VBool?
    case TOctets => v.Nil? || v.VOctets?
    case TBits => v.VBits? && v.bitLen < TWO_64
    case TStr => v.VStr?
    case TPtr(t) => v.Nil? || (v.Ref? && Typed(v.target, t))
    case TList(t) => v.Nil? || (v.VList? && forall i :: 0 <= i < |v.elems| ==> Typed(v.elems[i], t))
    case TStruct(fs) =>
      v.VStruct? && |v.members| == |fs| && forall i :: 0 <= i < |fs| ==> Typed(v.members[i], fs[i].ty)
    case TChoice(fs) =>
      v.VChoice? && |v.choices| == |fs| && forall i :: 0 <= i < |fs| ==> Typed(v.choices[i], fs[i].ty)
  }

  predicate TypedAll(vs: seq<Val>, fs: seq<Field>) {
    |vs| == |fs| && forall i :: 0 <= i < |fs| ==> Typed(vs[i], fs[i].ty)
  }

  /** Go's zero value of a type, which is what a freshly made destination holds. */
  function Zero(ty: Ty): (v: Val)
    ensures Typed(v, ty)
    decreases ty
  {
    match ty
    case TInt => VInt(0)
    case TEnum => VInt(0)
    case TBool => VBool(false)
    case TOctets => Nil
    case TBits => VBits([], 0)
    case TStr => VStr([])
    case TPtr(_) => Nil
    case TList(_) => Nil
    case TStruct(fs) => VStruct(seq(|fs|, i requires 0 <= i < |fs| => Zero(fs[i].ty)))
    case TChoice(fs) => VChoice(0, seq(|fs|, i requires 0 <= i < |fs| => Zero(fs[i].ty)))
  }

  function Zeros(fs: seq<Field>): (vs: seq<Val>)
    ensures TypedAll(vs, fs)
    ensures forall i :: 0 <= i < |fs| ==> vs[i] == Zero(fs[i].ty)
  {
    seq(|fs|, i requires 0 <= i < |fs| => Zero(fs[i].ty))
  }

  /** Kinds on which Go's `IsNil` may be asked. */
  predicate Nillable(ty: Ty) {
    ty.TPtr? || ty.TList? || ty.TOctets?
  }

  /** A member the encoder skips. */
  predicate Absent(v: Val, f: Field) {
    f.params.optional && v.Nil?
  }

  predicate DistinctTags(fs: seq<Field>) {
    && (forall i :: 0 <= i < |fs| ==> fs[i].params.tag.Some?)
    && (forall i, j :: 0 <= i < j < |fs| ==> fs[i].params.tag != fs[j].params.tag)
  }

  predicate EndsInChoice(ty: Ty) {
    match ty
    case TPtr(t) => EndsInChoice(t)
    case TList(t) => EndsInChoice(t)
    case TChoice(_) => true
    case _ => false
  }

  /** Schemas as the record types declare them: every member tagged, tags distinct, OPTIONAL only on
      pointers and slices. */
  predicate WellFormed(ty: Ty, p: Params)
    decreases ty
  {
    && (p.tag.Some? ==> p.tag.value < TWO_63)
    && p.stringType < TWO_63
    && match ty
       case TPtr(t) => WellFormed(t, p)
       case TList(t) => WellFormed(t, p.(tag := None))
       case TStruct(fs) =>
         && DistinctTags(fs)
         && forall i :: 0 <= i < |fs| ==>
              WellFormed(fs[i].ty, fs[i].params) && (fs[i].params.optional ==> Nillable(fs[i].ty))
       case TChoice(fs) =>
         DistinctTags(fs) && forall i :: 0 <= i < |fs| ==> WellFormed(fs[i].ty, fs[i].params)
       case _ => true
  }
}
