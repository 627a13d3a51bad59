/** `ParseField`: the octets of a type, read into a destination value. */
module BerUnmarshal {
  import opened Octets
  import opened BerSchema
  import opened BerHeader
  import BerInteger

  /** The first field at or after `from` that carries the tag. Reaching an untagged field first is a nil
      dereference in the source, running out of fields an error. */
  function FindField(fs: seq<Field>, from: nat, tag: nat): (r: Outcome<nat>)
    ensures r.Ok? ==> from <= r.value < |fs| && fs[r.value].params.tag == Some(tag)
    decreases |fs| - from
  {
    if from >= |fs| then Fail(Error)
    else if fs[from].params.tag.None? then Fail(Panic)
    else if fs[from].params.tag.value == tag then Ok(from)
    else FindField(fs, from + 1, tag)
  }

  /** The first arm that carries the tag; untagged arms are skipped. */
  function FindArm(fs: seq<Field>, from: nat, tag: nat): (r: Outcome<nat>)
    ensures r.Ok? ==> from <= r.value < |fs| && fs[r.value].params.tag == Some(tag)
    decreases |fs| - from
  {
    if from >= |fs| then Fail(Error)
    else if fs[from].params.tag == Some(tag) then Ok(from)
    else FindArm(fs, from + 1, tag)
  }

  /** No field before the index has the tag, and every one of them has some tag. */
  predicate Passed(fs: seq<Field>, from: nat, k: nat, tag: nat)
    requires k <= |fs|
  {
    forall j :: from <= j < k ==> fs[j].params.tag.Some? && fs[j].params.tag.value != tag
  }

  /** How a search ends: at the first field with the tag, in a panic at an untagged field before it, or in an error. */
  lemma {:induction false} FindFieldExactly(fs: seq<Field>, from: nat, tag: nat)
    ensures FindField(fs, from, tag) == Fail(Error) <==> Passed(fs, from, |fs|, tag)
    ensures forall k: nat :: FindField(fs, from, tag) == Ok(k) <==>
              from <= k < |fs| && fs[k].params.tag == Some(tag) && Passed(fs, from, k, tag)
    ensures FindField(fs, from, tag) == Fail(Panic) <==>
              exists k: nat :: from <= k < |fs| && fs[k].params.tag.None? && Passed(fs, from, k, tag)
    decreases |fs| - from
  {
    if from < |fs| {
      if fs[from].params.tag.Some? && fs[from].params.tag.value != tag {
        FindFieldExactly(fs, from + 1, tag);
        assert forall k: nat :: from < k <= |fs| ==> (Passed(fs, from, k, tag) <==> Passed(fs, from + 1, k, tag));
      } else {
        assert Passed(fs, from, from, tag);
      }
    }
  }

  /** No arm before the index has the tag. */
  predicate Skipped(fs: seq<Field>, from: nat, k: nat, tag: nat)
    requires k <= |fs|
  {
    forall j :: from <= j < k ==> fs[j].params.tag != Some(tag)
  }

  /** How a search of the arms ends: at the first arm with the tag, or in an error. */
  lemma {:induction false} FindArmExactly(fs: seq<Field>, from: nat, tag: nat)
    ensures FindArm(fs, from, tag) == Fail(Error) <==> Skipped(fs, from, |fs|, tag)
    ensures forall k: nat :: FindArm(fs, from, tag) == Ok(k) <==>
              from <= k < |fs| && fs[k].params.tag == Some(tag) && Skipped(fs, from, k, tag)
    decreases |fs| - from
  {
    if from < |fs| {
      if fs[from].params.tag != Some(tag) {
        FindArmExactly(fs, from + 1, tag);
        assert forall k: nat :: from < k <= |fs| ==> (Skipped(fs, from, k, tag) <==> Skipped(fs, from + 1, k, tag));
      } else {
        assert Skipped(fs, from, from, tag);
      }
    }
  }

  /** `parseBitString`: the first octet is subtracted from the bit count, in uint64 arithmetic. */
  function ParseBits(s: octets): (r: Outcome<Val>)
    ensures r.Ok? ==> Typed(r.value, TBits)
  {
    if s == [] then Fail(Panic) else Ok(VBits(s[1..], ((|s| - 1) * 8 - s[0]) % TWO_64))
  }

  /** The header at an offset and the end of the value it announces, if that lies within the octets. */
  function Element(bytes: octets, offset: nat): (r: Outcome<(nat, nat)>)
    requires offset < |bytes|
    ensures r.Ok? ==> offset + 2 <= r.value.1 <= |bytes|
  {
    match ParseHeader(bytes[offset..])
    case Malformed(how) => Fail(how)
    case Parsed(h, size) =>
      var next := offset + size + h.len;
      if next > |bytes| then Fail(Error) else Ok((h.tag, next))
  }

  /** Reads `bytes` as a value of type `ty` into the destination `dst`. */
  function ParseField(ty: Ty, dst: Val, bytes: octets, p: Params): (r: Outcome<Val>)
    requires Typed(dst, ty)
    ensures r.Ok? ==> Typed(r.value, ty)
    decreases ty, 1, 0
  {
    if ty.TPtr? then
      match ParseField(ty.elem, Zero(ty.elem), bytes, p)
      case Fail(how) => Fail(how)
      case Ok(x) => Ok(Ref(x))
    else
      match ParseHeader(bytes)
      case Malformed(how) => Fail(how)
      case Parsed(h, off) =>
        if off + h.len > |bytes| then Fail(Error)
        else
          match ty
          case TBits => ParseBits(bytes[off..])
          case TOctets => Ok(VOctets(bytes[off..]))
          case TEnum => ParseIntVal(bytes[off..])
          case TInt => ParseIntVal(bytes[off..])
          case TBool => if off == |bytes| then Fail(Panic) else Ok(VBool(bytes[off] != 0))
          case TStr => Ok(VStr(bytes[off..]))
          case TStruct(fs) =>
            if fs == [] then Fail(Panic)
            else
              (match if p.isSet then SetLoop(ty, dst.members, bytes, off) else SeqLoop(ty, dst.members, bytes, off, 0)
               case Fail(how) => Fail(how)
               case Ok(ms) => Ok(VStruct(ms)))
          case TList(_) =>
            (match Split(bytes, off)
             case Fail(how) => Fail(how)
             case Ok(items) =>
               match ParseItems(ty, items, p)
               case Fail(how) => Fail(how)
               case Ok(vs) => Ok(VList(vs)))
          case TChoice(fs) =>
            // an embedded choice reads a second header, and then starts the arm at that header's size
            if p.tag.None? then ParseArm(ty, dst, bytes, h.tag, 0)
            else
              match ParseHeader(bytes[off..])
              case Malformed(how) => Fail(how)
              case Parsed(h2, off2) =>
                if off2 + h2.len > |bytes| then Fail(Error) else ParseArm(ty, dst, bytes, h2.tag, off2)
  }

  function ParseIntVal(s: octets): (r: Outcome<Val>)
    ensures r.Ok? ==> r.value.VInt? && IsInt64(r.value.i)
  {
    match BerInteger.IntValue(s)
    case None => Fail(Error)
    case Some(i) => Ok(VInt(i))
  }

  function ParseArm(ty: Ty, dst: Val, bytes: octets, tag: nat, offset: nat): (r: Outcome<Val>)
    requires ty.TChoice? && Typed(dst, ty) && offset <= |bytes|
    ensures r.Ok? ==> Typed(r.value, ty)
    decreases ty, 0, 0
  {
    match FindArm(ty.arms, 0, tag)
    case Fail(how) => Fail(how)
    case Ok(k) =>
      match ParseField(ty.arms[k].ty, dst.choices[k], bytes[offset..], ty.arms[k].params)
      case Fail(how) => Fail(how)
      case Ok(x) => Ok(VChoice(k + 1, dst.choices[k := x]))
  }

  /** The SEQUENCE loop: members are matched against the fields in order. */
  function SeqLoop(ty: Ty, ms: seq<Val>, bytes: octets, offset: nat, current: nat): (r: Outcome<seq<Val>>)
    requires ty.TStruct? && TypedAll(ms, ty.fields)
    ensures r.Ok? ==> TypedAll(r.value, ty.fields)
    decreases ty, 0, |bytes| - offset
  {
    if offset >= |bytes| then Ok(ms)
    else
      match Element(bytes, offset)
      case Fail(how) => Fail(how)
      case Ok((tag, next)) =>
        match FindField(ty.fields, current, tag)
        case Fail(how) => Fail(how)
        case Ok(k) =>
          match ParseField(ty.fields[k].ty, ms[k], bytes[offset..next], ty.fields[k].params)
          case Fail(how) => Fail(how)
          case Ok(x) => SeqLoop(ty, ms[k := x], bytes, next, k + 1)
  }

  /** The SET loop: every member is matched against all the fields. */
  function SetLoop(ty: Ty, ms: seq<Val>, bytes: octets, offset: nat): (r: Outcome<seq<Val>>)
    requires ty.TStruct? && TypedAll(ms, ty.fields)
    ensures r.Ok? ==> TypedAll(r.value, ty.fields)
    decreases ty, 0, |bytes| - offset
  {
    if offset >= |bytes| then Ok(ms)
    else
      match Element(bytes, offset)
      case Fail(how) => Fail(how)
      case Ok((tag, next)) =>
        match FindField(ty.fields, 0, tag)
        case Fail(how) => Fail(how)
        case Ok(k) =>
          match ParseField(ty.fields[k].ty, ms[k], bytes[offset..next], ty.fields[k].params)
          case Fail(how) => Fail(how)
          case Ok(x) => SetLoop(ty, ms[k := x], bytes, next)
  }

  /** The slice loop's first half: cut the contents into elements. */
  function Split(bytes: octets, offset: nat): (r: Outcome<seq<octets>>)
    decreases |bytes| - offset
  {
    if offset >= |bytes| then Ok([])
    else
      match Element(bytes, offset)
      case Fail(how) => Fail(how)
      case Ok((_, next)) =>
        match Split(bytes, next)
        case Fail(how) => Fail(how)
        case Ok(rest) => Ok([bytes[offset..next]] + rest)
  }

  function ParseItems(ty: Ty, items: seq<octets>, p: Params): (r: Outcome<seq<Val>>)
    requires ty.TList?
    ensures r.Ok? ==> |r.value| == |items| && forall i :: 0 <= i < |items| ==> Typed(r.value[i], ty.elem)
    decreases ty, 0, |items|
  {
    if items == [] then Ok([])
    else
      match ParseField(ty.elem, Zero(ty.elem), items[0], p)
      case Fail(how) => Fail(how)
      case Ok(x) =>
        match ParseItems(ty, items[1..], p)
        case Fail(how) => Fail(how)
        case Ok(xs) => Ok([x] + xs)
  }

  // ---------------------------------------------------------------- the loops, as cursors over the octets

  /** The source's search for a field: advance `current` until the tag matches. */
  method Search(fs: seq<Field>, from: nat, tag: nat) returns (r: Outcome<nat>)
    ensures r == FindField(fs, from, tag)
  {
    var current := from;
    while current < |fs|
      invariant FindField(fs, from, tag) == FindField(fs, current, tag)
    {
      if fs[current].params.tag.None? {
        return Fail(Panic);
      }
      if fs[current].params.tag.value == tag {
        return Ok(current);
      }
      current := current + 1;
    }
    return Fail(Error);
  }

  method SearchArm(fs: seq<Field>, tag: nat) returns (r: Outcome<nat>)
    ensures r == FindArm(fs, 0, tag)
  {
    for i := 0 to |fs|
      invariant FindArm(fs, 0, tag) == FindArm(fs, i, tag)
    {
      if fs[i].params.tag == Some(tag) {
        return Ok(i);
      }
    }
    return Fail(Error);
  }

  /** Reads the header at a cursor and checks that its value ends within the octets. */
  method NextElement(bytes: octets, offset: nat) returns (r: Outcome<(nat, nat)>)
    requires offset < |bytes|
    ensures r == Element(bytes, offset)
  {
    var tal := ParseTagAndLength(bytes[offset..]);
    if tal.Malformed? {
      return Fail(tal.how);
    }
    var next := offset + tal.size + tal.header.len;
    if next > |bytes| {
      return Fail(Error);
    }
    return Ok((tal.header.tag, next));
  }

  /** `ParseField` as the source runs it: one header, then a loop over the contents for structs and slices. */
  method Parse(ty: Ty, dst: Val, bytes: octets, p: Params) returns (r: Outcome<Val>)
    requires Typed(dst, ty)
    ensures r == ParseField(ty, dst, bytes, p)
    decreases ty, 1
  {
    if ty.TPtr? {
      var x := Parse(ty.elem, Zero(ty.elem), bytes, p);
      return if x.Fail? then Fail(x.how) else Ok(Ref(x.value));
    }
    var tal := ParseTagAndLength(bytes);
    if tal.Malformed? {
      return Fail(tal.how);
    }
    if tal.size + tal.header.len > |bytes| {
      return Fail(Error);
    }
    var off := tal.size;
    match ty
    case TBits => r := ParseBits(bytes[off..]);
    case TOctets => r := Ok(VOctets(bytes[off..]));
    case TEnum =>
      var i := BerInteger.ParseInt64(bytes[off..]);
      r := if i.None? then Fail(Error) else Ok(VInt(i.value));
    case TInt =>
      var i := BerInteger.ParseInt64(bytes[off..]);
      r := if i.None? then Fail(Error) else Ok(VInt(i.value));
    case TBool => r := if off == |bytes| then Fail(Panic) else Ok(VBool(bytes[off] != 0));
    case TStr => r := Ok(VStr(bytes[off..]));
    case TStruct(fs) =>
      if fs == [] {
        return Fail(Panic);
      }
      var ms: Outcome<seq<Val>>;
      if p.isSet {
        ms := ParseSet(ty, dst.members, bytes, off);
      } else {
        ms := ParseSequence(ty, dst.members, bytes, off);
      }
      r := if ms.Fail? then Fail(ms.how) else Ok(VStruct(ms.value));
    case TList(_) => r := ParseSlice(ty, bytes, off, p);
    case TChoice(_) =>
      var offset, tag := 0, tal.header.tag;
      if p.tag.Some? {
        var inner := ParseTagAndLength(bytes[off..]);
        if inner.Malformed? {
          return Fail(inner.how);
        }
        if inner.size + inner.header.len > |bytes| {
          return Fail(Error);
        }
        tag, offset := inner.header.tag, inner.size;
      }
      r := ParseChosen(ty, dst, bytes, tag, offset);
  }

  method ParseChosen(ty: Ty, dst: Val, bytes: octets, tag: nat, offset: nat) returns (r: Outcome<Val>)
    requires ty.TChoice? && Typed(dst, ty) && offset <= |bytes|
    ensures r == ParseArm(ty, dst, bytes, tag, offset)
    decreases ty, 0
  {
    var k := SearchArm(ty.arms, tag);
    if k.Fail? {
      return Fail(k.how);
    }
    var f := ty.arms[k.value];
    var x := Parse(f.ty, dst.choices[k.value], bytes[offset..], f.params);
    return if x.Fail? then Fail(x.how) else Ok(VChoice(k.value + 1, dst.choices[k.value := x.value]));
  }

  method ParseSequence(ty: Ty, dst: seq<Val>, bytes: octets, start: nat) returns (r: Outcome<seq<Val>>)
    requires ty.TStruct? && TypedAll(dst, ty.fields)
    ensures r == SeqLoop(ty, dst, bytes, start, 0)
    decreases ty, 0
  {
    hide ParseField, Typed, Element, FindField;
    var ms, offset, current := dst, start, 0;
    while offset < |bytes|
      invariant TypedAll(ms, ty.fields)
      invariant SeqLoop(ty, dst, bytes, start, 0) == SeqLoop(ty, ms, bytes, offset, current)
    {
      var el := NextElement(bytes, offset);
      if el.Fail? {
        return Fail(el.how);
      }
      var k := Search(ty.fields, current, el.value.0);
      if k.Fail? {
        return Fail(k.how);
      }
      var f, next := ty.fields[k.value], el.value.1;
      var x := Parse(f.ty, ms[k.value], bytes[offset..next], f.params);
      if x.Fail? {
        return Fail(x.how);
      }
      ms, offset, current := ms[k.value := x.value], next, k.value + 1;
    }
    return Ok(ms);
  }

  method ParseSet(ty: Ty, dst: seq<Val>, bytes: octets, start: nat) returns (r: Outcome<seq<Val>>)
    requires ty.TStruct? && TypedAll(dst, ty.fields)
    ensures r == SetLoop(ty, dst, bytes, start)
    decreases ty, 0
  {
    hide ParseField, Typed, Element, FindField;
    var ms, offset := dst, start;
    while offset < |bytes|
      invariant TypedAll(ms, ty.fields)
      invariant SetLoop(ty, dst, bytes, start) == SetLoop(ty, ms, bytes, offset)
    {
      var el := NextElement(bytes, offset);
      if el.Fail? {
        return Fail(el.how);
      }
      var k := Search(ty.fields, 0, el.value.0);
      if k.Fail? {
        return Fail(k.how);
      }
      var f, next := ty.fields[k.value], el.value.1;
      var x := Parse(f.ty, ms[k.value], bytes[offset..next], f.params);
      if x.Fail? {
        return Fail(x.how);
      }
      ms, offset := ms[k.value := x.value], next;
    }
    return Ok(ms);
  }

  method SplitItems(bytes: octets, start: nat) returns (r: Outcome<seq<octets>>)
    ensures r == Split(bytes, start)
  {
    hide Element;
    var items, offset := [], start;
    ghost var all := Split(bytes, start);
    assert all.Ok? ==> items + all.value == all.value;
    while offset < |bytes|
      invariant Split(bytes, start) ==
                  var rest := Split(bytes, offset); if rest.Fail? then Fail(rest.how) else Ok(items + rest.value)
    {
      var el := NextElement(bytes, offset);
      if el.Fail? {
        return Fail(el.how);
      }
      ghost var rest := Split(bytes, el.value.1);
      assert rest.Ok? ==> items + ([bytes[offset..el.value.1]] + rest.value) == items + [bytes[offset..el.value.1]] + rest.value;
      items, offset := items + [bytes[offset..el.value.1]], el.value.1;
    }
    assert items + [] == items;
    return Ok(items);
  }

  /** The slice loops: cut first, then parse every element with the list's own parameters. */
  method ParseSlice(ty: Ty, bytes: octets, start: nat, p: Params) returns (r: Outcome<Val>)
    requires ty.TList?
    ensures r == var items := Split(bytes, start);
                 if items.Fail? then Fail(items.how)
                 else
                   var vs := ParseItems(ty, items.value, p);
                   if vs.Fail? then Fail(vs.how) else Ok(VList(vs.value))
    decreases ty, 0
  {
    hide ParseField, Typed, Split;
    var items := SplitItems(bytes, start);
    if items.Fail? {
      return Fail(items.how);
    }
    var vs: seq<Val> := [];
    ghost var all := ParseItems(ty, items.value, p);
    assert items.value[0..] == items.value;
    assert all.Ok? ==> vs + all.value == all.value;
    for i := 0 to |items.value|
      invariant |vs| == i
      invariant ParseItems(ty, items.value, p) ==
                  var rest := ParseItems(ty, items.value[i..], p); if rest.Fail? then Fail(rest.how) else Ok(vs + rest.value)
    {
      var x := Parse(ty.elem, Zero(ty.elem), items.value[i], p);
      assert items.value[i..][1..] == items.value[i + 1..];
      if x.Fail? {
        return Fail(x.how);
      }
      ghost var rest := ParseItems(ty, items.value[i + 1..], p);
      assert rest.Ok? ==> vs + ([x.value] + rest.value) == vs + [x.value] + rest.value;
      vs := vs + [x.value];
    }
    assert vs + [] == vs;
    return Ok(VList(vs));
  }
}
