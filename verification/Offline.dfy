/** The webconsole's offline charging: one pass sums the flows of each slice while it lists the records, a second pass
    completes the records of whole slices. */
module Offline {
  import opened Octets

  datatype Method = Offline(unitCost: int) | Online

  /** A rating group's usage with the charging data found for it: a filter makes it a flow, none a whole slice. */
  datatype Entry = Entry(supi: string, snssai: string, filter: string, totalVol: int, others: seq<int>, charging: Method)

  /** A charging record; `others` are its uplink and downlink volumes and the quota left. */
  datatype Record = Record(supi: string, snssai: string, filter: string, totalVol: int, others: seq<int>, usage: int)

  /** What is summed for a subscriber's slice. */
  datatype Slice = Slice(unitCost: int, flowVol: int, flowUsage: int)

  function Key(supi: string, snssai: string): string { supi + snssai }

  function KeyOf(e: Entry): string { Key(e.supi, e.snssai) }

  predicate IsFlow(e: Entry, key: string) { e.charging.Offline? && e.filter != "" && KeyOf(e) == key }

  predicate IsSlice(e: Entry, key: string) { e.charging.Offline? && e.filter == "" && KeyOf(e) == key }

  // ---- What a slice is charged, independent of any order ----

  function FlowVol(es: seq<Entry>, key: string): int {
    if es == [] then 0 else FlowVol(es[..|es| - 1], key) + FlowVolOf(es[|es| - 1], key)
  }

  function FlowVolOf(e: Entry, key: string): int { if IsFlow(e, key) then e.totalVol else 0 }

  function FlowUsage(es: seq<Entry>, key: string): int {
    if es == [] then 0 else FlowUsage(es[..|es| - 1], key) + FlowUsageOf(es[|es| - 1], key)
  }

  function FlowUsageOf(e: Entry, key: string): int { if IsFlow(e, key) then e.totalVol * e.charging.unitCost else 0 }

  /** The unit cost of the last whole-slice entry. */
  function SliceCost(es: seq<Entry>, key: string): int {
    if es == [] then 0
    else if IsSlice(es[|es| - 1], key) then es[|es| - 1].charging.unitCost
    else SliceCost(es[..|es| - 1], key)
  }

  predicate Charged(es: seq<Entry>, key: string) {
    exists n :: 0 <= n < |es| && es[n].charging.Offline? && KeyOf(es[n]) == key
  }

  /** Flows cost their volume at their own price; a slice costs the price of its flows, and the volume outside them at
      the slice's price. Amounts wrap as an int64. */
  function Bill(e: Entry, es: seq<Entry>): (r: int) {
    if e.filter != "" then (if e.charging.Offline? then WrapInt64(e.totalVol * e.charging.unitCost) else 0)
    else if Charged(es, KeyOf(e)) then
      WrapInt64(FlowUsage(es, KeyOf(e)) + (e.totalVol - FlowVol(es, KeyOf(e))) * SliceCost(es, KeyOf(e)))
    else 0
  }

  function Billed(e: Entry, es: seq<Entry>): Record {
    Record(e.supi, e.snssai, e.filter, e.totalVol, e.others, Bill(e, es))
  }

  // ---- The bill, entry by entry ----

  /** An entry of the same subscriber and slice, charged offline. */
  predicate SameSlice(f: Entry, e: Entry) { f.charging.Offline? && f.supi + f.snssai == e.supi + e.snssai }

  /** What the flows cost on top of the slice's price for their volume. */
  function Surcharges(es: seq<Entry>, e: Entry, price: int): int {
    if es == [] then 0
    else
      (if SameSlice(es[0], e) && es[0].filter != "" then es[0].totalVol * (es[0].charging.unitCost - price) else 0)
      + Surcharges(es[1..], e, price)
  }

  lemma {:induction false} SurchargesLast(es: seq<Entry>, f: Entry, e: Entry, price: int)
    ensures Surcharges(es + [f], e, price)
            == Surcharges(es, e, price)
               + if SameSlice(f, e) && f.filter != "" then f.totalVol * (f.charging.unitCost - price) else 0
  {
    if es == [] {
      assert [] + [f] == [f];
    } else {
      SurchargesLast(es[1..], f, e, price);
      assert (es + [f])[1..] == es[1..] + [f];
    }
  }

  lemma {:induction false} Distributes(x: int, y: int, price: int)
    ensures (x + y) * price == x * price + y * price
  {
  }

  lemma {:induction false} FlowIs(f: Entry, e: Entry, price: int)
    ensures FlowUsageOf(f, KeyOf(e)) - FlowVolOf(f, KeyOf(e)) * price
            == if SameSlice(f, e) && f.filter != "" then f.totalVol * (f.charging.unitCost - price) else 0
  {
    if SameSlice(f, e) && f.filter != "" {
      assert f.totalVol * (f.charging.unitCost - price) == f.totalVol * f.charging.unitCost - f.totalVol * price;
    }
  }

  lemma {:induction false} FlowsAre(es: seq<Entry>, e: Entry, price: int)
    ensures FlowUsage(es, KeyOf(e)) - FlowVol(es, KeyOf(e)) * price == Surcharges(es, e, price)
  {
    if es != [] {
      var before, f := es[..|es| - 1], es[|es| - 1];
      FlowsAre(before, e, price);
      assert es == before + [f];
      SurchargesLast(before, f, e, price);
      Distributes(FlowVol(before, KeyOf(e)), FlowVolOf(f, KeyOf(e)), price);
      FlowIs(f, e, price);
      hide Surcharges, FlowVolOf, FlowUsageOf, SameSlice;
    }
  }

  lemma {:induction false} LastPrice(es: seq<Entry>, e: Entry, n: nat)
    requires n < |es| && SameSlice(es[n], e) && es[n].filter == ""
    requires forall m :: n < m < |es| ==> !(SameSlice(es[m], e) && es[m].filter == "")
    ensures SliceCost(es, KeyOf(e)) == es[n].charging.unitCost
  {
    if n < |es| - 1 {
      LastPrice(es[..|es| - 1], e, n);
    }
  }

  /** A whole slice is billed its volume at its price, the last one listed for it, and every flow of it by what the flow
      costs more or less than that. */
  lemma {:induction false} BillExactly(e: Entry, es: seq<Entry>, n: nat)
    requires e.filter == "" && n < |es| && SameSlice(es[n], e) && es[n].filter == ""
    requires forall m :: n < m < |es| ==> !(SameSlice(es[m], e) && es[m].filter == "")
    ensures var price := es[n].charging.unitCost;
            Bill(e, es) == WrapInt64(e.totalVol * price + Surcharges(es, e, price))
  {
    hide WrapInt64, FlowUsage, FlowVol, Surcharges, SliceCost;
    LastPrice(es, e, n);
    var price, vol := es[n].charging.unitCost, FlowVol(es, KeyOf(e));
    FlowsAre(es, e, price);
    assert Charged(es, KeyOf(e));
    assert (e.totalVol - vol) * price == e.totalVol * price - vol * price;
  }

  /** Without a price of its own a slice is billed its flows. */
  lemma {:induction false} BillUnpriced(e: Entry, es: seq<Entry>)
    requires e.filter == "" && forall m :: 0 <= m < |es| ==> !(SameSlice(es[m], e) && es[m].filter == "")
    ensures Bill(e, es) == WrapInt64(Surcharges(es, e, 0))
  {
    hide WrapInt64, FlowUsage, FlowVol, Surcharges, SliceCost;
    FlowsAre(es, e, 0);
    CostAbsent(es, KeyOf(e));
    if !Charged(es, KeyOf(e)) {
      NeverCharged(es, KeyOf(e));
      WrapSum(0, 0);
    }
  }

  // ---- Records between the passes: every number is a float64, written and read as JSON text ----

  const TWO_53: int := 0x20_0000_0000_0000
  const TWO_54: int := 0x40_0000_0000_0000

  predicate Within(x: int, bound: int) { -bound <= x <= bound }

  /** What float64 and its shortest decimal text do to integers beyond 2^54: the float nearest to an integer, and the
      int64 read from a float's text, if there is one. */
  datatype Json = Json(far: int -> int, read: int -> Option<int>)

  /** The float64 nearest to an integer: exact up to 2^53, a multiple of two up to 2^54, with ties to the even half. */
  function Float(x: int, j: Json): int {
    if Within(x, TWO_53) then x
    else if Within(x, TWO_54) then (if x % 2 == 0 then x else if x % 4 == 1 then x - 1 else x + 1)
    else j.far(x)
  }

  /** The int64 read from the JSON text of a float64. */
  function Read(f: int, j: Json): Option<int> { if Within(f, TWO_54) then Some(f) else j.read(f) }

  function Floats(xs: seq<int>, j: Json): seq<int> { seq(|xs|, i requires 0 <= i < |xs| => Float(xs[i], j)) }

  predicate Readable(fs: seq<int>, j: Json) { forall i :: 0 <= i < |fs| ==> Read(fs[i], j).Some? }

  function Reads(fs: seq<int>, j: Json): seq<int>
    requires Readable(fs, j)
  {
    seq(|fs|, i requires 0 <= i < |fs| => Read(fs[i], j).value)
  }

  /** `toBsonM`. */
  function Bson(r: Record, j: Json): Record {
    r.(totalVol := Float(r.totalVol, j), others := Floats(r.others, j), usage := Float(r.usage, j))
  }

  /** The record that the second pass reads, unless one of its numbers overflows. */
  function Unmarshalled(r: Record, j: Json): Option<Record> {
    if Readable([r.totalVol, r.usage] + r.others, j) then
      RestReadable(r, j);
      Some(r.(totalVol := Read(r.totalVol, j).value, others := Reads(r.others, j), usage := Read(r.usage, j).value))
    else None
  }

  lemma {:induction false} RestReadable(r: Record, j: Json)
    ensures Readable([r.totalVol, r.usage] + r.others, j) <==>
            Read(r.totalVol, j).Some? && Read(r.usage, j).Some? && Readable(r.others, j)
  {
    var fs := [r.totalVol, r.usage] + r.others;
    assert fs[0] == r.totalVol && fs[1] == r.usage;
    assert forall i :: 0 <= i < |r.others| ==> fs[i + 2] == r.others[i];
  }

  /** What the two passes make of an entry: a whole slice's volume is the one read back. */
  function Settled(e: Entry, es: seq<Entry>, j: Json): Record {
    var listed := Listed(e, j);
    var read := Unmarshalled(listed, j);
    if e.filter != "" || !Charged(es, KeyOf(e)) || read.None? then listed
    else
      var r := read.value;
      Bson(r.(usage := WrapInt64(r.usage + FlowUsage(es, KeyOf(e))
                                 + (r.totalVol - FlowVol(es, KeyOf(e))) * SliceCost(es, KeyOf(e)))), j)
  }

  /** A float64 is its own nearest float64, and rounding does not leave the range. */
  lemma {:induction false} FloatTwice(x: int, j: Json)
    requires Within(x, TWO_54)
    ensures Within(Float(x, j), TWO_54) && Float(Float(x, j), j) == Float(x, j)
  {
  }

  /** The numbers that come back from a record once it is a map of floats. */
  lemma {:induction false} ListedRead(e: Entry, j: Json)
    requires Within(e.totalVol, TWO_54) && (forall i :: 0 <= i < |e.others| ==> Within(e.others[i], TWO_54))
    requires e.filter == ""
    ensures Listed(e, j) == Record(e.supi, e.snssai, e.filter, Float(e.totalVol, j), Floats(e.others, j), 0)
    ensures Unmarshalled(Listed(e, j), j) == Some(Listed(e, j))
    ensures Bson(Listed(e, j), j) == Listed(e, j)
  {
    hide Float;
    var r := Listed(e, j);
    ZeroSmall(j);
    FloatTwice(e.totalVol, j);
    forall i | 0 <= i < |e.others|
      ensures Within(r.others[i], TWO_54) && Float(r.others[i], j) == r.others[i]
    {
      FloatTwice(e.others[i], j);
    }
    RestReadable(r, j);
    assert Reads(r.others, j) == r.others && Floats(r.others, j) == r.others;
  }

  /** The record is the bill exactly when a float64 holds the volumes and the bill; numbers up to 2^53 it always holds. */
  lemma {:induction false} SettledExactly(e: Entry, es: seq<Entry>, j: Json)
    requires Within(e.totalVol, TWO_54) && forall i :: 0 <= i < |e.others| ==> Within(e.others[i], TWO_54)
    ensures Settled(e, es, j) == Billed(e, es) <==>
            Float(e.totalVol, j) == e.totalVol && Floats(e.others, j) == e.others && Float(Bill(e, es), j) == Bill(e, es)
    ensures Float(e.totalVol, j) == e.totalVol && Floats(e.others, j) == e.others ==>
              Settled(e, es, j) == Billed(e, es).(usage := Float(Bill(e, es), j))
  {
    hide WrapInt64, FlowUsage, FlowVol, SliceCost, Charged, Float, Floats, Unmarshalled, Within;
    if e.filter == "" {
      ListedRead(e, j);
      ZeroSmall(j);
    }
  }

  lemma {:induction false} ZeroSmall(j: Json)
    ensures Float(0, j) == 0
  {
  }

  /** Volumes and a bill up to 2^53 are always exact. */
  lemma {:induction false} SettledSmall(e: Entry, es: seq<Entry>, j: Json)
    requires Within(e.totalVol, TWO_53) && forall i :: 0 <= i < |e.others| ==> Within(e.others[i], TWO_53)
    requires Within(Bill(e, es), TWO_53)
    ensures Settled(e, es, j) == Billed(e, es)
  {
    hide Settled, Billed, Bill;
    assert Floats(e.others, j) == e.others;
    SettledExactly(e, es, j);
  }

  /** A slice of 2^53 + 1 octets at one unit each is billed one unit short. */
  lemma {:induction false} BillRounded(supi: string, snssai: string, j: Json)
    ensures var e := Entry(supi, snssai, "", TWO_53 + 1, [], Offline(1));
            Bill(e, [e]) == TWO_53 + 1 && Settled(e, [e], j).usage == TWO_53
  {
    var e := Entry(supi, snssai, "", TWO_53 + 1, [], Offline(1));
    var es, key := [e], KeyOf(e);
    ChargedLast([], e, key);
    assert [] + [e] == es;
    assert Charged(es, key) && FlowUsage(es, key) == 0 && FlowVol(es, key) == 0 && SliceCost(es, key) == 1;
    hide FlowUsage, FlowVol, SliceCost, Charged;
    RestReadable(Listed(e, j), j);
  }

  lemma {:induction false} WrapSum(x: int, y: int)
    ensures WrapInt64(0) == 0
    ensures WrapInt64(WrapInt64(x) + y) == WrapInt64(x + y)
    ensures WrapInt64(WrapInt64(x) + WrapInt64(y)) == WrapInt64(x + y)
  {
    hide WrapInt64;
    WrapAbsorbs(x, 1, y);
    WrapAbsorbs(x, 1, WrapInt64(y));
    WrapAbsorbs(y, 1, x);
    assert WrapInt64(0) == 0;
    assert WrapInt64(y) * 1 + x == x * 1 + WrapInt64(y);
  }

  // ---- The two passes ----

  /** What the first pass has summed after `es`. */
  ghost predicate Sums(slices: map<string, Slice>, es: seq<Entry>) {
    && (forall key :: key in slices <==> Charged(es, key))
    && (forall key :: key in slices ==>
          slices[key] == Slice(SliceCost(es, key), WrapInt64(FlowVol(es, key)), WrapInt64(FlowUsage(es, key))))
  }

  function Listed(e: Entry, j: Json): Record {
    Bson(Record(e.supi, e.snssai, e.filter, e.totalVol, e.others,
                if e.charging.Offline? && e.filter != "" then WrapInt64(e.totalVol * e.charging.unitCost) else 0), j)
  }

  lemma {:induction false} ChargedLast(es: seq<Entry>, e: Entry, key: string)
    ensures Charged(es + [e], key) <==> Charged(es, key) || (e.charging.Offline? && KeyOf(e) == key)
    ensures FlowVol(es + [e], key) == FlowVol(es, key) + FlowVolOf(e, key)
    ensures FlowUsage(es + [e], key) == FlowUsage(es, key) + FlowUsageOf(e, key)
    ensures SliceCost(es + [e], key) == if IsSlice(e, key) then e.charging.unitCost else SliceCost(es, key)
  {
    var l := es + [e];
    assert l[..|es|] == es && l[|es|] == e;
    forall n | 0 <= n < |es| ensures l[n] == es[n] {
    }
    if Charged(es, key) {
      var n :| 0 <= n < |es| && es[n].charging.Offline? && KeyOf(es[n]) == key;
      assert l[n] == es[n];
    }
  }

  lemma {:induction false} NeverCharged(es: seq<Entry>, key: string)
    requires !Charged(es, key)
    ensures FlowVol(es, key) == 0 && FlowUsage(es, key) == 0 && SliceCost(es, key) == 0
  {
    if es != [] {
      var before := es[..|es| - 1];
      assert es == before + [es[|es| - 1]];
      ChargedLast(before, es[|es| - 1], key);
      NeverCharged(before, key);
    }
  }

  /** One entry's contribution to its slice. */
  method AddEntry(slices: map<string, Slice>, e: Entry, j: Json, ghost es: seq<Entry>)
    returns (more: map<string, Slice>, record: Record)
    requires Sums(slices, es)
    ensures Sums(more, es + [e]) && record == Listed(e, j)
  {
    hide SliceCost, FlowVol, FlowUsage, Charged, WrapInt64, Bson;
    more := slices;
    var usage := 0;
    forall key
      ensures Charged(es + [e], key) <==> Charged(es, key) || (e.charging.Offline? && KeyOf(e) == key)
      ensures FlowVol(es + [e], key) == FlowVol(es, key) + FlowVolOf(e, key)
      ensures FlowUsage(es + [e], key) == FlowUsage(es, key) + FlowUsageOf(e, key)
      ensures SliceCost(es + [e], key) == if IsSlice(e, key) then e.charging.unitCost else SliceCost(es, key)
    {
      ChargedLast(es, e, key);
    }
    if e.charging.Offline? {
      var key := Key(e.supi, e.snssai);
      var slice := if key in slices then slices[key] else Slice(0, 0, 0);
      if key !in slices {
        NeverCharged(es, key);
        WrapSum(0, 0);
      }
      if e.filter != "" {
        usage := WrapInt64(e.totalVol * e.charging.unitCost);
        WrapSum(FlowUsage(es, key), e.totalVol * e.charging.unitCost);
        WrapSum(FlowVol(es, key), e.totalVol);
        slice := slice.(flowUsage := WrapInt64(slice.flowUsage + usage),
                        flowVol := WrapInt64(slice.flowVol + e.totalVol));
      } else {
        slice := slice.(unitCost := e.charging.unitCost);
      }
      more := slices[key := slice];
    }
    record := Bson(Record(e.supi, e.snssai, e.filter, e.totalVol, e.others, usage), j);
  }

  /** The whole-slice records get the usage of their flows and of the rest of their own volume. */
  method Complete(slices: map<string, Slice>, record: Record, j: Json, ghost e: Entry, ghost es: seq<Entry>)
    returns (done: Record)
    requires Sums(slices, es) && record == Listed(e, j)
    ensures done == Settled(e, es, j)
  {
    hide FlowUsage, FlowVol, SliceCost, Charged, WrapInt64, Unmarshalled;
    done := record;
    var read := Unmarshalled(record, j);
    if read.Some? && record.filter == "" {
      UnmarshalledKeeps(record, j);
      var r := read.value;
      var key := Key(r.supi, r.snssai);
      if key in slices {
        var slice := slices[key];
        var usage := WrapInt64(r.usage + slice.flowUsage);
        usage := WrapInt64(usage + WrapInt64(WrapInt64(r.totalVol - slice.flowVol) * slice.unitCost));
        UsageWraps(r.usage, FlowUsage(es, key), r.totalVol, FlowVol(es, key), slice.unitCost);
        done := Bson(r.(usage := usage), j);
      }
    }
  }

  lemma {:induction false} UnmarshalledKeeps(r: Record, j: Json)
    requires Unmarshalled(r, j).Some?
    ensures var n := Unmarshalled(r, j).value; n.supi == r.supi && n.snssai == r.snssai && n.filter == r.filter
  {
  }

  lemma {:induction false} UsageWraps(start: int, flows: int, total: int, vol: int, cost: int)
    ensures var u := WrapInt64(start + WrapInt64(flows));
            WrapInt64(u + WrapInt64(WrapInt64(total - WrapInt64(vol)) * cost))
            == WrapInt64(start + flows + (total - vol) * cost)
  {
    hide WrapInt64;
    var rest := WrapInt64(total - WrapInt64(vol));
    WrapSum(flows, start);
    assert WrapInt64(flows) + start == start + WrapInt64(flows) && flows + start == start + flows;
    WrapAbsorbs(vol, -1, total);
    assert WrapInt64(vol) * -1 + total == total - WrapInt64(vol) && vol * -1 + total == total - vol;
    assert rest == WrapInt64(total - vol);
    WrapAbsorbs(total - vol, cost, 0);
    assert WrapInt64(rest * cost) == WrapInt64((total - vol) * cost);
    WrapSum(start + flows, (total - vol) * cost);
  }

  /** Offline charging, as it runs: the first pass in the order of the entries, the second over the records. */
  method ChargeAll(es: seq<Entry>, j: Json) returns (records: seq<Record>)
    ensures |records| == |es| && forall n :: 0 <= n < |es| ==> records[n] == Settled(es[n], es, j)
  {
    hide Sums, Listed, Settled;
    var slices: map<string, Slice> := map[];
    records := [];
    SumsNothing();
    for n := 0 to |es|
      invariant |records| == n && Sums(slices, es[..n])
      invariant forall m :: 0 <= m < n ==> records[m] == Listed(es[m], j)
    {
      assert es[..n + 1] == es[..n] + [es[n]];
      var record;
      slices, record := AddEntry(slices, es[n], j, es[..n]);
      records := records + [record];
    }
    assert es[..|es|] == es;
    for n := 0 to |es|
      invariant |records| == |es|
      invariant forall m :: 0 <= m < n ==> records[m] == Settled(es[m], es, j)
      invariant forall m :: n <= m < |es| ==> records[m] == Listed(es[m], j)
    {
      var done := Complete(slices, records[n], j, es[n], es);
      records := records[n := done];
    }
  }

  lemma {:induction false} SumsNothing()
    ensures Sums(map[], [])
  {
  }

  // ---- The order of the entries ----

  function Without(es: seq<Entry>, n: nat): seq<Entry>
    requires n < |es|
  {
    es[..n] + es[n + 1..]
  }

  /** All whole-slice entries of a slice agree on its price. In particular, there is at most one of them. */
  ghost predicate OnePrice(es: seq<Entry>, key: string) {
    forall e, e' :: e in es && e' in es && IsSlice(e, key) && IsSlice(e', key) ==>
      e.charging.unitCost == e'.charging.unitCost
  }

  lemma {:induction false} MultisetRest(es: seq<Entry>, l: seq<Entry>, es': seq<Entry>, l': seq<Entry>, e: Entry)
    requires multiset(es) == multiset(es') && es == l + [e] && multiset(es') == multiset(l') + multiset{e}
    ensures multiset(l) == multiset(l')
  {
    var m, m' := multiset(l), multiset(l');
    assert m + multiset{e} == m' + multiset{e};
    forall f ensures m[f] == m'[f] {
      assert (m + multiset{e})[f] == m[f] + multiset{e}[f];
      assert (m' + multiset{e})[f] == m'[f] + multiset{e}[f];
    }
  }

  lemma {:induction false} MultisetWithout(es: seq<Entry>, n: nat)
    requires n < |es|
    ensures multiset(es) == multiset(Without(es, n)) + multiset{es[n]}
  {
    assert es == es[..n] + [es[n]] + es[n + 1..];
  }

  lemma {:induction false} SumsWithout(es: seq<Entry>, n: nat, key: string)
    requires n < |es|
    ensures FlowVol(es, key) == FlowVol(Without(es, n), key) + FlowVolOf(es[n], key)
    ensures FlowUsage(es, key) == FlowUsage(Without(es, n), key) + FlowUsageOf(es[n], key)
  {
    hide FlowVol, FlowUsage, FlowVolOf, FlowUsageOf, Charged, SliceCost;
    var last := |es| - 1;
    var before := es[..last];
    assert es == before + [es[last]];
    ChargedLast(before, es[last], key);
    if n == last {
      assert Without(es, n) == before;
    } else {
      SumsWithout(before, n, key);
      assert Without(es, n) == Without(before, n) + [es[last]];
      ChargedLast(Without(before, n), es[last], key);
    }
  }

  /** The sums over the flows of a slice do not depend on the order of the entries. */
  lemma {:induction false} FlowsUnordered(es: seq<Entry>, es': seq<Entry>, key: string)
    requires multiset(es) == multiset(es')
    ensures FlowVol(es, key) == FlowVol(es', key) && FlowUsage(es, key) == FlowUsage(es', key)
    decreases |es|
  {
    hide FlowVol, FlowUsage, FlowVolOf, FlowUsageOf, Charged, SliceCost, Without;
    if es == [] {
      assert |multiset(es')| == 0;
      assert es' == es;
    } else {
      var before, e := es[..|es| - 1], es[|es| - 1];
      assert es == before + [e] && e in multiset(es');
      var n :| 0 <= n < |es'| && es'[n] == e;
      SumsWithout(es', n, key);
      MultisetWithout(es', n);
      ChargedLast(before, e, key);
      MultisetRest(es, before, es', Without(es', n), e);
      FlowsUnordered(before, Without(es', n), key);
    }
  }

  lemma {:induction false} CostAgreed(es: seq<Entry>, key: string, e: Entry)
    requires OnePrice(es, key) && e in es && IsSlice(e, key)
    ensures SliceCost(es, key) == e.charging.unitCost
  {
    var last := |es| - 1;
    var before := es[..last];
    assert es == before + [es[last]];
    if !IsSlice(es[last], key) {
      assert forall f :: f in before ==> f in es;
      CostAgreed(before, key, e);
    }
  }

  lemma {:induction false} CostAbsent(es: seq<Entry>, key: string)
    requires forall e :: e in es ==> !IsSlice(e, key)
    ensures SliceCost(es, key) == 0
  {
    if es != [] {
      CostAbsent(es[..|es| - 1], key);
    }
  }

  lemma {:induction false} ChargedUnordered(es: seq<Entry>, es': seq<Entry>, key: string)
    requires multiset(es) == multiset(es') && Charged(es, key)
    ensures Charged(es', key)
  {
    var n :| 0 <= n < |es| && es[n].charging.Offline? && KeyOf(es[n]) == key;
    assert es[n] in multiset(es');
    var m :| 0 <= m < |es'| && es'[m] == es[n];
  }

  lemma {:induction false} PriceAgreed(es: seq<Entry>, es': seq<Entry>, key: string)
    requires multiset(es) == multiset(es') && OnePrice(es, key)
    ensures SliceCost(es, key) == SliceCost(es', key)
  {
    hide IsSlice, SliceCost;
    assert forall f :: f in es <==> f in multiset(es);
    assert forall f :: f in es' <==> f in multiset(es');
    if f :| f in es && IsSlice(f, key) {
      CostAgreed(es, key, f);
      CostAgreed(es', key, f);
    } else {
      CostAbsent(es, key);
      CostAbsent(es', key);
    }
  }

  /** With one price per slice every order of the entries gives every entry the same bill and the same record. */
  lemma {:induction false} BillUnordered(e: Entry, es: seq<Entry>, es': seq<Entry>, j: Json)
    requires multiset(es) == multiset(es') && OnePrice(es, KeyOf(e))
    ensures Bill(e, es) == Bill(e, es') && Settled(e, es, j) == Settled(e, es', j)
  {
    hide Charged, SliceCost, FlowVol, FlowUsage, OnePrice, WrapInt64, Listed, Unmarshalled, Bson;
    var key := KeyOf(e);
    FlowsUnordered(es, es', key);
    PriceAgreed(es, es', key);
    if Charged(es, key) {
      ChargedUnordered(es, es', key);
    }
    if Charged(es', key) {
      ChargedUnordered(es', es, key);
    }
  }

  /** The price of a slice is the same in every order exactly when its whole-slice entries agree on it. */
  lemma {:induction false} PriceUnordered(es: seq<Entry>, key: string)
    ensures OnePrice(es, key) <==>
            forall es' :: multiset(es') == multiset(es) ==> SliceCost(es', key) == SliceCost(es, key)
  {
    if OnePrice(es, key) {
      forall es' | multiset(es') == multiset(es) ensures SliceCost(es', key) == SliceCost(es, key) {
        PriceAgreed(es, es', key);
      }
    } else {
      var e, e' :| e in es && e' in es && IsSlice(e, key) && IsSlice(e', key)
                   && e.charging.unitCost != e'.charging.unitCost;
      var l := PutLast(es, e);
      var l' := PutLast(es, e');
      assert SliceCost(l, key) != SliceCost(l', key);
    }
  }

  /** The same entries, with one of them last. */
  lemma {:induction false} PutLast(es: seq<Entry>, e: Entry) returns (l: seq<Entry>)
    requires e in es
    ensures multiset(l) == multiset(es) && l != [] && l[|l| - 1] == e
  {
    hide FlowVol, FlowUsage;
    var n :| 0 <= n < |es| && es[n] == e;
    MultisetWithout(es, n);
    l := Without(es, n) + [e];
  }

  /** With slice identifiers of one length, two subscribers' slices never share a key. */
  lemma {:induction false} KeysDiffer(supi: string, snssai: string, supi': string, snssai': string)
    requires |snssai| == |snssai'|
    ensures Key(supi, snssai) == Key(supi', snssai') <==> supi == supi' && snssai == snssai'
  {
    var k, k' := Key(supi, snssai), Key(supi', snssai');
    assert k[|supi|..] == snssai && k'[|supi'|..] == snssai';
    assert k[..|supi|] == supi && k'[..|supi'|] == supi';
  }
}
