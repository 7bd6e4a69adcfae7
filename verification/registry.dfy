/** promtorture's registry: the labels of a target, and the loop that sets every
    metric of every target. */
module Registry {
  import opened Wrappers

  import opened Decimal
  import opened MixedRadix
  import opened ParseTargets

  type Labels = seq<string>

  function PrintAll(t: seq<nat>): (r: Labels)
    ensures |r| == |t|
  {
    seq(|t|, i requires 0 <= i < |t| => Print(t[i]))
  }

  /** targetLabels */
  function TargetLabels(n: nat, rs: seq<nat>): (r: Labels)
    requires Radixes(rs)
    ensures |r| == |rs|
  {
    PrintAll(Digits(n, rs))
  }

  /** infoLabels: the target's labels and one value per extra label. */
  function InfoLabels(n: nat, rs: seq<nat>, extra: nat): (r: Labels)
    requires Radixes(rs)
    ensures |r| == |rs| + extra
  {
    TargetLabels(n, rs) + seq(extra, i requires 0 <= i < extra => "t_" + Print(n) + "_i_" + Print(i))
  }

  lemma PrintAllInjective(s: seq<nat>, t: seq<nat>)
    requires PrintAll(s) == PrintAll(t)
    ensures s == t
  {
    assert |PrintAll(s)| == |PrintAll(t)|;
    forall i | 0 <= i < |s| ensures s[i] == t[i] {
      assert PrintAll(s)[i] == PrintAll(t)[i];
      PrintInjective(s[i], t[i]);
    }
  }

  /** Each label is the plain decimal numeral of an index, and the index is the target
      number divided by the product of the counts before it, modulo its own count. */
  lemma LabelsSpellDigits(n: nat, rs: seq<nat>, i: nat)
    requires Radixes(rs) && i < |rs|
    ensures var text := TargetLabels(n, rs)[i];
            && text != [] && AllDigits(text) && (|text| > 1 ==> text[0] != '0')
            && Product(rs[..i]) >= 1 && Value(text) == n / Product(rs[..i]) % rs[i]
  {
    PrintExactly(Digits(n, rs)[i], TargetLabels(n, rs)[i]);
    DigitAt(n, rs, i);
  }

  /** Different targets have different label tuples. */
  lemma TargetLabelsInjective(m: nat, n: nat, rs: seq<nat>)
    requires Radixes(rs) && m < Product(rs) && n < Product(rs)
    requires TargetLabels(m, rs) == TargetLabels(n, rs)
    ensures m == n
  {
    PrintAllInjective(Digits(m, rs), Digits(n, rs));
    WeighDigits(m, rs);
    WeighDigits(n, rs);
  }

  lemma InfoLabelsInjective(m: nat, n: nat, rs: seq<nat>, extra: nat)
    requires Radixes(rs) && m < Product(rs) && n < Product(rs)
    requires InfoLabels(m, rs, extra) == InfoLabels(n, rs, extra)
    ensures m == n
  {
    assert InfoLabels(m, rs, extra)[..|rs|] == TargetLabels(m, rs);
    assert InfoLabels(n, rs, extra)[..|rs|] == TargetLabels(n, rs);
    TargetLabelsInjective(m, n, rs);
  }

  /** A prometheus.GaugeVec: one value per tuple of label values. */
  class GaugeVec {
    const labelNames: Labels
    var values: map<Labels, int>

    constructor (labelNames: Labels)
      ensures this.labelNames == labelNames && values == map[]
    {
      this.labelNames := labelNames;
      values := map[];
    }

    /** WithLabelValues(...).Set(...), which panics on a wrong number of labels. */
    method Set(labels: Labels, value: int)
      requires |labels| == |labelNames|
      modifies this
      ensures values == old(values)[labels := value]
    {
      values := values[labels := value];
    }
  }

  /** The vector holds exactly the first n targets, each under its own labels. */
  ghost predicate HoldsTargets(values: map<Labels, int>, n: nat, tuple: nat -> Labels, value: nat -> int) {
    && (forall k: nat :: k < n ==> tuple(k) in values && values[tuple(k)] == value(k))
    && (forall l :: l in values ==> exists k: nat :: k < n && l == tuple(k))
    && |values| == n
  }

  ghost function Number(): nat -> int {
    (k: nat) => k
  }

  ghost function One(): nat -> int {
    (k: nat) => 1
  }

  ghost function LabelOf(rs: seq<nat>): nat -> Labels
    requires Radixes(rs)
  {
    (k: nat) => TargetLabels(k, rs)
  }

  ghost function InfoLabelOf(rs: seq<nat>, extra: nat): nat -> Labels
    requires Radixes(rs)
  {
    (k: nat) => InfoLabels(k, rs, extra)
  }

  lemma AddKey(values: map<Labels, int>, key: Labels, value: int)
    requires key !in values
    ensures |values[key := value]| == |values| + 1
  {
    assert values[key := value].Keys == values.Keys + {key};
    assert |values[key := value]| == |values[key := value].Keys| && |values| == |values.Keys|;
  }

  /** Adding the next target never overwrites an earlier one. */
  lemma AddTarget(values: map<Labels, int>, n: nat, tuple: nat -> Labels, value: nat -> int)
    requires HoldsTargets(values, n, tuple, value)
    requires forall k: nat :: k < n ==> tuple(k) != tuple(n)
    ensures tuple(n) !in values
    ensures HoldsTargets(values[tuple(n) := value(n)], n + 1, tuple, value)
  {
    var values' := values[tuple(n) := value(n)];
    AddKey(values, tuple(n), value(n));
    forall l | l in values' ensures exists k: nat :: k < n + 1 && l == tuple(k) {
      if l in values {
        var k: nat :| k < n && l == tuple(k);
        assert k < n + 1 && l == tuple(k);
      } else {
        assert n < n + 1 && l == tuple(n);
      }
    }
  }

  lemma AddTargetLabels(values: map<Labels, int>, n: nat, rs: seq<nat>, value: nat -> int)
    requires Radixes(rs) && n < Product(rs)
    requires HoldsTargets(values, n, LabelOf(rs), value)
    ensures HoldsTargets(values[TargetLabels(n, rs) := value(n)], n + 1, LabelOf(rs), value)
  {
    forall k: nat | k < n ensures LabelOf(rs)(k) != LabelOf(rs)(n) {
      if TargetLabels(k, rs) == TargetLabels(n, rs) { TargetLabelsInjective(k, n, rs); }
    }
    AddTarget(values, n, LabelOf(rs), value);
  }

  lemma AddInfoLabels(values: map<Labels, int>, n: nat, rs: seq<nat>, extra: nat, value: nat -> int)
    requires Radixes(rs) && n < Product(rs)
    requires HoldsTargets(values, n, InfoLabelOf(rs, extra), value)
    ensures HoldsTargets(values[InfoLabels(n, rs, extra) := value(n)], n + 1, InfoLabelOf(rs, extra), value)
  {
    forall k: nat | k < n ensures InfoLabelOf(rs, extra)(k) != InfoLabelOf(rs, extra)(n) {
      if InfoLabels(k, rs, extra) == InfoLabels(n, rs, extra) { InfoLabelsInjective(k, n, rs, extra); }
    }
    AddTarget(values, n, InfoLabelOf(rs, extra), value);
  }

  /** targetLabels: the indexes are computed and printed one by one. */
  method NewTargetLabels(n: nat, rs: seq<nat>) returns (labels: Labels)
    requires Radixes(rs)
    ensures labels == TargetLabels(n, rs)
    ensures |labels| == |rs|
    ensures forall i :: 0 <= i < |rs| ==> AllDigits(labels[i]) && Value(labels[i]) == Digits(n, rs)[i]
  {
    forall i | 0 <= i < |rs| ensures Value(Print(Digits(n, rs)[i])) == Digits(n, rs)[i] {
      ValueOfPrint(Digits(n, rs)[i]);
    }
    var indexes := TargetIndexes(n, rs);
    labels := [];
    for i := 0 to indexes.Length
      invariant labels == PrintAll(indexes[..i])
    {
      assert indexes[..i + 1] == indexes[..i] + [indexes[i]];
      labels := labels + [Print(indexes[i])];
    }
    assert indexes[..indexes.Length] == indexes[..];
  }

  /** infoLabels */
  method NewInfoLabels(n: nat, rs: seq<nat>, extra: nat) returns (labels: Labels)
    requires Radixes(rs)
    ensures labels == InfoLabels(n, rs, extra)
    ensures labels[..|rs|] == TargetLabels(n, rs)
    ensures forall i :: 0 <= i < extra ==> labels[|rs| + i] == "t_" + Print(n) + "_i_" + Print(i)
  {
    labels := NewTargetLabels(n, rs);
    for i := 0 to extra
      invariant labels == InfoLabels(n, rs, i)
    {
      labels := labels + ["t_" + Print(n) + "_i_" + Print(i)];
    }
  }

  /** setValues */
  method SetValues(n: nat, rs: seq<nat>, extra: nat, infoMetric: GaugeVec, gauges: seq<GaugeVec>, value: int)
    requires Radixes(rs)
    requires |infoMetric.labelNames| == |rs| + extra && infoMetric !in gauges
    requires forall g :: g in gauges ==> |g.labelNames| == |rs|
    requires Distinct(gauges)
    modifies infoMetric, gauges
    ensures infoMetric.values == if extra > 0 then old(infoMetric.values)[InfoLabels(n, rs, extra) := 1]
                                 else old(infoMetric.values)
    ensures forall g :: g in gauges ==> g.values == old(g.values)[TargetLabels(n, rs) := value]
  {
    if extra > 0 {
      var infoLabels := NewInfoLabels(n, rs, extra);
      infoMetric.Set(infoLabels, 1);
    }
    for i := 0 to |gauges|
      invariant infoMetric.values == if extra > 0 then old(infoMetric.values)[InfoLabels(n, rs, extra) := 1]
                                     else old(infoMetric.values)
      invariant forall j :: 0 <= j < i ==> gauges[j].values == old(gauges[j].values)[TargetLabels(n, rs) := value]
      invariant forall j :: i <= j < |gauges| ==> gauges[j].values == old(gauges[j].values)
    {
      var labels := NewTargetLabels(n, rs);
      gauges[i].Set(labels, value);
    }
  }

  function Names(prefix: string, from: nat, n: nat): (r: Labels)
    ensures |r| == n
  {
    seq(n, i requires 0 <= i < n => prefix + Print(from + i))
  }

  /** Every target under its own tuple, with its own number as the gauge value. */
  ghost predicate Filled(rs: seq<nat>, extra: nat, infoMetric: GaugeVec, gauges: seq<GaugeVec>, n: nat)
    requires Radixes(rs)
    reads infoMetric, gauges
  {
    && (forall g :: g in gauges ==> HoldsTargets(g.values, n, LabelOf(rs), Number()))
    && HoldsTargets(infoMetric.values, if extra > 0 then n else 0, InfoLabelOf(rs, extra), One())
  }

  method NewGauges(labelNames: Labels, count: nat) returns (gauges: seq<GaugeVec>)
    ensures |gauges| == count && Distinct(gauges)
    ensures forall i :: 0 <= i < |gauges| ==> fresh(gauges[i])
    ensures forall g :: g in gauges ==> fresh(g) && g.labelNames == labelNames && g.values == map[]
  {
    gauges := [];
    while |gauges| < count
      invariant |gauges| <= count && Distinct(gauges)
      invariant forall i :: 0 <= i < |gauges| ==> fresh(gauges[i])
      invariant forall g :: g in gauges ==> fresh(g) && g.labelNames == labelNames && g.values == map[]
    {
      var g := new GaugeVec(labelNames);
      gauges := gauges + [g];
    }
  }

  /** The loop over target numbers. */
  method FillVectors(rs: seq<nat>, extra: nat, infoMetric: GaugeVec, gauges: seq<GaugeVec>, total: nat)
    requires Radixes(rs) && total <= Product(rs) && Distinct(gauges)
    requires |infoMetric.labelNames| == |rs| + extra && infoMetric !in gauges
    requires forall g :: g in gauges ==> |g.labelNames| == |rs|
    requires Filled(rs, extra, infoMetric, gauges, 0)
    modifies infoMetric, gauges
    ensures Filled(rs, extra, infoMetric, gauges, total)
  {
    for n := 0 to total
      invariant Filled(rs, extra, infoMetric, gauges, n)
    {
      FillNext(rs, extra, infoMetric, gauges, n);
      SetValues(n, rs, extra, infoMetric, gauges, n);
    }
  }

  /** A tuple of plain decimal numerals, each below its count. */
  predicate IsLabelTuple(l: Labels, rs: seq<nat>) {
    && |l| == |rs|
    && forall i :: 0 <= i < |l| ==>
         l[i] != [] && AllDigits(l[i]) && (|l[i]| > 1 ==> l[i][0] != '0') && Value(l[i]) < rs[i]
  }

  function Values(l: Labels): (r: seq<nat>)
    requires forall i :: 0 <= i < |l| ==> AllDigits(l[i])
    ensures |r| == |l|
  {
    seq(|l|, i requires 0 <= i < |l| => Value(l[i]))
  }

  lemma TargetLabelsAreTuple(n: nat, rs: seq<nat>)
    requires Radixes(rs)
    ensures IsLabelTuple(TargetLabels(n, rs), rs) && Values(TargetLabels(n, rs)) == Digits(n, rs)
  {
    DigitsInRange(n, rs);
    forall i | 0 <= i < |rs| ensures Value(TargetLabels(n, rs)[i]) == Digits(n, rs)[i] {
      LabelsSpellDigits(n, rs, i);
      ValueOfPrint(Digits(n, rs)[i]);
    }
    forall i | 0 <= i < |rs|
      ensures |TargetLabels(n, rs)[i]| > 1 ==> TargetLabels(n, rs)[i][0] != '0'
    {
      LabelsSpellDigits(n, rs, i);
    }
  }

  lemma TupleIsTargetLabels(l: Labels, rs: seq<nat>)
    requires Radixes(rs) && IsLabelTuple(l, rs)
    ensures Weigh(Values(l), rs) < Product(rs) && TargetLabels(Weigh(Values(l), rs), rs) == l
  {
    DigitsOfWeight(Values(l), rs);
    forall i | 0 <= i < |l| ensures Print(Values(l)[i]) == l[i] {
      PrintExactly(Values(l)[i], l[i]);
    }
  }

  /** The series of a complete gauge vector: exactly the tuples of plain decimal
      numerals below the counts, and at each the weighted sum of its numbers. */
  lemma CompleteVectorHolds(values: map<Labels, int>, rs: seq<nat>, l: Labels)
    requires Radixes(rs) && HoldsTargets(values, Product(rs), LabelOf(rs), Number())
    ensures l in values <==> IsLabelTuple(l, rs)
    ensures l in values ==> values[l] == Weigh(Values(l), rs)
  {
    if l in values {
      var k: nat :| k < Product(rs) && l == LabelOf(rs)(k);
      TargetLabelsAreTuple(k, rs);
      WeighDigits(k, rs);
      assert Number()(k) == k;
    }
    if IsLabelTuple(l, rs) {
      TupleIsTargetLabels(l, rs);
      assert LabelOf(rs)(Weigh(Values(l), rs)) in values;
    }
  }

  /** The info series: value one, each under the labels of a target and the info
      labels of the same. */
  lemma InfoVectorHolds(values: map<Labels, int>, rs: seq<nat>, extra: nat, n: nat, l: Labels) returns (k: nat)
    requires Radixes(rs) && HoldsTargets(values, n, InfoLabelOf(rs, extra), One()) && l in values
    ensures k < n && values[l] == 1 && |l| == |rs| + extra && l[..|rs|] == TargetLabels(k, rs)
    ensures forall i :: 0 <= i < extra ==> l[|rs| + i] == "t_" + Print(k) + "_i_" + Print(i)
  {
    k :| k < n && l == InfoLabelOf(rs, extra)(k);
    assert One()(k) == 1;
    assert InfoLabels(k, rs, extra)[..|rs|] == TargetLabels(k, rs);
  }

  datatype Created = Panic | Registry(infoMetric: GaugeVec, gauges: seq<GaugeVec>)

  /** CreateRegistry.  A negative count panics, and so does a product that wraps to a
      negative number.  Otherwise every vector holds exactly the targets numbered
      below the computed total, which is all of them if and only if the product
      fits in 63 bits. */
  method CreateRegistry(rs: seq<nat>, infoLabels: int, gaugeMetrics: int) returns (r: Created)
    requires Radixes(rs)
    ensures r.Panic? <==> infoLabels < 0 || gaugeMetrics < 0 || Wrap64(Product(rs)) < 0
    ensures r.Registry? ==>
              && |r.gauges| == gaugeMetrics
              && Filled(rs, infoLabels, r.infoMetric, r.gauges, Wrap64(Product(rs)))
    ensures r.Registry? ==>
              && |r.infoMetric.labelNames| == |rs| + infoLabels
              && forall i :: 0 <= i < |rs| + infoLabels ==>
                   r.infoMetric.labelNames[i]
                   == (if i < |rs| then "target_label_" else "info_label_") + Print(i)
    ensures r.Registry? ==>
              forall g :: g in r.gauges ==>
                |g.labelNames| == |rs| && forall i :: 0 <= i < |rs| ==> g.labelNames[i] == "target_label_" + Print(i)
    ensures Wrap64(Product(rs)) == Product(rs) <==> Product(rs) < TWO63
  {
    var total := TotalTargets(rs);
    if infoLabels < 0 || gaugeMetrics < 0 || total < 0 {
      return Panic;
    }
    WrapNotAbove(Product(rs));
    var targetNames := Names("target_label_", 0, |rs|);
    var infoMetric := new GaugeVec(targetNames + Names("info_label_", |rs|, infoLabels));
    var gauges := NewGauges(targetNames, gaugeMetrics);
    FillVectors(rs, infoLabels, infoMetric, gauges, total);
    return Registry(infoMetric, gauges);
  }

  lemma WrapNotAbove(x: nat)
    ensures Wrap64(x) <= x
  {
  }

  lemma FillNext(rs: seq<nat>, extra: nat, infoMetric: GaugeVec, gauges: seq<GaugeVec>, n: nat)
    requires Radixes(rs) && n < Product(rs) && Filled(rs, extra, infoMetric, gauges, n)
    ensures forall g :: g in gauges ==>
              HoldsTargets(g.values[TargetLabels(n, rs) := n], n + 1, LabelOf(rs), Number())
    ensures extra > 0 ==>
              HoldsTargets(infoMetric.values[InfoLabels(n, rs, extra) := 1], n + 1, InfoLabelOf(rs, extra), One())
  {
    forall g | g in gauges
      ensures HoldsTargets(g.values[TargetLabels(n, rs) := n], n + 1, LabelOf(rs), Number())
    {
      AddTargetLabels(g.values, n, rs, Number());
    }
    if extra > 0 {
      AddInfoLabels(infoMetric.values, n, rs, extra, One());
    }
  }

  // ------------------------------------------------------- from option to registry

  /** The counts an accepted --targets option stands for. */
  function Counts(param: string): (r: seq<nat>)
    requires AllAccepted(Split(param))
    ensures Radixes(r)
  {
    seq(|Split(param)|, i requires 0 <= i < |Split(param)| => ParseInt32(Split(param)[i]).value)
  }

  /** The command: None for an option that is refused. */
  method RunCommand(targetsArg: string, infoLabels: int, gaugeMetrics: int) returns (r: Option<Created>)
    ensures r.Some? <==> AllAccepted(Split(targetsArg))
    ensures r.Some? ==>
              var total := Wrap64(Product(Counts(targetsArg)));
              && (r.value.Panic? <==> infoLabels < 0 || gaugeMetrics < 0 || total < 0)
              && (r.value.Registry? ==>
                    && |r.value.gauges| == gaugeMetrics
                    && Filled(Counts(targetsArg), infoLabels, r.value.infoMetric, r.value.gauges, total))
  {
    var parsed, bad := ParseTargetList(targetsArg);
    if parsed.None? {
      return None;
    }
    assert parsed.value == Counts(targetsArg);
    var created := CreateRegistry(parsed.value, infoLabels, gaugeMetrics);
    return Some(created);
  }

  lemma PrintedCounts(counts: seq<nat>)
    requires counts != [] && forall i :: 0 <= i < |counts| ==> 1 <= counts[i] <= INT32_MAX
    ensures AllAccepted(Split(Join(PrintedList(counts)))) && Counts(Join(PrintedList(counts))) == counts
  {
    PrintedTargetsParse(counts);
  }

  lemma FourCounts(a: nat, b: nat, c: nat, d: nat)
    requires 1 <= a <= INT32_MAX && 1 <= b <= INT32_MAX && 1 <= c <= INT32_MAX && 1 <= d <= INT32_MAX
    ensures var param := Print(a) + "," + (Print(b) + "," + (Print(c) + "," + Print(d)));
            AllAccepted(Split(param)) && Counts(param) == [a, b, c, d]
  {
    var pieces := PrintedList([a, b, c, d]);
    assert pieces == [Print(a), Print(b), Print(c), Print(d)];
    assert pieces[1..] == [Print(b), Print(c), Print(d)] && pieces[1..][1..] == [Print(c), Print(d)];
    assert Join(pieces[1..][1..]) == Print(c) + "," + Print(d);
    assert Join(pieces[1..]) == Print(b) + "," + Join(pieces[1..][1..]);
    PrintedCounts([a, b, c, d]);
  }

  lemma ProductOfFour(a: nat, b: nat, c: nat, d: nat)
    ensures Product([a, b, c, d]) == a * (b * (c * d))
  {
    assert [a, b, c, d][1..] == [b, c, d] && [b, c, d][1..] == [c, d] && [c, d][1..] == [d] && [d][1..] == [];
    assert Product([d]) == d * 1;
    assert Product([c, d]) == c * Product([d]);
    assert Product([b, c, d]) == b * Product([c, d]);
  }

  lemma PrintNext(n: nat, q: nat, r: nat)
    requires q >= 1 && r < 10 && n == q * 10 + r
    ensures Print(n) == Print(q) + [Digit(r)]
  {
    assert n / 10 == q && n % 10 == r;
  }

  /** Printing digit by digit. */
  lemma PrintFive(n: nat, a: nat, b: nat, c: nat, d: nat, e: nat)
    requires 1 <= a < 10 && b < 10 && c < 10 && d < 10 && e < 10
    requires n == (((a * 10 + b) * 10 + c) * 10 + d) * 10 + e
    ensures Print(n) == [Digit(a), Digit(b), Digit(c), Digit(d), Digit(e)]
  {
    var n1 := a * 10 + b;
    var n2 := n1 * 10 + c;
    var n3 := n2 * 10 + d;
    PrintNext(n1, a, b);
    PrintNext(n2, n1, c);
    PrintNext(n3, n2, d);
    PrintNext(n, n3, e);
  }

  lemma OptionText(p: string, q: string, param: string)
    requires p == "65536" && param == "65536,65536,65536," + q
    ensures param == p + "," + (p + "," + (p + "," + q))
  {
  }

  lemma FullCounts(a: nat, last: nat)
    requires a == 65536 && (last == 32768 || last == 65536)
    ensures Print(a) == "65536"
    ensures Product([a, a, a, last]) == if last == 32768 then TWO63 else TWO64
  {
    PrintFive(a, 6, 5, 5, 3, 6);
    ProductOfFour(a, a, a, last);
    assert a * (a * (a * last)) == if last == 32768 then TWO63 else TWO64;
  }

  /** Neither condition of RunCommand on the total is idle.  The command accepts an
      option that asks for 2^63 targets, whose computed total is the least number,
      so that it panics; and one that asks for 2^64, whose total is zero, so that
      it serves a registry without a single target. */
  lemma AcceptedOptionsWrap(last: nat, param: string)
    requires last == 32768 || last == 65536
    requires param == "65536,65536,65536," + Print(last)
    ensures AllAccepted(Split(param))
    ensures Product(Counts(param)) == if last == 32768 then TWO63 else TWO64
    ensures Wrap64(Product(Counts(param))) == if last == 32768 then -TWO63 else 0
  {
    var a: nat :| a == 65536;
    FullCounts(a, last);
    FourCounts(a, a, a, last);
    OptionText(Print(a), Print(last), param);
  }
}
