/**
  The metric registry of the monitoring service: a dictionary from metric key to gauge, where a
  gauge is created the first time its key is seen and reused afterwards. A gauge's label names are
  fixed when it is created; an unlabelled gauge holds one value, a labelled gauge one value per
  combination of label values. Setting a value the way the exposition library refuses it (label
  values for an unlabelled gauge, none for a labelled one, or a different set of label names) is
  an error that ends the publishing loop.
 */
module Registry {
  import opened Wrappers
  import Strings

  predicate DistinctNames(l: seq<(string, string)>)
  {
    forall i, j :: 0 <= i < j < |l| ==> l[i].0 != l[j].0
  }

  /** A Python dict from label name to label value, in insertion order. */
  type Labels = l: seq<(string, string)> | DistinctNames(l)

  /** `labels.keys()`. */
  function LabelNames(l: seq<(string, string)>): (names: seq<string>)
    ensures |names| == |l|
    ensures forall i :: 0 <= i < |l| ==> names[i] == l[i].0
  {
    if l == [] then [] else [l[0].0] + LabelNames(l[1..])
  }

  /** `labels[name]`, for a name the labels have (the empty string stands in for the others). */
  function LabelValue(l: seq<(string, string)>, name: string): string
  {
    if l == [] then "" else if l[0].0 == name then l[0].1 else LabelValue(l[1..], name)
  }

  lemma {:induction false} LabelValueFound(l: Labels, i: nat)
    requires i < |l|
    ensures LabelValue(l, l[i].0) == l[i].1
  {
    if i > 0 {
      assert l[0].0 != l[i].0;
      var tail: Labels := l[1..];
      assert tail[i - 1] == l[i];
      LabelValueFound(tail, i - 1);
    }
  }

  /** The tuple of label values in the order of a gauge's label names. */
  function LabelValues(l: seq<(string, string)>, names: seq<string>): (values: seq<string>)
    ensures |values| == |names|
    ensures forall i :: 0 <= i < |names| ==> values[i] == LabelValue(l, names[i])
  {
    if names == [] then [] else [LabelValue(l, names[0])] + LabelValues(l, names[1..])
  }

  /** One result of the statistics engine: a metric name, a number and optional labels. */
  datatype MetricResult = MetricResult(name: string, value: real, labels: Option<Labels>)

  /** A gauge: its label names, fixed at creation, and the value per tuple of label values. */
  datatype Gauge = Gauge(labelNames: seq<string>, samples: map<seq<string>, real>)

  /** The registry key under which a metric is published. */
  function MetricKey(name: string): string
  {
    "evidently:" + name
  }

  /** Distinct metric names get distinct registry keys. */
  lemma MetricKeyInjective(a: string, b: string)
    requires MetricKey(a) == MetricKey(b)
    ensures a == b
  {
    var p := "evidently:";
    assert a == MetricKey(a)[|p|..];
    assert b == MetricKey(b)[|p|..];
  }

  /** The gauge created on first sight: no label names, or the sorted names of the first labels. */
  function NewGauge(labels: Option<Labels>): (g: Gauge)
    ensures g.samples == map[]
    ensures Strings.Sorted(g.labelNames)
    ensures labels.None? ==> g.labelNames == []
    ensures labels.Some? ==> multiset(g.labelNames) == multiset(LabelNames(labels.value))
  {
    Gauge(if labels.None? then [] else Strings.SortStrings(LabelNames(labels.value)), map[])
  }

  /** A well-formed gauge: sorted label names, and every sample keyed by one value per name. */
  ghost predicate GaugeValid(g: Gauge)
  {
    Strings.Sorted(g.labelNames) && forall t :: t in g.samples ==> |t| == |g.labelNames|
  }

  ghost predicate RegistryValid(metrics: map<string, Gauge>)
  {
    forall k :: k in metrics ==> GaugeValid(metrics[k])
  }

  /**
    Whether the gauge accepts a value with these labels: no labels for a gauge without label
    names; otherwise labels whose names are exactly the gauge's label names.
   */
  predicate Accepts(g: Gauge, labels: Option<Labels>)
  {
    match labels
    case None => g.labelNames == []
    case Some(l) => g.labelNames != [] && multiset(LabelNames(l)) == multiset(g.labelNames)
  }

  lemma AcceptedNamesPresent(g: Gauge, l: Labels)
    requires multiset(LabelNames(l)) == multiset(g.labelNames)
    ensures forall n :: n in g.labelNames ==> n in LabelNames(l)
  {
    forall n | n in g.labelNames ensures n in LabelNames(l) {
      assert n in multiset(g.labelNames);
    }
  }

  /**
    `found.set(value)` for no labels, `found.labels(**labels).set(value)` otherwise: None when the
    exposition library raises, else the gauge with the one sample overwritten.
   */
  function SetSample(g: Gauge, labels: Option<Labels>, value: real): (r: Option<Gauge>)
    ensures r.Some? <==> Accepts(g, labels)
    ensures r.Some? ==> r.value.labelNames == g.labelNames
    ensures r.Some? && labels.None? ==> r.value.samples == g.samples[[] := value]
    ensures r.Some? && labels.Some? ==>
              (forall n :: n in g.labelNames ==> n in LabelNames(labels.value)) &&
              r.value.samples == g.samples[LabelValues(labels.value, g.labelNames) := value]
  {
    match labels
    case None =>
      if g.labelNames != [] then None else Some(g.(samples := g.samples[[] := value]))
    case Some(l) =>
      Strings.SortEqualIff(LabelNames(l), g.labelNames);
      if g.labelNames == [] then None
      else if Strings.SortStrings(LabelNames(l)) != Strings.SortStrings(g.labelNames) then None
      else
        AcceptedNamesPresent(g, l);
        Some(g.(samples := g.samples[LabelValues(l, g.labelNames) := value]))
  }

  /** The registry after publishing some results, and whether every publish succeeded. */
  datatype Published = Published(metrics: map<string, Gauge>, ok: bool)

  /** The gauge a result is published to: the registered one, or a new one on first sight. */
  function GaugeFor(metrics: map<string, Gauge>, r: MetricResult): Gauge
  {
    var key := MetricKey(r.name);
    if key in metrics then metrics[key] else NewGauge(r.labels)
  }

  /** One pass of the publishing loop: find or create the gauge, then set its value. */
  function PublishOne(metrics: map<string, Gauge>, r: MetricResult): (p: Published)
    ensures p.metrics.Keys == metrics.Keys + {MetricKey(r.name)}
    ensures forall k :: k in metrics && k != MetricKey(r.name) ==> p.metrics[k] == metrics[k]
    ensures p.metrics[MetricKey(r.name)].labelNames == GaugeFor(metrics, r).labelNames
    ensures p.ok <==> Accepts(GaugeFor(metrics, r), r.labels)
    ensures !p.ok ==> p.metrics[MetricKey(r.name)] == GaugeFor(metrics, r)
    ensures p.ok ==> Some(p.metrics[MetricKey(r.name)]) == SetSample(GaugeFor(metrics, r), r.labels, r.value)
  {
    var key := MetricKey(r.name);
    var registered := if key in metrics then metrics else metrics[key := NewGauge(r.labels)];
    match SetSample(registered[key], r.labels, r.value)
    case None => Published(registered, false)
    case Some(g) => Published(registered[key := g], true)
  }

  /** The publishing loop over all results, stopping at the first error. */
  function PublishAll(metrics: map<string, Gauge>, results: seq<MetricResult>): Published
    decreases results
  {
    if results == [] then Published(metrics, true)
    else
      var p := PublishOne(metrics, results[0]);
      if !p.ok then p else PublishAll(p.metrics, results[1..])
  }

  /** A gauge is never replaced: every registered key stays, with the label names it had. */
  lemma {:induction false} PublishKeepsGauges(metrics: map<string, Gauge>, results: seq<MetricResult>)
    ensures var out := PublishAll(metrics, results).metrics;
            forall k :: k in metrics ==> k in out && out[k].labelNames == metrics[k].labelNames
    decreases results
  {
    if results != [] {
      var p := PublishOne(metrics, results[0]);
      if p.ok {
        PublishKeepsGauges(p.metrics, results[1..]);
      }
    }
  }

  /** The registry only gains keys of metrics named in the results. */
  lemma {:induction false} PublishAddsOnlyNamed(metrics: map<string, Gauge>, results: seq<MetricResult>)
    ensures forall k :: k in PublishAll(metrics, results).metrics ==>
              k in metrics || exists i :: 0 <= i < |results| && MetricKey(results[i].name) == k
    decreases results
  {
    if results != [] {
      var p := PublishOne(metrics, results[0]);
      if p.ok {
        PublishAddsOnlyNamed(p.metrics, results[1..]);
        forall k | k in PublishAll(metrics, results).metrics
          ensures k in metrics || exists i :: 0 <= i < |results| && MetricKey(results[i].name) == k
        {
          if k !in p.metrics {
            var i :| 0 <= i < |results[1..]| && MetricKey(results[1..][i].name) == k;
            assert MetricKey(results[i + 1].name) == k;
          } else if k !in metrics {
            assert MetricKey(results[0].name) == k;
          }
        }
      } else {
        assert forall k :: k in p.metrics && k !in metrics ==> MetricKey(results[0].name) == k;
      }
    }
  }

  /**
    A key the registry did not have gets the label names of the FIRST result published under it:
    later results with that name reuse the gauge.
   */
  lemma {:induction false} ShapeFromFirstSight(metrics: map<string, Gauge>, results: seq<MetricResult>, key: string)
    requires key !in metrics && key in PublishAll(metrics, results).metrics
    ensures exists i :: 0 <= i < |results| && MetricKey(results[i].name) == key &&
              (forall j :: 0 <= j < i ==> MetricKey(results[j].name) != key) &&
              PublishAll(metrics, results).metrics[key].labelNames == NewGauge(results[i].labels).labelNames
    decreases results
  {
    var p := PublishOne(metrics, results[0]);
    if MetricKey(results[0].name) == key {
      if p.ok {
        PublishKeepsGauges(p.metrics, results[1..]);
      }
      assert PublishAll(metrics, results).metrics[key].labelNames == NewGauge(results[0].labels).labelNames;
    } else {
      assert key !in p.metrics;
      ShapeFromFirstSight(p.metrics, results[1..], key);
      var i :| 0 <= i < |results[1..]| && MetricKey(results[1..][i].name) == key &&
               (forall j :: 0 <= j < i ==> MetricKey(results[1..][j].name) != key) &&
               PublishAll(p.metrics, results[1..]).metrics[key].labelNames == NewGauge(results[1..][i].labels).labelNames;
      assert forall j :: 0 <= j < i + 1 ==> MetricKey(results[j].name) != key by {
        forall j | 0 <= j < i + 1 ensures MetricKey(results[j].name) != key {
          if j > 0 {
            assert results[j] == results[1..][j - 1];
          }
        }
      }
      assert results[i + 1] == results[1..][i];
    }
  }

  lemma PublishOneValid(metrics: map<string, Gauge>, r: MetricResult)
    requires RegistryValid(metrics)
    ensures RegistryValid(PublishOne(metrics, r).metrics)
  {
  }

  /** Publishing keeps every gauge well-formed, whether or not it stops at an error. */
  lemma {:induction false} PublishValid(metrics: map<string, Gauge>, results: seq<MetricResult>)
    requires RegistryValid(metrics)
    ensures RegistryValid(PublishAll(metrics, results).metrics)
    decreases results
  {
    if results != [] {
      PublishOneValid(metrics, results[0]);
      var p := PublishOne(metrics, results[0]);
      if p.ok {
        PublishValid(p.metrics, results[1..]);
      }
    }
  }

  /** An unlabelled gauge holds a single value, which each publish overwrites. */
  lemma UnlabelledSingleValue(g: Gauge)
    requires GaugeValid(g) && g.labelNames == []
    ensures forall t :: t in g.samples ==> t == []
  {
  }

  /**
    Once a name is published with labels, publishing it again with a different set of label
    names fails and changes nothing.
   */
  lemma LabelNamesFixed(metrics: map<string, Gauge>, first: MetricResult, second: MetricResult)
    requires first.name == second.name
    requires first.labels.Some? && second.labels.Some?
    requires multiset(LabelNames(first.labels.value)) != multiset(LabelNames(second.labels.value))
    requires PublishOne(metrics, first).ok
    ensures var m := PublishOne(metrics, first).metrics;
            PublishOne(m, second) == Published(m, false)
  {
    var m := PublishOne(metrics, first).metrics;
    var key := MetricKey(first.name);
    assert m[key].labelNames == GaugeFor(metrics, first).labelNames;
  }

  /**
    Two results of a new metric whose labels have the same names are both published: both
    label-value combinations are samples of the one gauge, and neither overwrites the other.
   */
  lemma LabelCombinationsCoexist(metrics: map<string, Gauge>, first: MetricResult, second: MetricResult)
    requires first.name == second.name && MetricKey(first.name) !in metrics
    requires first.labels.Some? && second.labels.Some? && first.labels.value != []
    requires multiset(LabelNames(first.labels.value)) == multiset(LabelNames(second.labels.value))
    ensures PublishAll(metrics, [first, second]).ok
    ensures MetricKey(first.name) in PublishAll(metrics, [first, second]).metrics
    ensures var g := PublishAll(metrics, [first, second]).metrics[MetricKey(first.name)];
            var t1 := LabelValues(first.labels.value, g.labelNames);
            var t2 := LabelValues(second.labels.value, g.labelNames);
            t1 in g.samples && t2 in g.samples &&
            g.samples[t2] == second.value && (t1 != t2 ==> g.samples[t1] == first.value)
  {
    var key := MetricKey(first.name);
    var gauge := NewGauge(first.labels);
    assert |LabelNames(first.labels.value)| > 0;
    assert gauge.labelNames != [];
    var p := PublishOne(metrics, first);
    assert p.ok;
    var q := PublishOne(p.metrics, second);
    assert q.ok;
    assert [first, second][1..] == [second];
    assert PublishAll(metrics, [first, second]) == PublishAll(p.metrics, [second]);
    assert PublishAll(p.metrics, [second]) == PublishAll(q.metrics, []);
  }
}
