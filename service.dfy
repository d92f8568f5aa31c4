/**
  The monitoring service of app.py: a reference dataset, a sliding window of the most recent
  production rows ("current"), a counter of rows that have not yet been part of an evaluation,
  and a registry of gauges the statistics engine's results are published to.

  The statistics engine (a third-party library configured with the chosen monitors and the
  column mapping) is an opaque function from (reference, current window) to either an
  exception or a list of metric results. The fingerprint of the reference rows is an opaque
  function too.
 */
module MonitoringApp {
  import opened Wrappers
  import opened Options
  import Frames
  import Registry

  /** What the engine's `execute` followed by `metrics()` produces: an exception, or results. */
  datatype Evaluation = Raised | Metrics(results: seq<Registry.MetricResult>)

  /** How one `iterate` call ended: gated out, evaluated, or with an exception from the engine or a gauge. */
  datatype IterateOutcome = Waiting | Evaluated | EngineFailed | PublishFailed

  /** One `iterate` call as the row counter sees it. */
  datatype Call = Call(batchSize: nat, passedGate: bool)

  /** The total size of the batches of the calls that did not pass the window-size gate. */
  ghost function GatedOutRows(calls: seq<Call>): nat
  {
    if calls == [] then 0
    else
      var last := calls[|calls| - 1];
      GatedOutRows(calls[..|calls| - 1]) + (if last.passedGate then 0 else last.batchSize)
  }

  /**
    `reference.iloc[:-w]` and `reference.iloc[-w:]`: the history cut `w` rows before its end,
    or at its start when it has no more than `w` rows. With `w == 0` both slices see the bound
    `-0 == 0`, so the cut moves to the start and the whole history becomes the window.
   */
  function Split<Row>(history: seq<Row>, w: nat): (parts: (seq<Row>, seq<Row>))
    ensures parts.0 + parts.1 == history
    ensures 1 <= w <= |history| ==> |parts.1| == w
    ensures w == 0 || w >= |history| ==> parts == ([], history)
  {
    var cut := Frames.SliceBound(|history|, -(w as int));
    (history[..cut], history[cut..])
  }

  class MonitoringService<Row> {
    const options: ServiceOptions
    const reference: seq<Row>
    const engine: (seq<Row>, seq<Row>) -> Evaluation
    /** The fingerprint of the reference rows. */
    const hash: string
    /**
      The window, oldest row first. After every append its pandas index is 0 .. |current| - 1;
      only the window seeded from the history keeps that history's labels until the first append.
     */
    var current: seq<Row>
    /** `new_rows`: rows appended by calls that have not yet reached an evaluation. */
    var newRows: int
    /** `metrics`: the gauges published so far, by metric key. */
    var metrics: map<string, Registry.Gauge>
    /** Every `iterate` call so far. */
    ghost var calls: seq<Call>
    /** The window handed to the engine by every evaluation so far. */
    ghost var evaluations: seq<seq<Row>>

    ghost predicate Valid()
      reads this
    {
      newRows == GatedOutRows(calls) && Registry.RegistryValid(metrics)
    }

    /**
      With `use_reference`, the last `window_size` rows of the history seed the window and the
      rest is the reference; otherwise the whole history is the reference and the window starts
      empty.
     */
    constructor (history: seq<Row>, options: ServiceOptions, engine: (seq<Row>, seq<Row>) -> Evaluation,
                 fingerprint: seq<Row> -> string)
      ensures Valid()
      ensures this.options == options && this.engine == engine
      ensures options.useReference ==> (reference, current) == Split(history, options.windowSize)
      ensures !options.useReference ==> reference == history && current == []
      ensures reference + current == history
      ensures options.windowSize >= 1 ==> |current| <= options.windowSize
      ensures hash == fingerprint(reference)
      ensures newRows == 0 && metrics == map[] && calls == [] && evaluations == []
    {
      this.options := options;
      this.engine := engine;
      var parts := if options.useReference then Split(history, options.windowSize) else (history, []);
      reference := parts.0;
      current := parts.1;
      metrics := map[];
      newRows := 0;
      hash := fingerprint(parts.0);
      calls := [];
      evaluations := [];
    }

    /**
      Ingests one batch: append it, and when the window then holds at least `window_size` rows,
      drop the oldest down to exactly `window_size`, give the batch's rows back to the counter,
      run the engine on the trimmed window and publish its results. The trim and the counter
      are updated before the engine runs, so an exception from the engine or from a gauge leaves
      them in place.
     */
    method Iterate(batch: seq<Row>) returns (outcome: IterateOutcome)
      requires Valid()
      modifies this
      ensures Valid()
      ensures current == Frames.Slide(old(current), batch, options.windowSize)
      ensures |current| <= options.windowSize
      ensures newRows >= old(newRows)
      ensures calls == old(calls) + [Call(|batch|, |old(current)| + |batch| >= options.windowSize)]
      ensures |old(current)| + |batch| < options.windowSize ==>
                newRows == old(newRows) + |batch| && outcome == Waiting &&
                metrics == old(metrics) && evaluations == old(evaluations)
      ensures |old(current)| + |batch| >= options.windowSize ==>
                newRows == old(newRows) && outcome != Waiting && evaluations == old(evaluations) + [current]
      ensures outcome != Waiting ==>
                match engine(reference, current)
                case Raised => outcome == EngineFailed && metrics == old(metrics)
                case Metrics(results) =>
                  var published := Registry.PublishAll(old(metrics), results);
                  metrics == published.metrics && outcome == (if published.ok then Evaluated else PublishFailed)
    {
      var rowsCount := |batch|;
      // append(new_rows, ignore_index=True): the index is 0 .. n-1 again
      var appended := Frames.AppendIgnoreIndex(Frames.Indexed(current, 0), batch);
      Frames.AppendRows(current, batch);
      assert Frames.Rows(appended) == current + batch;
      current := Frames.Rows(appended);
      newRows := newRows + rowsCount;
      var currentSize := |current|;
      if currentSize < options.windowSize {
        calls := calls + [Call(rowsCount, false)];
        return Waiting;
      }
      // drop(index=range(0, current_size - window_size)), then reset_index(drop=True)
      var excess := currentSize - options.windowSize;
      Frames.DropResetLeading(current, excess);
      current := Frames.Rows(Frames.DropReset(Frames.Indexed(current, 0), excess).value);
      newRows := newRows - rowsCount;
      calls := calls + [Call(rowsCount, true)];
      evaluations := evaluations + [current];

      outcome := Evaluate();
    }

    /** Runs the engine on the reference and the window and publishes its results, if it returns any. */
    method Evaluate() returns (outcome: IterateOutcome)
      requires Registry.RegistryValid(metrics)
      modifies this`metrics
      ensures Registry.RegistryValid(metrics)
      ensures match engine(reference, current)
              case Raised => outcome == EngineFailed && metrics == old(metrics)
              case Metrics(results) =>
                var published := Registry.PublishAll(old(metrics), results);
                metrics == published.metrics && outcome == (if published.ok then Evaluated else PublishFailed)
    {
      var evaluation := engine(reference, current);
      if evaluation.Raised? {
        return EngineFailed;
      }
      var ok := Publish(evaluation.results);
      outcome := if ok then Evaluated else PublishFailed;
    }

    /**
      The publishing loop: for each result, find the gauge under its key or create and register
      one, then set the value; an exception from a gauge ends the loop, keeping what was done.
     */
    method Publish(results: seq<Registry.MetricResult>) returns (ok: bool)
      requires Registry.RegistryValid(metrics)
      modifies this`metrics
      ensures Registry.RegistryValid(metrics)
      ensures Registry.PublishAll(old(metrics), results) == Registry.Published(metrics, ok)
    {
      var i := 0;
      while i < |results|
        invariant 0 <= i <= |results|
        invariant Registry.PublishAll(old(metrics), results) == Registry.PublishAll(metrics, results[i..])
        invariant Registry.RegistryValid(metrics)
      {
        var r := results[i];
        ghost var step := Registry.PublishOne(metrics, r);
        Registry.PublishOneValid(metrics, r);
        assert results[i..][1..] == results[i + 1..];
        var key := Registry.MetricKey(r.name);
        if key !in metrics {
          metrics := metrics[key := Registry.NewGauge(r.labels)];
        }
        var updated := Registry.SetSample(metrics[key], r.labels, r.value);
        if updated.None? {
          assert metrics == step.metrics && !step.ok;
          return false;
        }
        metrics := metrics[key := updated.value];
        assert metrics == step.metrics && step.ok;
        i := i + 1;
      }
      return true;
    }
  }

  /**
    Creates the service the way app.py does, looking up the monitors first: an unknown monitor
    name is a `KeyError` and no service.
   */
  method StartService<Row>(history: seq<Row>, options: ServiceOptions,
                           engineFor: seq<MonitorKind> -> ((seq<Row>, seq<Row>) -> Evaluation),
                           fingerprint: seq<Row> -> string)
    returns (service: Option<MonitoringService<Row>>)
    ensures service.None? <==> ResolveMonitors(options.monitors).None?
    ensures service.Some? ==>
              fresh(service.value) && service.value.Valid() &&
              service.value.engine == engineFor(ResolveMonitors(options.monitors).value) &&
              service.value.options == options && service.value.newRows == 0 &&
              service.value.metrics == map[] && service.value.evaluations == []
  {
    var monitors := ResolveMonitors(options.monitors);
    if monitors.None? {
      return None;
    }
    var s := new MonitoringService(history, options, engineFor(monitors.value), fingerprint);
    return Some(s);
  }

  /** One call of the warm-up scenario that leaves the window short of its size: the row waits. */
  method Wait(service: MonitoringService<int>, row: int) returns (outcome: IterateOutcome)
    requires service.Valid() && |service.current| + 1 < service.options.windowSize
    modifies service
    ensures service.Valid() && service.current == old(service.current) + [row]
    ensures service.evaluations == old(service.evaluations) && outcome == Waiting
  {
    outcome := service.Iterate([row]);
  }

  /** The first four rows of the warm-up scenario: each call waits, the engine is not run. */
  method FeedWarmUp(service: MonitoringService<int>) returns (outcomes: seq<IterateOutcome>)
    requires service.Valid() && service.options.windowSize == 5
    requires service.current == [] && service.evaluations == []
    modifies service
    ensures service.Valid() && service.current == [0, 1, 2, 3] && service.evaluations == []
    ensures outcomes == [Waiting, Waiting, Waiting, Waiting]
  {
    var o0 := Wait(service, 0);
    var o1 := Wait(service, 1);
    var o2 := Wait(service, 2);
    var o3 := Wait(service, 3);
    outcomes := [o0, o1, o2, o3];
  }

  /**
    A window of 5 fed one row per call: four calls wait, the fifth runs the engine on five rows,
    the sixth slides the window by one and runs it again.
   */
  method WarmUpScenario() returns (outcomes: seq<IterateOutcome>, window: seq<int>, ghost evaluated: seq<seq<int>>)
    ensures outcomes == [Waiting, Waiting, Waiting, Waiting, Evaluated, Evaluated]
    ensures window == [1, 2, 3, 4, 5]
    ensures evaluated == [[0, 1, 2, 3, 4], [1, 2, 3, 4, 5]]
  {
    var options := ServiceOptions("data/reference.csv", 30, false, false, 5, 10, ["data_drift"]);
    var service := new MonitoringService<int>([100, 101, 102], options,
                                              (reference, current) => Metrics([]), rows => "fingerprint");
    var waited := FeedWarmUp(service);
    var o4 := service.Iterate([4]);
    assert service.current == [0, 1, 2, 3, 4];
    var o5 := service.Iterate([5]);
    assert service.current == [1, 2, 3, 4, 5];
    outcomes := waited + [o4, o5];
    window := service.current;
    evaluated := service.evaluations;
  }
}
