/**
  The `service` section of a monitoring configuration (the `MonitoringServiceOptions` record of
  app.py, and the dictionary `create_config` writes under `service`), and the table that turns
  monitor names into the statistical test groups the engine runs.
 */
module Options {
  import opened Wrappers

  datatype ServiceOptions = ServiceOptions(
    referencePath: string,
    minReferenceSize: int,
    useReference: bool,
    movingReference: bool,
    windowSize: nat,
    calculationPeriodSec: int,
    monitors: seq<string>)

  /** The statistical test groups the engine knows. */
  datatype MonitorKind = DataDrift | ConceptDrift | RegressionPerformance

  /** `monitor_mapping.get(name)`. */
  function MonitorFor(name: string): Option<MonitorKind>
  {
    if name == "data_drift" then Some(DataDrift)
    else if name == "concept_drift" then Some(ConceptDrift)
    else if name == "regression_performance" then Some(RegressionPerformance)
    else None
  }

  /**
    `[monitor_mapping[k] for k in names]`: every name looked up in order, and a `KeyError`
    (None) as soon as one is unknown.
   */
  function ResolveMonitors(names: seq<string>): (r: Option<seq<MonitorKind>>)
    ensures r.Some? <==> forall i :: 0 <= i < |names| ==> MonitorFor(names[i]).Some?
    ensures r.Some? ==> |r.value| == |names|
    ensures r.Some? ==> forall i :: 0 <= i < |names| ==> r.value[i] == MonitorFor(names[i]).value
  {
    if names == [] then Some([])
    else
      match MonitorFor(names[0])
      case None => None
      case Some(kind) =>
        match ResolveMonitors(names[1..])
        case None => None
        case Some(rest) => Some([kind] + rest)
  }

}
