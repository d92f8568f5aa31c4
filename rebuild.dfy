/**
  The rewrite in rebuild/utils.py: `create_config`, which builds the configuration dictionary
  and the names of the files it belongs to, and `Monitor`, which picks a reference file for a
  client and keeps the same sliding window as the monitoring service, without the engine.

  File contents, directory listings and YAML parsing are inputs here: the names in the data
  directory are a sequence, reading a CSV file and loading a configuration file are functions
  of the path.
 */
module Rebuild {
  import opened Wrappers
  import opened Options
  import Strings
  import Frames

  const DataDir := "data/"

  datatype DataFormat = DataFormat(separator: string, header: bool, dateColumn: string)

  datatype ColumnMapping = ColumnMapping(
    target: string,
    prediction: string,
    datetime: string,
    numericalFeatures: seq<string>,
    categoricalFeatures: seq<string>)

  datatype Config = Config(
    dataFormat: DataFormat,
    columnMapping: ColumnMapping,
    prettyPrint: bool,
    service: ServiceOptions)

  /** A configuration together with the path of the file it is written to. */
  datatype ConfigFile = ConfigFile(path: string, config: Config)

  /** `filename_suffix or '_1'`: both None and the empty string fall back to `_1`. */
  function Suffix(filenameSuffix: Option<string>): (s: string)
    ensures s != ""
    ensures filenameSuffix.Some? && filenameSuffix.value != "" ==> s == filenameSuffix.value
    ensures filenameSuffix.None? || filenameSuffix == Some("") ==> s == "_1"
  {
    match filenameSuffix
    case Some(s) => if s == "" then "_1" else s
    case None => "_1"
  }

  function ReferencePath(filenameSuffix: Option<string>): string
  {
    DataDir + "reference" + Suffix(filenameSuffix) + ".csv"
  }

  function ConfigPath(filenameSuffix: Option<string>): string
  {
    "config/monitoring/monitoring_config" + Suffix(filenameSuffix) + ".yaml"
  }

  /** The configuration file `Monitor` loads for a client. */
  function MonitorConfigPath(clientId: string): string
  {
    "config/monitoring/monitoring_config_" + clientId + ".yaml"
  }

  /**
    `create_config`: the configuration for a model with the given features, and the file it is
    dumped to (the dump itself is output and not modelled).
   */
  function CreateConfig(featureNames: seq<string>, filenameSuffix: Option<string>): (file: ConfigFile)
    ensures file.path == ConfigPath(filenameSuffix)
    ensures file.config.service.referencePath == ReferencePath(filenameSuffix)
    ensures file.config.columnMapping.numericalFeatures == featureNames
    ensures file.config.columnMapping.categoricalFeatures == []
  {
    var config := Config(
      DataFormat(",", true, "date_"),
      ColumnMapping("target_", "predicted_", "date_", featureNames, []),
      true,
      ServiceOptions(
        referencePath := ReferencePath(filenameSuffix),
        minReferenceSize := 30,
        useReference := true,
        movingReference := false,
        windowSize := 30,
        calculationPeriodSec := 10,
        monitors := ["data_drift", "concept_drift", "regression_performance"]));
    ConfigFile(ConfigPath(filenameSuffix), config)
  }

  /**
    The service section `create_config` writes: a window of 30 seeded from the reference, a
    minimum reference of 30 rows, a period of 10 seconds, no moving reference, and the three
    monitors in this order, every one of which the service's monitor table knows.
   */
  lemma CreateConfigDefaults(featureNames: seq<string>, filenameSuffix: Option<string>)
    ensures var service := CreateConfig(featureNames, filenameSuffix).config.service;
            service.windowSize == 30 && service.minReferenceSize == 30 && service.useReference &&
            !service.movingReference && service.calculationPeriodSec == 10 &&
            service.monitors == ["data_drift", "concept_drift", "regression_performance"] &&
            ResolveMonitors(service.monitors) == Some([DataDrift, ConceptDrift, RegressionPerformance])
  {
    var names := ["data_drift", "concept_drift", "regression_performance"];
    assert MonitorFor("data_drift") == Some(DataDrift);
    assert "concept_drift" != "data_drift";
    assert MonitorFor("concept_drift") == Some(ConceptDrift);
    assert "regression_performance" != "data_drift" && "regression_performance" != "concept_drift";
    assert MonitorFor("regression_performance") == Some(RegressionPerformance);
    assert names[0] == "data_drift" && names[1] == "concept_drift" && names[2] == "regression_performance";
    var kinds := ResolveMonitors(names).value;
    assert kinds[0] == DataDrift && kinds[1] == ConceptDrift && kinds[2] == RegressionPerformance;
    assert kinds == [DataDrift, ConceptDrift, RegressionPerformance];
    assert CreateConfig(featureNames, filenameSuffix).config.service.monitors == names;
  }

  /** No suffix, an empty suffix and the suffix `_1` all name the same files. */
  lemma DefaultSuffixShared()
    ensures ConfigPath(None) == ConfigPath(Some("")) == ConfigPath(Some("_1"))
    ensures ReferencePath(None) == ReferencePath(Some("")) == ReferencePath(Some("_1"))
  {
  }

  /** Two suffixes name the same configuration file, or the same reference file, only when they resolve alike. */
  lemma SuffixesSeparateFiles(a: Option<string>, b: Option<string>)
    ensures ConfigPath(a) == ConfigPath(b) <==> Suffix(a) == Suffix(b)
    ensures ReferencePath(a) == ReferencePath(b) <==> Suffix(a) == Suffix(b)
  {
    var configHead := "config/monitoring/monitoring_config";
    var referenceHead := DataDir + "reference";
    assert Suffix(a) == ConfigPath(a)[|configHead|..|ConfigPath(a)| - 5];
    assert Suffix(b) == ConfigPath(b)[|configHead|..|ConfigPath(b)| - 5];
    assert Suffix(a) == ReferencePath(a)[|referenceHead|..|ReferencePath(a)| - 4];
    assert Suffix(b) == ReferencePath(b)[|referenceHead|..|ReferencePath(b)| - 4];
  }

  /** `create_config` with the suffix `_<client>` writes the file `Monitor` loads for that client. */
  lemma ConfigForClient(featureNames: seq<string>, clientId: string)
    ensures CreateConfig(featureNames, Some("_" + clientId)).path == MonitorConfigPath(clientId)
  {
    assert "config/monitoring/monitoring_config" + ("_" + clientId) + ".yaml"
        == "config/monitoring/monitoring_config_" + clientId + ".yaml";
  }

  /** The name pattern `Monitor` looks for in the data directory. */
  function ReferencePattern(clientId: string): string
  {
    "reference_" + clientId
  }

  /** `[f for f in files if pattern in f]`. */
  function Matching(files: seq<string>, pattern: string): (m: seq<string>)
    ensures |m| <= |files|
  {
    if files == [] then []
    else
      var last := files[|files| - 1];
      Matching(files[..|files| - 1], pattern) + (if Strings.Contains(last, pattern) then [last] else [])
  }

  /** The filtered list holds exactly the names of the listing that contain the pattern. */
  lemma {:induction false} MatchingMembers(files: seq<string>, pattern: string)
    ensures forall x :: x in Matching(files, pattern) ==> x in files && Strings.Contains(x, pattern)
    ensures forall i :: 0 <= i < |files| && Strings.Contains(files[i], pattern) ==> files[i] in Matching(files, pattern)
  {
    if files != [] {
      var n := |files|;
      var front := files[..n - 1];
      MatchingMembers(front, pattern);
      assert forall i :: 0 <= i < n - 1 ==> files[i] == front[i];
      assert files == front + [files[n - 1]];
    }
  }

  /**
    Filtering a listing made of two parts filters each part and keeps them in that order: the
    matching names keep their relative order.
   */
  lemma {:induction false} MatchingConcat(front: seq<string>, back: seq<string>, pattern: string)
    ensures Matching(front + back, pattern) == Matching(front, pattern) + Matching(back, pattern)
    decreases |back|
  {
    if back == [] {
      assert front + back == front;
    } else {
      var files := front + back;
      assert files[..|files| - 1] == front + back[..|back| - 1];
      assert files[|files| - 1] == back[|back| - 1];
      MatchingConcat(front, back[..|back| - 1], pattern);
    }
  }

  /** Nothing is left after filtering exactly when no name matches. */
  lemma {:induction false} MatchingEmpty(files: seq<string>, pattern: string)
    ensures Matching(files, pattern) == [] <==> forall i :: 0 <= i < |files| ==> !Strings.Contains(files[i], pattern)
  {
    if files != [] {
      var n := |files|;
      var front := files[..n - 1];
      MatchingEmpty(front, pattern);
      assert forall i :: 0 <= i < n - 1 ==> front[i] == files[i];
    }
  }

  /** The last name left after filtering is the last matching name of the list. */
  lemma {:induction false} MatchingLast(files: seq<string>, pattern: string)
    requires Matching(files, pattern) != []
    ensures var m := Matching(files, pattern);
            exists i :: 0 <= i < |files| && files[i] == m[|m| - 1] && Strings.Contains(files[i], pattern) &&
                        forall j :: i < j < |files| ==> !Strings.Contains(files[j], pattern)
  {
    var n := |files|;
    var front := files[..n - 1];
    var m := Matching(files, pattern);
    if Strings.Contains(files[n - 1], pattern) {
      assert m[|m| - 1] == files[n - 1];
    } else {
      assert m == Matching(front, pattern);
      MatchingLast(front, pattern);
      var i :| 0 <= i < |front| && front[i] == m[|m| - 1] && Strings.Contains(front[i], pattern) &&
               forall j :: i < j < |front| ==> !Strings.Contains(front[j], pattern);
      assert files[i] == front[i];
      assert forall j :: i < j < n - 1 ==> files[j] == front[j];
    }
  }

  /**
    The reference file `Monitor` reads when it is given no reference data: the name list is
    filtered on `reference_<client>` and the last match popped; with no match `pop` raises.
   */
  function SelectReferenceFile(files: seq<string>, clientId: string): (r: Option<string>)
    ensures r.None? <==> forall i :: 0 <= i < |files| ==> !Strings.Contains(files[i], ReferencePattern(clientId))
    ensures r.Some? ==>
              exists i :: 0 <= i < |files| && files[i] == r.value &&
                Strings.Contains(files[i], ReferencePattern(clientId)) &&
                forall j :: i < j < |files| ==> !Strings.Contains(files[j], ReferencePattern(clientId))
  {
    var candidates := Matching(files, ReferencePattern(clientId));
    MatchingEmpty(files, ReferencePattern(clientId));
    if candidates == [] then None
    else
      MatchingLast(files, ReferencePattern(clientId));
      Some(candidates[|candidates| - 1])
  }

  /** The reference path for the suffix `_<client>` is the data directory, the client's pattern and `.csv`. */
  lemma ReferencePathForClient(clientId: string)
    ensures ReferencePath(Some("_" + clientId)) == DataDir + (ReferencePattern(clientId) + ".csv")
  {
    assert Suffix(Some("_" + clientId)) == "_" + clientId;
    assert "reference" + ("_" + clientId) == "reference_" + clientId;
  }

  /** The reference file named by `create_config` for a client is one the selection accepts. */
  lemma CreatedReferenceSelectable(files: seq<string>, clientId: string, featureNames: seq<string>, f: string)
    requires f in files
    requires DataDir + f == CreateConfig(featureNames, Some("_" + clientId)).config.service.referencePath
    ensures SelectReferenceFile(files, clientId).Some?
  {
    var pattern := ReferencePattern(clientId);
    ReferencePathForClient(clientId);
    Strings.PrefixCancel(DataDir, f, pattern + ".csv");
    Strings.ContainsMiddle([], pattern, ".csv");
    assert [] + pattern + ".csv" == f;
  }

  /**
    The match is on a substring, so another client's file can win: for client `1`, a later
    `reference_10.csv` is chosen over `reference_1.csv`.
   */
  lemma SelectionBySubstring()
    ensures SelectReferenceFile(["reference_1.csv", "reference_10.csv"], "1") == Some("reference_10.csv")
  {
    var files := ["reference_1.csv", "reference_10.csv"];
    var later := "reference_10.csv";
    assert ReferencePattern("1") == "reference_1";
    Strings.ContainsMiddle([], "reference_1", "0.csv");
    assert [] + "reference_1" + "0.csv" == later;
    assert files[|files| - 1] == later;
    var m := Matching(files, "reference_1");
    assert m == Matching(files[..1], "reference_1") + [later];
    assert m[|m| - 1] == later;
  }

  /** How one `Monitor.iterate` call ended. */
  datatype MonitorOutcome = Waiting | Trimmed | ConfigMissing

  class Monitor<Row> {
    const clientId: string
    const referenceData: seq<Row>
    /** The loaded configuration; None when loading failed, which the constructor only reports. */
    const config: Option<Config>
    /** The window, oldest row first; after every append its pandas index is 0 .. |currentData| - 1. */
    var currentData: seq<Row>

    ghost predicate Valid()
      reads this
    {
      config.Some? ==> |currentData| <= config.value.service.windowSize
    }

    constructor (clientId: string, referenceData: seq<Row>, config: Option<Config>)
      ensures Valid()
      ensures this.clientId == clientId && this.referenceData == referenceData && this.config == config
      ensures currentData == []
    {
      this.clientId := clientId;
      this.referenceData := referenceData;
      this.config := config;
      currentData := [];
    }

    /**
      Appends the batch and, once at least `window_size` rows are held, drops the oldest so that
      exactly `window_size` remain. Without a loaded configuration the append happens and the
      lookup of `window_size` then raises.
     */
    method Iterate(batch: seq<Row>) returns (outcome: MonitorOutcome)
      requires Valid()
      modifies this`currentData
      ensures Valid()
      ensures config.None? ==> currentData == old(currentData) + batch && outcome == ConfigMissing
      ensures config.Some? ==>
                var w := config.value.service.windowSize;
                currentData == Frames.Slide(old(currentData), batch, w) &&
                outcome == (if |old(currentData)| + |batch| < w then Waiting else Trimmed)
    {
      // append(new_rows, ignore_index=True): the index is 0 .. n-1 again
      Frames.AppendRows(currentData, batch);
      currentData := Frames.Rows(Frames.AppendIgnoreIndex(Frames.Indexed(currentData, 0), batch));
      var currentSize := |currentData|;
      if config.None? {
        return ConfigMissing;
      }
      var windowSize := config.value.service.windowSize;
      if currentSize < windowSize {
        return Waiting;
      }
      // drop(index=range(0, current_size - window_size)), then reset_index(drop=True)
      var excess := currentSize - windowSize;
      Frames.DropResetLeading(currentData, excess);
      currentData := Frames.Rows(Frames.DropReset(Frames.Indexed(currentData, 0), excess).value);
      return Trimmed;
    }
  }

  /**
    `Monitor(client_id, reference_data)`: the given reference, or else the selected file of the
    data directory read as CSV (no match raises, and there is no monitor); then the client's
    configuration file, which may fail to load.
   */
  method OpenMonitor<Row>(clientId: string, referenceData: Option<seq<Row>>, dataFiles: seq<string>,
                          readCsv: string -> seq<Row>, loadConfig: string -> Option<Config>)
    returns (monitor: Option<Monitor<Row>>)
    ensures monitor.None? <==> referenceData.None? && SelectReferenceFile(dataFiles, clientId).None?
    ensures monitor.Some? ==>
              fresh(monitor.value) && monitor.value.Valid() && monitor.value.currentData == [] &&
              monitor.value.clientId == clientId &&
              monitor.value.config == loadConfig(MonitorConfigPath(clientId)) &&
              monitor.value.referenceData == match referenceData
                                             case Some(rows) => rows
                                             case None => readCsv(DataDir + SelectReferenceFile(dataFiles, clientId).value)
  {
    var reference: seq<Row>;
    if referenceData.Some? {
      reference := referenceData.value;
    } else {
      var file := SelectReferenceFile(dataFiles, clientId);
      if file.None? {
        return None;
      }
      reference := readCsv(DataDir + file.value);
    }
    var m := new Monitor(clientId, reference, loadConfig(MonitorConfigPath(clientId)));
    return Some(m);
  }

  /**
    The calls of the module's own script, on a monitor with a window of 30 and 50 production rows:
    the first 40 rows fill the window past its size and the oldest 10 are dropped; the next 10
    push out 10 more.
   */
  method FeedProduction<Row>(monitor: Monitor<Row>, production: seq<Row>)
    requires monitor.Valid() && monitor.config.Some? && monitor.config.value.service.windowSize == 30
    requires monitor.currentData == [] && |production| == 50
    modifies monitor
    ensures monitor.currentData == production[20..]
  {
    var first := monitor.Iterate(production[..40]);
    var second := monitor.Iterate(production[40..]);
    ScriptWindow(production);
  }

  /** The window after the script's two batches, as a value. */
  lemma ScriptWindow<Row>(production: seq<Row>)
    requires |production| == 50
    ensures Frames.Slide(Frames.Slide([], production[..40], 30), production[40..], 30) == production[20..]
  {
    var first := Frames.Slide([], production[..40], 30);
    assert [] + production[..40] == production[..40];
    assert first == production[10..40];
    assert first + production[40..] == production[10..];
  }

  /**
    The module's own script, with the configuration `create_config` writes by default (a window
    of 30) and an empty reference: 40 rows, then 10 more, leave rows 20 to 49.
   */
  method ScriptRun() returns (window: seq<int>)
    ensures window == seq(30, i => 20 + i)
  {
    var config := CreateConfig([], None).config;
    CreateConfigDefaults([], None);
    var monitor := new Monitor("1", [], Some(config));
    var production := seq(50, i => i);
    FeedProduction(monitor, production);
    window := monitor.currentData;
  }
}
