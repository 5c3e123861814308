/**
 * `generateAggregatorMain`: the complete FHiCL document of one aggregator
 * process. The aggregator's position among its peers decides its role: every
 * aggregator but the last is a data logger, the last one is the online monitor.
 */
module GenerateAggregatorMain {

  import opened Common
  import opened Templates
  import GenerateAggregator

  function MainHead(): Template
  {
    [Lit("services: {\n" + "  scheduler: {\n" + "    fileMode: NOMERGE\n" + "    errorOnFailureToPut: false\n" + "  }\n"
       + "  NetMonTransportServiceInterface: " + "{\n" + "    service_provider: " + "NetMonTransportService\n" + "  }\n" + "\n"
       + "  #SimpleMemoryCheck: { }\n" + "}\n" + "\n"),
     Hole("aggregator_code"),
     Lit("\n" + "\n" + "source: {\n" + "  module_type: NetMonInput\n" + "}\n" + "outputs: {\n" + "  "), Hole("root_output"),
     Lit("normalOutput: {\n  "), Hole("root_output"),
     Lit("  module_type: RootOutput\n" + "  ")]
  }

  function MainTail(): Template
  {
    [Hole("root_output"), Lit("  fileName: \""), Hole("output_file"),
     Lit("\"\n  "), Hole("root_output"),
     Lit("}\n" + "  \n" + "}\n" + "physics: {\n" + "  analyzers: {\n" + "\n" + "  }\n" + "\n" + "  producers: {\n" + "\n" + "     BuildInfo:\n" + "     {\n"
       + "       module_type: " + "Mu2eArtdaqBuildInfo\n" + "       instance_name: Mu2eArtdaq\n" + "     }\n" + "   }\n" + "\n"
       + "  filters: {\n" + "\n" + "  }\n" + "\n" + "  p2: [ BuildInfo ]\n" + "  \n" + "  "),
     Hole("root_output"),
     Lit("my_output_modules: [ normalOutput " + "]\n" + "}\n" + "process_name: DAQAG")]
  }

  function AggregatorMainTemplate(): Template { MainHead() + MainTail() }

  /** The placeholders in the order the script replaces them. */
  const MAIN_FILL_ORDER: seq<string> := ["aggregator_code", "output_file", "root_output"]

  /** The settings an aggregator takes from its position among `totalAGs` aggregators. */
  datatype AggregatorRole = AggregatorRole(onmonEnable: int, diskWritingEnable: int,
                                           queueDepth: int, queueTimeout: int, agType: string)

  function ChooseRole(agIndex: int, totalAGs: int, onmonEnable: int, diskWritingEnable: int): AggregatorRole
  {
    if agIndex < totalAGs - 1 then
      AggregatorRole(if totalAGs > 1 then 0 else onmonEnable, diskWritingEnable, 20, 5, "data_logger")
    else
      AggregatorRole(onmonEnable, 0, 2, 1, "online_monitor")
  }

  /** Ruby's `File.join(dir, name)` for a `name` that does not start with a separator. */
  function JoinPath(dir: string, name: string): string
  {
    if |dir| > 0 && dir[|dir| - 1] == '/' then dir + name else dir + "/" + name
  }

  /** The run-number and time patterns are expanded later by the output module. */
  const FILE_PATTERN: string := "mu2e_artdaq_r%06r_sr%02s_%to"

  function AggregatorFileName(agIndex: int, totalAGs: int): string
  {
    FILE_PATTERN + (if totalAGs > 2 then "_" + IntToString(agIndex) else "") + ".root"
  }

  /**
   * The `generateAggregator` block for an aggregator in the given role: its
   * queue depth, queue wait time and type come from the role, everything else
   * is passed through.
   */
  function AggregatorCode(role: AggregatorRole, bunchSize: string, fragSizeWords: string,
                          sourcesFhicl: string, xmlrpcClientList: string,
                          fileSizeThreshold: string, fileDuration: string,
                          fileEventCount: string, onmonEventPrescale: string,
                          loggerRank: string, dispatcherRank: string, withGanglia: string,
                          withMsgFacility: string, withGraphite: string): string
  {
    GenerateAggregator.GenerateAggregator(
      bunchSize, fragSizeWords, sourcesFhicl, xmlrpcClientList, fileSizeThreshold,
      fileDuration, fileEventCount, IntToString(role.queueDepth),
      IntToString(role.queueTimeout), onmonEventPrescale, role.agType, loggerRank,
      dispatcherRank, withGanglia, withMsgFacility, withGraphite)
  }

  /**
   * The main document of aggregator `agIndex` once `code`, the block built for
   * its role, is known: the three replacements in the script's order.
   */
  function MainDocument(role: AggregatorRole, code: string, dataDir: string,
                        agIndex: int, totalAGs: int): Template
  {
    FillAll(AggregatorMainTemplate(), MAIN_FILL_ORDER,
            [code, JoinPath(dataDir, AggregatorFileName(agIndex, totalAGs)),
             if role.diskWritingEnable != 0 then "" else "#"])
  }

  /**
   * `onmonModules`, `onmonFileEnable`, `onmonFileName` and `demoPrescale` are
   * accepted and not used, as in the script.
   */
  function GenerateAggregatorMain(dataDir: string, bunchSize: string, onmonEnable: int,
                                  diskWritingEnable: int, demoPrescale: string, agIndex: int,
                                  totalAGs: int, fragSizeWords: string, sourcesFhicl: string,
                                  loggerRank: string, dispatcherRank: string,
                                  xmlrpcClientList: string, fileSizeThreshold: string,
                                  fileDuration: string, fileEventCount: string,
                                  onmonEventPrescale: string, onmonModules: string,
                                  onmonFileEnable: string, onmonFileName: string,
                                  withGanglia: string, withMsgFacility: string,
                                  withGraphite: string): string
  {
    var role := ChooseRole(agIndex, totalAGs, onmonEnable, diskWritingEnable);
    var code := AggregatorCode(role, bunchSize, fragSizeWords, sourcesFhicl, xmlrpcClientList,
                               fileSizeThreshold, fileDuration, fileEventCount, onmonEventPrescale,
                               loggerRank, dispatcherRank, withGanglia, withMsgFacility, withGraphite);
    Render(MainDocument(role, code, dataDir, agIndex, totalAGs))
  }

  /**
   * Every aggregator but the last logs data with a deep, patient queue and has
   * its online monitoring switched off when there are several aggregators; the
   * last one is the online monitor, with a shallow queue and disk writing off.
   */
  lemma RoleSelection(agIndex: int, totalAGs: int, onmonEnable: int, diskWritingEnable: int)
    ensures var r := ChooseRole(agIndex, totalAGs, onmonEnable, diskWritingEnable);
            (r.agType == "data_logger" <==> agIndex < totalAGs - 1) &&
            (r.agType == "data_logger" ==>
               r.queueDepth == 20 && r.queueTimeout == 5 &&
               r.diskWritingEnable == diskWritingEnable &&
               r.onmonEnable == (if totalAGs > 1 then 0 else onmonEnable)) &&
            (r.agType == "online_monitor" <==> agIndex >= totalAGs - 1) &&
            (r.agType == "online_monitor" ==>
               r.queueDepth == 2 && r.queueTimeout == 1 &&
               r.diskWritingEnable == 0 && r.onmonEnable == onmonEnable)
  {
  }

  /** Among aggregators 0 .. totalAGs-1 exactly one, the last, is the online monitor. */
  lemma {:induction false} ExactlyOneMonitor(totalAGs: nat, onmonEnable: int, diskWritingEnable: int)
    requires totalAGs >= 1
    ensures |set a | 0 <= a < totalAGs &&
               ChooseRole(a, totalAGs, onmonEnable, diskWritingEnable).agType == "online_monitor"| == 1
  {
    var monitors := set a | 0 <= a < totalAGs &&
                      ChooseRole(a, totalAGs, onmonEnable, diskWritingEnable).agType == "online_monitor";
    forall a | a in monitors ensures a == totalAGs - 1 {
      RoleSelection(a, totalAGs, onmonEnable, diskWritingEnable);
    }
    assert totalAGs - 1 in monitors;
    assert monitors == {totalAGs - 1};
  }

  /** An aggregator writes to disk only if it is not the last one; so a lone aggregator never does. */
  lemma WritersAreDataLoggers(agIndex: int, totalAGs: int, onmonEnable: int, diskWritingEnable: int)
    requires ChooseRole(agIndex, totalAGs, onmonEnable, diskWritingEnable).diskWritingEnable != 0
    ensures agIndex < totalAGs - 1 && diskWritingEnable != 0
  {
  }

  lemma IntToStringInjective(a: int, b: int)
    requires IntToString(a) == IntToString(b)
    ensures a == b
  {
    IntegerOfString(a);
    IntegerOfString(b);
  }

  /** Equal surroundings: the middle parts of two equal concatenations are equal. */
  lemma {:induction false} MiddleEqual(p: string, x: string, y: string, q: string)
    requires p + x + q == p + y + q
    ensures x == y
  {
    assert |x| == |y|;
    assert x == (p + x + q)[|p|..|p| + |x|];
    assert y == (p + y + q)[|p|..|p| + |y|];
  }

  lemma {:induction false} PrefixCancel(p: string, x: string, y: string)
    requires p + x == p + y
    ensures x == y
  {
    assert x == (p + x)[|p|..];
  }

  /**
   * Two different aggregators that both write to disk write different files:
   * with more than two aggregators the index is part of the name, and with at
   * most two only the first one writes.
   */
  lemma {:induction false} WriterFilesDistinct(dataDir: string, a: nat, b: nat, totalAGs: int,
                                               onmonEnable: int, diskWritingEnable: int)
    requires a != b
    requires ChooseRole(a, totalAGs, onmonEnable, diskWritingEnable).diskWritingEnable != 0
    requires ChooseRole(b, totalAGs, onmonEnable, diskWritingEnable).diskWritingEnable != 0
    ensures JoinPath(dataDir, AggregatorFileName(a, totalAGs)) != JoinPath(dataDir, AggregatorFileName(b, totalAGs))
  {
    assert totalAGs > 2;
    var na, nb := AggregatorFileName(a, totalAGs), AggregatorFileName(b, totalAGs);
    var dir := if |dataDir| > 0 && dataDir[|dataDir| - 1] == '/' then dataDir else dataDir + "/";
    assert JoinPath(dataDir, na) == dir + na && JoinPath(dataDir, nb) == dir + nb;
    if dir + na == dir + nb {
      PrefixCancel(dir, na, nb);
      MiddleEqual(FILE_PATTERN, "_" + IntToString(a), "_" + IntToString(b), ".root");
      PrefixCancel("_", IntToString(a), IntToString(b));
      IntToStringInjective(a, b);
    }
  }

  lemma MainTemplateHoles()
    ensures forall n :: Hole(n) in AggregatorMainTemplate() <==> n in MAIN_FILL_ORDER
  {
  }

  /**
   * In the main document `%{aggregator_code}` receives the role's block,
   * `%{output_file}` the file name joined under the data directory, and every
   * `%{root_output}` becomes "" for an aggregator that writes to disk and "#"
   * (commenting the output module out) for every other, including the last;
   * no placeholder is left.
   */
  lemma {:induction false} MainDocumentAt(agIndex: int, totalAGs: int, onmonEnable: int,
                                          diskWritingEnable: int, code: string, dataDir: string, i: int)
    requires 0 <= i < |AggregatorMainTemplate()|
    ensures var t := AggregatorMainTemplate();
            var d := MainDocument(ChooseRole(agIndex, totalAGs, onmonEnable, diskWritingEnable),
                                  code, dataDir, agIndex, totalAGs);
            |d| == |t| && !d[i].Hole? &&
            (t[i].Lit? ==> d[i] == t[i]) &&
            (t[i] == Hole("aggregator_code") ==> d[i] == Lit(code)) &&
            (t[i] == Hole("output_file") ==>
               d[i] == Lit(JoinPath(dataDir, AggregatorFileName(agIndex, totalAGs)))) &&
            (t[i] == Hole("root_output") ==>
               d[i] == Lit(if agIndex < totalAGs - 1 && diskWritingEnable != 0 then "" else "#"))
  {
    var t := AggregatorMainTemplate();
    var role := ChooseRole(agIndex, totalAGs, onmonEnable, diskWritingEnable);
    var text := if agIndex < totalAGs - 1 && diskWritingEnable != 0 then "" else "#";
    assert (if role.diskWritingEnable != 0 then "" else "#") == text;
    var values := [code, JoinPath(dataDir, AggregatorFileName(agIndex, totalAGs)), text];
    MainTemplateHoles();
    FillAllAt(t, MAIN_FILL_ORDER, values, i);
    if t[i] == Hole("aggregator_code") {
      FillAllAtHole(t, MAIN_FILL_ORDER, values, i, 0);
    } else if t[i] == Hole("output_file") {
      FillAllAtHole(t, MAIN_FILL_ORDER, values, i, 1);
    } else if t[i] == Hole("root_output") {
      FillAllAtHole(t, MAIN_FILL_ORDER, values, i, 2);
    }
  }

  /** The decimal text of the two queue settings of each role. */
  lemma QueueSettingsText()
    ensures IntToString(20) == "20" && IntToString(5) == "5"
    ensures IntToString(2) == "2" && IntToString(1) == "1"
  {
    assert NatToString(20) == NatToString(2) + [DigitChar(0)];
  }

  /**
   * The block placed at `%{aggregator_code}` is the one `generateAggregator`
   * builds from queue depth 20, wait time 5 and type data_logger for every
   * aggregator but the last, and from 2, 1 and online_monitor for the last.
   */
  lemma AggregatorCodeOfRole(agIndex: int, totalAGs: int, onmonEnable: int, diskWritingEnable: int,
                             bunchSize: string, fragSizeWords: string,
                             sourcesFhicl: string, xmlrpcClientList: string,
                             fileSizeThreshold: string, fileDuration: string,
                             fileEventCount: string, onmonEventPrescale: string,
                             loggerRank: string, dispatcherRank: string, withGanglia: string,
                             withMsgFacility: string, withGraphite: string)
    ensures var last := agIndex >= totalAGs - 1;
            AggregatorCode(ChooseRole(agIndex, totalAGs, onmonEnable, diskWritingEnable),
                           bunchSize, fragSizeWords, sourcesFhicl, xmlrpcClientList,
                           fileSizeThreshold, fileDuration, fileEventCount, onmonEventPrescale,
                           loggerRank, dispatcherRank, withGanglia, withMsgFacility, withGraphite)
            == GenerateAggregator.GenerateAggregator(
                 bunchSize, fragSizeWords, sourcesFhicl, xmlrpcClientList, fileSizeThreshold,
                 fileDuration, fileEventCount, if last then "2" else "20",
                 if last then "1" else "5", onmonEventPrescale,
                 if last then "online_monitor" else "data_logger", loggerRank,
                 dispatcherRank, withGanglia, withMsgFacility, withGraphite)
  {
    QueueSettingsText();
  }
}
