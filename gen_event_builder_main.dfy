/**
 * `generateEventBuilderMain`: the complete FHiCL document of one event
 * builder process. Whether the builder hands its events to aggregators over
 * MPI or writes them to disk itself is decided by the number of aggregators
 * and the disk-writing switch.
 */
module GenerateEventBuilderMain {

  import opened Common
  import opened Templates
  import GenerateEventBuilder
  import GenerateAggregatorMain

  function EbHead(): Template
  {
    [Lit("\n" + "services: {\n" + "  scheduler: {\n" + "    fileMode: NOMERGE\n" + "    errorOnFailureToPut: false\n" + "  }\n"
       + "  NetMonTransportServiceInterface: " + "{\n" + "    service_provider: " + "NetMonTransportService\n"
       + "    #broadcast_sends: true\n" + "\tdestinations: {\t\n" + "\t  "),
     Hole("destinations_fhicl"),
     Lit("\n" + "    }\n" + "  }\n" + "\n" + "  #SimpleMemoryCheck: { }\n" + "}\n" + "\n"),
     Hole("event_builder_code"),
     Lit("\n\noutputs: {\n  ")]
  }

  function EbMpiOutput(): Template
  {
    [Hole("rootmpi_output"), Lit("rootMPIOutput: {\n  "),
     Hole("rootmpi_output"), Lit("  module_type: RootMPIOutput\n" + "  "),
     Hole("rootmpi_output"), Lit("}\n  ")]
  }

  function EbRootOutput(): Template
  {
    [Hole("root_output"), Lit("normalOutput: {\n  "),
     Hole("root_output"), Lit("  module_type: RootOutput\n" + "  "),
     Hole("root_output"), Lit("  fileName: \""), Hole("output_file"), Lit("\"\n  "),
     Hole("root_output"), Lit("}\n" + "}\n" + "\n" + "physics: {\n" + "  analyzers: {\n")]
  }

  function EbPhysics(): Template
  {
    [Hole("phys_anal_ddv_cfg"),
     Lit("\n" + "  }\n" + "\n" + "  producers: {\n" + "  }\n" + "\n" + "  filters: {\n" + "  "),
     Hole("phys_filt_rdf_cfg"),
     Lit("\n" + "  }\n" + "    \n" + "\ta2: [ ddv ]\n" + "\tdelay: [ randomDelay ] \n" + "\n" + "  "),
     Hole("rootmpi_output"), Lit("my_output_modules: [ rootMPIOutput " + "]\n" + "  "),
     Hole("root_output"),
     Lit("my_output_modules: [ normalOutput " + "]\n" + "}\n" + "source: {\n" + "  module_type: Mu2eInput\n"
       + "  waiting_time: 2500000\n" + "  resume_after_timeout: true\n" + "}\n" + "process_name: DAQ")]
  }

  function EventBuilderMainTemplate(): Template
  {
    EbHead() + EbMpiOutput() + EbRootOutput() + EbPhysics()
  }

  /** The placeholders in the order the script replaces them. */
  const EB_MAIN_FILL_ORDER: seq<string> :=
    ["destinations_fhicl", "event_builder_code", "rootmpi_output", "root_output",
     "phys_anal_ddv_cfg", "phys_filt_rdf_cfg", "output_file"]

  /** The event builder is quiet when aggregators follow it. */
  function EbVerbose(totalAGs: int): string
  {
    if totalAGs >= 1 then "false" else "true"
  }

  /** The text put before each line of the MPI output module: "" enables it, "#" comments it out. */
  function MpiOutputPrefix(totalAGs: int): string
  {
    if totalAGs >= 1 then "" else "#"
  }

  /** The text put before each line of the file output module. */
  function RootOutputPrefix(totalAGs: int, diskWritingEnable: int): string
  {
    if totalAGs >= 1 then "#" else if diskWritingEnable != 0 then "" else "#"
  }

  /** Ruby's `"%02d" % i`: at least two characters, padded with a leading zero. */
  function Pad2(i: int): string
  {
    if 0 <= i < 10 then "0" + IntToString(i) else IntToString(i)
  }

  /** The run-number and time patterns are expanded later by the output module. */
  const EB_FILE_PREFIX: string := "mu2e_artdaq_eb"
  const EB_FILE_SUFFIX: string := "_" + "r%06r_sr%02s_%to" + ".root"

  function EbFileName(ebIndex: int): string
  {
    EB_FILE_PREFIX + Pad2(ebIndex) + EB_FILE_SUFFIX
  }

  /**
   * The main document once the event builder block `code` is known;
   * `filterSimFcl` is the text of the file Mu2eFilterSim.fcl.
   */
  function EbMainDocument(ebIndex: int, totalAGs: int, dataDir: string, diskWritingEnable: int,
                          code: string, fclDDV: string, destinationsFhicl: string,
                          filterSimFcl: string): Template
  {
    FillAll(EventBuilderMainTemplate(), EB_MAIN_FILL_ORDER,
            [destinationsFhicl, code, MpiOutputPrefix(totalAGs),
             RootOutputPrefix(totalAGs, diskWritingEnable), fclDDV, "" + filterSimFcl,
             GenerateAggregatorMain.JoinPath(dataDir, EbFileName(ebIndex))])
  }

  /** `onmonEnable` is accepted and not used, as in the script. */
  function GenerateEventBuilderMain(ebIndex: int, totalAGs: int, dataDir: string, onmonEnable: int,
                                    diskWritingEnable: int, totalFragments: string, fclDDV: string,
                                    sourcesFhicl: string, destinationsFhicl: string,
                                    sendRequests: int, withGanglia: int, withMsgFacility: int,
                                    withGraphite: int, filterSimFcl: string): string
  {
    var code := GenerateEventBuilder.GenerateEventBuilder(
      totalFragments, EbVerbose(totalAGs), sourcesFhicl, sendRequests,
      withGanglia, withMsgFacility, withGraphite);
    Render(EbMainDocument(ebIndex, totalAGs, dataDir, diskWritingEnable, code, fclDDV,
                          destinationsFhicl, filterSimFcl))
  }

  lemma EbMainTemplateHoles()
    ensures forall n :: Hole(n) in EventBuilderMainTemplate() <==> n in EB_MAIN_FILL_ORDER
  {
    var t := EventBuilderMainTemplate();
    assert t[1] == Hole("destinations_fhicl") && t[3] == Hole("event_builder_code");
    assert t[5] == Hole("rootmpi_output") && t[11] == Hole("root_output");
    assert t[17] == Hole("output_file") && t[21] == Hole("phys_anal_ddv_cfg");
    assert t[23] == Hole("phys_filt_rdf_cfg");
  }

  lemma EbMainTemplateHoleNamed(i: int)
    requires 0 <= i < |EventBuilderMainTemplate()|
    ensures EventBuilderMainTemplate()[i].Hole? ==> EventBuilderMainTemplate()[i].name in EB_MAIN_FILL_ORDER
  {
    EbMainTemplateHoles();
  }

  /** Each placeholder of the fill order picks its own case of `EbValue`. */
  lemma EbValueByName(ebIndex: int, totalAGs: int, dataDir: string, diskWritingEnable: int,
                      code: string, fclDDV: string, destinationsFhicl: string, filterSimFcl: string)
    ensures EbValue("destinations_fhicl", ebIndex, totalAGs, dataDir, diskWritingEnable, code, fclDDV,
                    destinationsFhicl, filterSimFcl) == destinationsFhicl
    ensures EbValue("event_builder_code", ebIndex, totalAGs, dataDir, diskWritingEnable, code, fclDDV,
                    destinationsFhicl, filterSimFcl) == code
    ensures EbValue("rootmpi_output", ebIndex, totalAGs, dataDir, diskWritingEnable, code, fclDDV,
                    destinationsFhicl, filterSimFcl) == (if totalAGs >= 1 then "" else "#")
    ensures EbValue("root_output", ebIndex, totalAGs, dataDir, diskWritingEnable, code, fclDDV,
                    destinationsFhicl, filterSimFcl) == (if totalAGs < 1 && diskWritingEnable != 0 then "" else "#")
    ensures EbValue("phys_anal_ddv_cfg", ebIndex, totalAGs, dataDir, diskWritingEnable, code, fclDDV,
                    destinationsFhicl, filterSimFcl) == fclDDV
    ensures EbValue("phys_filt_rdf_cfg", ebIndex, totalAGs, dataDir, diskWritingEnable, code, fclDDV,
                    destinationsFhicl, filterSimFcl) == filterSimFcl
    ensures EbValue("output_file", ebIndex, totalAGs, dataDir, diskWritingEnable, code, fclDDV,
                    destinationsFhicl, filterSimFcl) == GenerateAggregatorMain.JoinPath(dataDir, EbFileName(ebIndex))
  {
  }

  /** The value the script gives each placeholder of the main document. */
  function EbValue(name: string, ebIndex: int, totalAGs: int, dataDir: string,
                   diskWritingEnable: int, code: string, fclDDV: string,
                   destinationsFhicl: string, filterSimFcl: string): string
  {
    match name
    case "destinations_fhicl" => destinationsFhicl
    case "event_builder_code" => code
    case "rootmpi_output" => if totalAGs >= 1 then "" else "#"
    case "root_output" => if totalAGs < 1 && diskWritingEnable != 0 then "" else "#"
    case "phys_anal_ddv_cfg" => fclDDV
    case "phys_filt_rdf_cfg" => filterSimFcl
    case "output_file" => GenerateAggregatorMain.JoinPath(dataDir, EbFileName(ebIndex))
    case _ => "%{" + name + "}"
  }

  /** No placeholder occurs twice in the fill order. */
  lemma FillOrderDistinct(k: int)
    requires 0 <= k < |EB_MAIN_FILL_ORDER|
    ensures EB_MAIN_FILL_ORDER[k] !in EB_MAIN_FILL_ORDER[..k]
  {
  }

  /** A placeholder of the fill order gets the value at its own position. */
  lemma FillOrderLookup(values: seq<string>, k: int)
    requires |values| == |EB_MAIN_FILL_ORDER| && 0 <= k < |EB_MAIN_FILL_ORDER|
    ensures Lookup(EB_MAIN_FILL_ORDER, values, EB_MAIN_FILL_ORDER[k]) == Some(values[k])
  {
    FillOrderDistinct(k);
    LookupAt(EB_MAIN_FILL_ORDER, values, k);
  }

  /** Looking a placeholder up in the fill order yields its `EbValue`. */
  lemma EbLookup(ebIndex: int, totalAGs: int, dataDir: string, diskWritingEnable: int,
                 code: string, fclDDV: string, destinationsFhicl: string, filterSimFcl: string,
                 name: string)
    requires name in EB_MAIN_FILL_ORDER
    ensures Lookup(EB_MAIN_FILL_ORDER,
                   [destinationsFhicl, code, MpiOutputPrefix(totalAGs),
                    RootOutputPrefix(totalAGs, diskWritingEnable), fclDDV, "" + filterSimFcl,
                    GenerateAggregatorMain.JoinPath(dataDir, EbFileName(ebIndex))], name)
            == Some(EbValue(name, ebIndex, totalAGs, dataDir, diskWritingEnable, code, fclDDV,
                            destinationsFhicl, filterSimFcl))
  {
    var values := [destinationsFhicl, code, MpiOutputPrefix(totalAGs),
                   RootOutputPrefix(totalAGs, diskWritingEnable), fclDDV, "" + filterSimFcl,
                   GenerateAggregatorMain.JoinPath(dataDir, EbFileName(ebIndex))];
    assert "" + filterSimFcl == filterSimFcl;
    var k :| 0 <= k < |EB_MAIN_FILL_ORDER| && EB_MAIN_FILL_ORDER[k] == name;
    FillOrderLookup(values, k);
    EbValueByName(ebIndex, totalAGs, dataDir, diskWritingEnable, code, fclDDV, destinationsFhicl,
                  filterSimFcl);
    if k == 0 {
      assert name == "destinations_fhicl";
    } else if k == 1 {
      assert name == "event_builder_code";
    } else if k == 2 {
      assert name == "rootmpi_output";
    } else if k == 3 {
      assert name == "root_output";
    } else if k == 4 {
      assert name == "phys_anal_ddv_cfg";
    } else if k == 5 {
      assert name == "phys_filt_rdf_cfg";
    } else {
      assert name == "output_file";
    }
  }

  /**
   * In the main document every placeholder receives the value `EbValue`
   * gives it: the destinations, the event builder block, the DDV and filter
   * configurations, the output file joined under the data directory, and the
   * two output-module prefixes chosen from the number of aggregators and the
   * disk-writing switch; literal text stays and no placeholder is left.
   */
  lemma {:induction false} EbMainDocumentAt(ebIndex: int, totalAGs: int, dataDir: string,
                                            diskWritingEnable: int, code: string, fclDDV: string,
                                            destinationsFhicl: string, filterSimFcl: string, i: int)
    requires 0 <= i < |EventBuilderMainTemplate()|
    ensures |EbMainDocument(ebIndex, totalAGs, dataDir, diskWritingEnable, code, fclDDV,
                            destinationsFhicl, filterSimFcl)| == |EventBuilderMainTemplate()|
    ensures EventBuilderMainTemplate()[i].Lit? ==>
              EbMainDocument(ebIndex, totalAGs, dataDir, diskWritingEnable, code, fclDDV,
                             destinationsFhicl, filterSimFcl)[i] == EventBuilderMainTemplate()[i]
    ensures EventBuilderMainTemplate()[i].Hole? ==>
              EbMainDocument(ebIndex, totalAGs, dataDir, diskWritingEnable, code, fclDDV,
                             destinationsFhicl, filterSimFcl)[i] ==
              Lit(EbValue(EventBuilderMainTemplate()[i].name, ebIndex, totalAGs, dataDir,
                          diskWritingEnable, code, fclDDV, destinationsFhicl, filterSimFcl))
  {
    var t := EventBuilderMainTemplate();
    var values := [destinationsFhicl, code, MpiOutputPrefix(totalAGs),
                   RootOutputPrefix(totalAGs, diskWritingEnable), fclDDV, "" + filterSimFcl,
                   GenerateAggregatorMain.JoinPath(dataDir, EbFileName(ebIndex))];
    EbMainTemplateHoleNamed(i);
    FillAllAt(t, EB_MAIN_FILL_ORDER, values, i);
    if t[i].Hole? {
      EbLookup(ebIndex, totalAGs, dataDir, diskWritingEnable, code, fclDDV, destinationsFhicl,
               filterSimFcl, t[i].name);
    }
  }

  /**
   * At most one of the two output modules is enabled: the MPI output exactly
   * when there are aggregators, the file output exactly when there are none
   * and disk writing is on.
   */
  lemma OutputModuleChoice(totalAGs: int, diskWritingEnable: int)
    ensures MpiOutputPrefix(totalAGs) == "" <==> totalAGs >= 1
    ensures RootOutputPrefix(totalAGs, diskWritingEnable) == "" <==> totalAGs < 1 && diskWritingEnable != 0
    ensures MpiOutputPrefix(totalAGs) == "#" || RootOutputPrefix(totalAGs, diskWritingEnable) == "#"
  {
  }

  /** The block at `%{event_builder_code}` is built with verbose "false" exactly when aggregators follow. */
  lemma EventBuilderCodeVerbose(totalAGs: int, totalFragments: string, sourcesFhicl: string,
                                sendRequests: int, withGanglia: int, withMsgFacility: int,
                                withGraphite: int)
    ensures GenerateEventBuilder.GenerateEventBuilder(
              totalFragments, EbVerbose(totalAGs), sourcesFhicl, sendRequests,
              withGanglia, withMsgFacility, withGraphite)
            == GenerateEventBuilder.GenerateEventBuilder(
              totalFragments, if totalAGs < 1 then "true" else "false", sourcesFhicl, sendRequests,
              withGanglia, withMsgFacility, withGraphite)
  {
  }

  /** Two-digit padding loses nothing: different indices give different texts. */
  lemma {:induction false} Pad2Injective(a: int, b: int)
    requires Pad2(a) == Pad2(b)
    ensures a == b
  {
    if 0 <= a < 10 && 0 <= b < 10 {
      GenerateAggregatorMain.PrefixCancel("0", IntToString(a), IntToString(b));
      GenerateAggregatorMain.IntToStringInjective(a, b);
    } else if !(0 <= a < 10) && !(0 <= b < 10) {
      GenerateAggregatorMain.IntToStringInjective(a, b);
    }
  }

  /** Different event builders write different files in the same data directory. */
  lemma {:induction false} EbFilesDistinct(dataDir: string, a: int, b: int)
    requires a != b
    ensures GenerateAggregatorMain.JoinPath(dataDir, EbFileName(a)) !=
            GenerateAggregatorMain.JoinPath(dataDir, EbFileName(b))
  {
    var na, nb := EbFileName(a), EbFileName(b);
    var dir := if |dataDir| > 0 && dataDir[|dataDir| - 1] == '/' then dataDir else dataDir + "/";
    assert GenerateAggregatorMain.JoinPath(dataDir, na) == dir + na;
    assert GenerateAggregatorMain.JoinPath(dataDir, nb) == dir + nb;
    if dir + na == dir + nb {
      GenerateAggregatorMain.PrefixCancel(dir, na, nb);
      GenerateAggregatorMain.MiddleEqual(EB_FILE_PREFIX, Pad2(a), Pad2(b), EB_FILE_SUFFIX);
      Pad2Injective(a, b);
    }
  }
}
