/**
 * `generateAggregator`: the `daq.aggregator` FHiCL block of an aggregator
 * process, produced by filling the placeholders of a fixed document.
 * Every argument arrives as the text that Ruby's `String()` makes of it.
 */
module GenerateAggregator {

  import opened Templates

  function Head(): Template
  {
    [Lit("daq: {\n" + "  aggregator: {\n" + "    expected_events_per_bunch: "), Hole("bunch_size"),
     Lit("\n" + "    print_event_store_stats: true\n" + "    event_queue_depth: "), Hole("queue_depth"),
     Lit("\n" + "    event_queue_wait_time: "), Hole("queue_timeout"),
     Lit("\n" + "    onmon_event_prescale: "), Hole("onmon_event_prescale")]
  }

  function Middle(): Template
  {
    [Lit("\n" + "    xmlrpc_client_list: \""), Hole("xmlrpc_client_list"),
     Lit("\"\n    file_size_MB: "), Hole("file_size"),
     Lit("\n    file_duration: "), Hole("file_duration"),
     Lit("\n    file_event_count: "), Hole("file_event_count")]
  }

  function Tail(): Template
  {
    [Lit("\n    "), Hole("ag_type_param_name"),
     Lit(": true\n" + "\n" + "\tsources: {\n" + "\t\t"), Hole("sources_fhicl"),
     Lit("\n\t}\n" + "  }\n" + "\n" + "  metrics: {\n" + "     ganglia: {\n" + "       metricPluginType: " + "\"ganglia\"\n"
         + "       level: 3\n" + "       reporting_interval: 15.0\n" + "     \n"
         + "       configFile: " + "\"/home/mu2edaq/daqlogs/gmond.conf\"\n" + "      group: \"ARTDAQ\"\n" + "    }\n"
         + "  }\n" + "\n" + "  transfer_to_dispatcher: {\n" + "    transferPluginType: Shmem\n" + "\tsource_rank: "),
     Hole("logger_rank"),
     Lit("\n\tdestination_rank: "), Hole("dispatcher_rank"),
     Lit("\n" + "    max_fragment_size_words: "), Hole("size_words"),
     Lit("\n  }\n\n}")]
  }

  /** The fixed document with its thirteen placeholders. */
  function AggregatorTemplate(): Template { Head() + Middle() + Tail() }

  /** The placeholders in the order the script replaces them. */
  const FILL_ORDER: seq<string> :=
    ["sources_fhicl", "size_words", "bunch_size", "queue_depth", "queue_timeout",
     "onmon_event_prescale", "xmlrpc_client_list", "file_size", "file_duration",
     "file_event_count", "ag_type_param_name", "logger_rank", "dispatcher_rank"]

  /** The name of the boolean role parameter the block sets to true. */
  function AgTypeParamName(agType: string): string
  {
    if agType == "online_monitor" then "is_dispatcher" else "is_data_logger"
  }

  /**
   * The filled document. `withGanglia`, `withMsgFacility` and `withGraphite`
   * are accepted and not used, as in the script.
   */
  function AggregatorDocument(bunchSize: string, fragSizeWords: string, sourcesFhicl: string,
                              xmlrpcClientList: string, fileSizeThreshold: string, fileDuration: string,
                              fileEventCount: string, queueDepth: string, queueTimeout: string,
                              onmonEventPrescale: string, agType: string, loggerRank: string,
                              dispatcherRank: string,
                              withGanglia: string, withMsgFacility: string, withGraphite: string): Template
  {
    FillAll(AggregatorTemplate(), FILL_ORDER,
            [sourcesFhicl, fragSizeWords, bunchSize, queueDepth, queueTimeout,
             onmonEventPrescale, xmlrpcClientList, fileSizeThreshold, fileDuration,
             fileEventCount, AgTypeParamName(agType), loggerRank, dispatcherRank])
  }

  function GenerateAggregator(bunchSize: string, fragSizeWords: string, sourcesFhicl: string,
                              xmlrpcClientList: string, fileSizeThreshold: string, fileDuration: string,
                              fileEventCount: string, queueDepth: string, queueTimeout: string,
                              onmonEventPrescale: string, agType: string, loggerRank: string,
                              dispatcherRank: string,
                              withGanglia: string, withMsgFacility: string, withGraphite: string): string
  {
    Render(AggregatorDocument(bunchSize, fragSizeWords, sourcesFhicl, xmlrpcClientList,
                              fileSizeThreshold, fileDuration, fileEventCount, queueDepth,
                              queueTimeout, onmonEventPrescale, agType, loggerRank, dispatcherRank,
                              withGanglia, withMsgFacility, withGraphite))
  }

  /** The document's placeholders are exactly the thirteen the script replaces. */
  lemma TemplateHoles()
    ensures forall n :: Hole(n) in AggregatorTemplate() <==> n in FILL_ORDER
  {
  }

  /** No placeholder of the document survives into the generated block. */
  lemma AggregatorComplete(bunchSize: string, fragSizeWords: string, sourcesFhicl: string,
                           xmlrpcClientList: string, fileSizeThreshold: string, fileDuration: string,
                           fileEventCount: string, queueDepth: string, queueTimeout: string,
                           onmonEventPrescale: string, agType: string, loggerRank: string,
                           dispatcherRank: string,
                           withGanglia: string, withMsgFacility: string, withGraphite: string)
    ensures forall n :: Hole(n) !in AggregatorDocument(bunchSize, fragSizeWords, sourcesFhicl, xmlrpcClientList,
                                         fileSizeThreshold, fileDuration, fileEventCount, queueDepth,
                                         queueTimeout, onmonEventPrescale, agType, loggerRank,
                                         dispatcherRank, withGanglia, withMsgFacility, withGraphite)
  {
    TemplateHoles();
    FillAllComplete(AggregatorTemplate(), FILL_ORDER,
                    [sourcesFhicl, fragSizeWords, bunchSize, queueDepth, queueTimeout,
                     onmonEventPrescale, xmlrpcClientList, fileSizeThreshold, fileDuration,
                     fileEventCount, AgTypeParamName(agType), loggerRank, dispatcherRank]);
  }

  /**
   * The role parameter is named `is_dispatcher` exactly for an online monitor,
   * and `is_data_logger` for every other aggregator type.
   */
  lemma AggregatorRoleParam(bunchSize: string, fragSizeWords: string, sourcesFhicl: string,
                            xmlrpcClientList: string, fileSizeThreshold: string, fileDuration: string,
                            fileEventCount: string, queueDepth: string, queueTimeout: string,
                            onmonEventPrescale: string, agType: string, loggerRank: string,
                            dispatcherRank: string,
                            withGanglia: string, withMsgFacility: string, withGraphite: string, i: int)
    requires 0 <= i < |AggregatorTemplate()| && AggregatorTemplate()[i] == Hole("ag_type_param_name")
    ensures AggregatorDocument(bunchSize, fragSizeWords, sourcesFhicl, xmlrpcClientList,
                               fileSizeThreshold, fileDuration, fileEventCount, queueDepth,
                               queueTimeout, onmonEventPrescale, agType, loggerRank,
                               dispatcherRank, withGanglia, withMsgFacility, withGraphite)[i]
            == Lit(if agType == "online_monitor" then "is_dispatcher" else "is_data_logger")
  {
    FillAllAtHole(AggregatorTemplate(), FILL_ORDER,
                  [sourcesFhicl, fragSizeWords, bunchSize, queueDepth, queueTimeout,
                   onmonEventPrescale, xmlrpcClientList, fileSizeThreshold, fileDuration,
                   fileEventCount, AgTypeParamName(agType), loggerRank, dispatcherRank], i, 10);
  }

  /** The queue depth lands in its own placeholder. */
  lemma AggregatorQueueDepth(bunchSize: string, fragSizeWords: string, sourcesFhicl: string,
                              xmlrpcClientList: string, fileSizeThreshold: string, fileDuration: string,
                              fileEventCount: string, queueDepth: string, queueTimeout: string,
                              onmonEventPrescale: string, agType: string, loggerRank: string,
                              dispatcherRank: string,
                              withGanglia: string, withMsgFacility: string, withGraphite: string, i: int)
    requires 0 <= i < |AggregatorTemplate()| && AggregatorTemplate()[i] == Hole("queue_depth")
    ensures AggregatorDocument(bunchSize, fragSizeWords, sourcesFhicl, xmlrpcClientList,
                               fileSizeThreshold, fileDuration, fileEventCount, queueDepth,
                               queueTimeout, onmonEventPrescale, agType, loggerRank,
                               dispatcherRank, withGanglia, withMsgFacility, withGraphite)[i] == Lit(queueDepth)
  {
    FillAllAtHole(AggregatorTemplate(), FILL_ORDER,
                  [sourcesFhicl, fragSizeWords, bunchSize, queueDepth, queueTimeout,
                   onmonEventPrescale, xmlrpcClientList, fileSizeThreshold, fileDuration,
                   fileEventCount, AgTypeParamName(agType), loggerRank, dispatcherRank], i, 3);
  }

  /** The queue wait time lands in its own placeholder. */
  lemma AggregatorQueueTimeout(bunchSize: string, fragSizeWords: string, sourcesFhicl: string,
                              xmlrpcClientList: string, fileSizeThreshold: string, fileDuration: string,
                              fileEventCount: string, queueDepth: string, queueTimeout: string,
                              onmonEventPrescale: string, agType: string, loggerRank: string,
                              dispatcherRank: string,
                              withGanglia: string, withMsgFacility: string, withGraphite: string, i: int)
    requires 0 <= i < |AggregatorTemplate()| && AggregatorTemplate()[i] == Hole("queue_timeout")
    ensures AggregatorDocument(bunchSize, fragSizeWords, sourcesFhicl, xmlrpcClientList,
                               fileSizeThreshold, fileDuration, fileEventCount, queueDepth,
                               queueTimeout, onmonEventPrescale, agType, loggerRank,
                               dispatcherRank, withGanglia, withMsgFacility, withGraphite)[i] == Lit(queueTimeout)
  {
    FillAllAtHole(AggregatorTemplate(), FILL_ORDER,
                  [sourcesFhicl, fragSizeWords, bunchSize, queueDepth, queueTimeout,
                   onmonEventPrescale, xmlrpcClientList, fileSizeThreshold, fileDuration,
                   fileEventCount, AgTypeParamName(agType), loggerRank, dispatcherRank], i, 4);
  }
}
