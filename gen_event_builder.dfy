/**
 * `generateEventBuilder`: the `daq.event_builder` FHiCL block of an event
 * builder process. `verbose` and the sources arrive as text; whether the
 * builder sends data requests is decided from the number `sendRequests`.
 */
module GenerateEventBuilder {

  import opened Templates

  function EventBuilderTemplate(): Template
  {
    [Lit("daq: {\n" + "  event_builder: {\n" + "    expected_fragments_per_event: " + "1\n" + "    use_art: true\n"
       + "    print_event_store_stats: true\n" + "    verbose: "), Hole("verbose"),
     Lit("\n    send_requests: "), Hole("requests_enabled"),
     Lit("\n\n\tsources: {\n\t\t"), Hole("sources_fhicl"),
     Lit("\n" + "\t}\n" + "  }\n" + "  metrics: {\n" + "     ganglia: {\n" + "       metricPluginType: " + "\"ganglia\"\n" + "       level: 3\n"
       + "       reporting_interval: 15.0\n" + "     \n" + "       configFile: " + "\"/home/mu2edaq/daqlogs/gmond.conf\"\n"
       + "       group: \"ARTDAQ\"\n" + "     }\n" + "  }\n" + "} ")]
  }

  /** The placeholders in the order the script replaces them; the first one does not occur. */
  const EB_FILL_ORDER: seq<string> := ["total_fragments", "verbose", "sources_fhicl", "requests_enabled"]

  /** The text of `send_requests`: "true" exactly for a positive request setting. */
  function RequestsEnabled(sendRequests: int): string
  {
    if sendRequests > 0 then "true" else "false"
  }

  function EventBuilderDocument(totalFragments: string, verbose: string, sourcesFhicl: string,
                                sendRequests: int): Template
  {
    FillAll(EventBuilderTemplate(), EB_FILL_ORDER,
            [totalFragments, verbose, sourcesFhicl, RequestsEnabled(sendRequests)])
  }

  /** The three metric switches are accepted and not used, as in the script. */
  function GenerateEventBuilder(totalFragments: string, verbose: string, sourcesFhicl: string,
                                sendRequests: int, withGanglia: int, withMsgFacility: int,
                                withGraphite: int): string
  {
    Render(EventBuilderDocument(totalFragments, verbose, sourcesFhicl, sendRequests))
  }

  /** The document's placeholders are the script's last three; `%{total_fragments}` is not among them. */
  lemma EventBuilderTemplateHoles()
    ensures forall n :: Hole(n) in EventBuilderTemplate() <==> n in EB_FILL_ORDER[1..]
  {
  }

  /**
   * `%{verbose}` receives `verbose`, `%{sources_fhicl}` the sources and
   * `%{requests_enabled}` "true" exactly when `sendRequests` is positive;
   * literal text stays and no placeholder is left.
   */
  lemma {:induction false} EventBuilderDocumentAt(totalFragments: string, verbose: string,
                                                  sourcesFhicl: string, sendRequests: int, i: int)
    requires 0 <= i < |EventBuilderTemplate()|
    ensures var t := EventBuilderTemplate();
            var d := EventBuilderDocument(totalFragments, verbose, sourcesFhicl, sendRequests);
            |d| == |t| && !d[i].Hole? &&
            (t[i].Lit? ==> d[i] == t[i]) &&
            (t[i] == Hole("verbose") ==> d[i] == Lit(verbose)) &&
            (t[i] == Hole("sources_fhicl") ==> d[i] == Lit(sourcesFhicl)) &&
            (t[i] == Hole("requests_enabled") ==>
               d[i] == Lit(if sendRequests > 0 then "true" else "false"))
  {
    var t := EventBuilderTemplate();
    var values := [totalFragments, verbose, sourcesFhicl, RequestsEnabled(sendRequests)];
    EventBuilderTemplateHoles();
    FillAllAt(t, EB_FILL_ORDER, values, i);
    if t[i] == Hole("verbose") {
      FillAllAtHole(t, EB_FILL_ORDER, values, i, 1);
    } else if t[i] == Hole("sources_fhicl") {
      FillAllAtHole(t, EB_FILL_ORDER, values, i, 2);
    } else if t[i] == Hole("requests_enabled") {
      FillAllAtHole(t, EB_FILL_ORDER, values, i, 3);
    }
  }

  /** A replacement for a placeholder a document does not hold changes nothing. */
  lemma FillAbsent(t: Template, name: string, value: string)
    requires Hole(name) !in t
    ensures Fill(t, name, value) == t
  {
  }

  /** `%{total_fragments}`, the first placeholder the script replaces, is not in the document. */
  lemma TotalFragmentsAbsent()
    ensures Hole(EB_FILL_ORDER[0]) !in EventBuilderTemplate()
  {
    EventBuilderTemplateHoles();
    assert EB_FILL_ORDER[0] !in EB_FILL_ORDER[1..];
  }

  /** A first replacement whose placeholder is absent finds nothing to replace. */
  lemma {:induction false} FirstFillIdle(t: Template, names: seq<string>, values: seq<string>)
    requires |names| == |values| && names != [] && Hole(names[0]) !in t
    ensures FillAll(t, names, values) == FillAll(t, names[1..], values[1..])
  {
    FillAbsent(t, names[0], values[0]);
  }

  /** `totalFragments` has no effect on the block: its placeholder is not in the document. */
  lemma {:induction false} TotalFragmentsUnused(f1: string, f2: string, verbose: string,
                                                sourcesFhicl: string, sendRequests: int)
    ensures EventBuilderDocument(f1, verbose, sourcesFhicl, sendRequests) ==
            EventBuilderDocument(f2, verbose, sourcesFhicl, sendRequests)
  {
    var v1 := [f1, verbose, sourcesFhicl, RequestsEnabled(sendRequests)];
    var v2 := [f2, verbose, sourcesFhicl, RequestsEnabled(sendRequests)];
    TotalFragmentsAbsent();
    FirstFillIdle(EventBuilderTemplate(), EB_FILL_ORDER, v1);
    FirstFillIdle(EventBuilderTemplate(), EB_FILL_ORDER, v2);
    assert v1[1..] == v2[1..];
  }
}
