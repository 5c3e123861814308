/**
 * `generateFragmentReceiver`: the FHiCL block that configures a board
 * reader's fragment generator. The generator class is chosen from the
 * fragment type, and the generator-specific part is read from a file named
 * after it unless a file is given.
 *
 * Reading a `.fcl` file is I/O; it is the parameter `readFcl`, which gives a
 * file's text with its `%{...}` placeholders as template pieces, so that the
 * script's replacements reach placeholders in the files as well.
 */
module GenerateFragmentReceiver {

  import opened Common
  import opened Templates

  /** The generator class for a fragment type; None is Ruby's nil. */
  function GeneratorFor(fragmentType: string): (g: Option<string>)
    ensures g == Some("Mu2eReceiver") <==> fragmentType == "MU2E"
    ensures g == Some("DTCReceiver") <==> fragmentType == "DTC"
    ensures g.None? <==> fragmentType != "MU2E" && fragmentType != "DTC"
  {
    if fragmentType == "MU2E" then Some("Mu2eReceiver")
    else if fragmentType == "DTC" then Some("DTCReceiver")
    else None
  }

  /**
   * The file holding the generator-specific configuration: the one given,
   * else the generator's name with ".fcl"; None where the script raises
   * (`nil + ".fcl"` for an unknown type without a file).
   */
  function ConfigDocName(fragmentType: string, configDoc: Option<string>): (r: Option<string>)
    ensures configDoc.Some? ==> r == configDoc
    ensures configDoc.None? && fragmentType == "MU2E" ==> r == Some("Mu2eReceiver" + ".fcl")
    ensures configDoc.None? && fragmentType == "DTC" ==> r == Some("DTCReceiver" + ".fcl")
    ensures r.None? <==> configDoc.None? && fragmentType != "MU2E" && fragmentType != "DTC"
  {
    if configDoc.Some? then configDoc
    else match GeneratorFor(fragmentType)
      case Some(g) => Some(g + ".fcl")
      case None => None
  }

  /** The generated parameters between the two files' texts. */
  function GeneratedParameters(): Template
  {
    [Lit("\n" + "\n" + "    # Generated Parameters: \n" + "    generator: "), Hole("generator"),
     Lit("\n    fragment_type: "), Hole("fragment_type"),
     Lit("\n    fragment_id: "), Hole("starting_fragment_id"),
     Lit("\n    board_id: "), Hole("board_id"),
     Lit("\n" + "    starting_fragment_id: "), Hole("starting_fragment_id"),
     Lit("\n" + "\t\n" + "    ring_0_roc_count: 1     " + "ring_0_timing_enabled: false     "
       + "ring_0_roc_emulator_enabled: true    " + " debug_print: false     sim_mode: "),
     Hole("simulation_mode"),
     Lit(" \n" + "    # Generator-Specific " + "Configuration:\n" + "    ")]
  }

  /** The document before any replacement: the common generator file, the parameters, the specific file. */
  function ReceiverTemplate(commandable: Template, specific: Template): Template
  {
    [Lit("# CommandableFragmentGenerator " + "Configuration: ")] + commandable
      + GeneratedParameters() + specific
  }

  const RECEIVER_FILL_ORDER: seq<string> :=
    ["generator", "fragment_type", "starting_fragment_id", "board_id", "simulation_mode",
     "use_sim_file", "sim_file"]

  /** The text of `%{use_sim_file}`: "" keeps the lines it prefixes, "#" comments them out. */
  function UseSimFilePrefix(useSimFile: int): string
  {
    if useSimFile != 0 then "" else "#"
  }

  /** Ruby's `String(x)` of an optional string: nil prints as "". */
  function OptionText(o: Option<string>): string
  {
    match o case Some(s) => s case None => ""
  }

  /**
   * The generator's FHiCL block, or None where the script raises. The ids and
   * the simulation mode arrive as the text `String()` makes of them.
   */
  function GenerateFragmentReceiver(startingFragmentId: string, boardId: string,
                                    fragmentType: string, configDoc: Option<string>,
                                    simMode: string, useSimFile: int, simFile: string,
                                    readFcl: string -> Template): Option<string>
  {
    match ConfigDocName(fragmentType, configDoc)
    case None => None
    case Some(doc) =>
      Some(Render(FillAll(ReceiverTemplate(readFcl("CommandableFragmentGenerator.fcl"), readFcl(doc)),
                          RECEIVER_FILL_ORDER,
                          [OptionText(GeneratorFor(fragmentType)), fragmentType, startingFragmentId,
                           boardId, simMode, UseSimFilePrefix(useSimFile), simFile])))
  }

  /** The value the script gives each placeholder it replaces. */
  function ReceiverValue(name: string, startingFragmentId: string, boardId: string,
                         fragmentType: string, simMode: string, useSimFile: int,
                         simFile: string): string
  {
    match name
    case "generator" => OptionText(GeneratorFor(fragmentType))
    case "fragment_type" => fragmentType
    case "starting_fragment_id" => startingFragmentId
    case "board_id" => boardId
    case "simulation_mode" => simMode
    case "use_sim_file" => if useSimFile != 0 then "" else "#"
    case "sim_file" => simFile
    case _ => "%{" + name + "}"
  }

  lemma ReceiverLookup(startingFragmentId: string, boardId: string, fragmentType: string,
                       simMode: string, useSimFile: int, simFile: string, name: string)
    requires name in RECEIVER_FILL_ORDER
    ensures Lookup(RECEIVER_FILL_ORDER,
                   [OptionText(GeneratorFor(fragmentType)), fragmentType, startingFragmentId,
                    boardId, simMode, UseSimFilePrefix(useSimFile), simFile], name)
            == Some(ReceiverValue(name, startingFragmentId, boardId, fragmentType, simMode,
                                  useSimFile, simFile))
  {
    var values := [OptionText(GeneratorFor(fragmentType)), fragmentType, startingFragmentId,
                   boardId, simMode, UseSimFilePrefix(useSimFile), simFile];
    var k :| 0 <= k < |RECEIVER_FILL_ORDER| && RECEIVER_FILL_ORDER[k] == name;
    LookupAt(RECEIVER_FILL_ORDER, values, k);
  }

  /**
   * Wherever the assembled document (both files included) holds one of the
   * seven placeholders, the result holds `ReceiverValue` of it: in particular
   * `fragment_id` and `starting_fragment_id` both receive the starting id;
   * every other piece, a placeholder the script does not replace included,
   * is kept.
   */
  lemma {:induction false} ReceiverDocumentAt(startingFragmentId: string, boardId: string,
                                              fragmentType: string, simMode: string,
                                              useSimFile: int, simFile: string,
                                              commandable: Template, specific: Template, i: int)
    requires 0 <= i < |ReceiverTemplate(commandable, specific)|
    ensures var t := ReceiverTemplate(commandable, specific);
            var d := FillAll(t, RECEIVER_FILL_ORDER,
                             [OptionText(GeneratorFor(fragmentType)), fragmentType,
                              startingFragmentId, boardId, simMode, UseSimFilePrefix(useSimFile),
                              simFile]);
            |d| == |t| &&
            (t[i].Hole? && t[i].name in RECEIVER_FILL_ORDER ==>
               d[i] == Lit(ReceiverValue(t[i].name, startingFragmentId, boardId, fragmentType,
                                         simMode, useSimFile, simFile))) &&
            (!(t[i].Hole? && t[i].name in RECEIVER_FILL_ORDER) ==> d[i] == t[i])
  {
    var t := ReceiverTemplate(commandable, specific);
    var values := [OptionText(GeneratorFor(fragmentType)), fragmentType, startingFragmentId,
                   boardId, simMode, UseSimFilePrefix(useSimFile), simFile];
    FillAllAt(t, RECEIVER_FILL_ORDER, values, i);
    if t[i].Hole? && t[i].name in RECEIVER_FILL_ORDER {
      ReceiverLookup(startingFragmentId, boardId, fragmentType, simMode, useSimFile, simFile,
                     t[i].name);
    }
  }

  /** The parameters block: its two id lines both carry the starting id. */
  lemma GeneratedParameterIds()
    ensures GeneratedParameters()[5] == Hole("starting_fragment_id")
    ensures GeneratedParameters()[9] == Hole("starting_fragment_id")
    ensures GeneratedParameters()[4] == Lit("\n    fragment_id: ")
    ensures GeneratedParameters()[8] == Lit("\n" + "    starting_fragment_id: ")
    ensures GeneratedParameters()[7] == Hole("board_id")
  {
  }

  /**
   * The script fails exactly for an unknown fragment type without a file;
   * for a known type the `generator:` line names the class, for an unknown
   * type with a file it is empty.
   */
  lemma ReceiverFailsOnlyWithoutGenerator(startingFragmentId: string, boardId: string,
                                          fragmentType: string, configDoc: Option<string>,
                                          simMode: string, useSimFile: int, simFile: string,
                                          readFcl: string -> Template)
    ensures GenerateFragmentReceiver(startingFragmentId, boardId, fragmentType, configDoc, simMode,
                                     useSimFile, simFile, readFcl).None?
            <==> configDoc.None? && fragmentType != "MU2E" && fragmentType != "DTC"
    ensures ReceiverValue("generator", startingFragmentId, boardId, fragmentType, simMode,
                          useSimFile, simFile)
            == (if fragmentType == "MU2E" then "Mu2eReceiver"
                else if fragmentType == "DTC" then "DTCReceiver" else "")
  {
  }
}
