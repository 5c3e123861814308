/**
 * `ConfigGen` in the run-control script: the FHiCL document of a BoardReader
 * that reads out several boards at once (a composite of the boards' own
 * documents), and the list of XML-RPC clients handed to the aggregators.
 */
module ConfigGen {

  import opened Common
  import opened Templates
  import opened CommandLineParser

  /** ASCII upper case, the folding of a case-insensitive regular expression. */
  function Upper(c: char): char
  {
    if 'a' <= c <= 'z' then (c as int - 32) as char else c
  }

  function UpperAll(s: string): (r: string)
    ensures |r| == |s| && forall k :: 0 <= k < |s| ==> r[k] == Upper(s[k])
  {
    seq(|s|, k requires 0 <= k < |s| => Upper(s[k]))
  }

  const BEGIN_PROLOG: string := "BEGIN_PROLOG"
  const END_PROLOG: string := "END_PROLOG"

  /** `marker` (written in upper case) occurs at position `i` of `s`, ignoring case. */
  predicate MarkerAt(s: string, i: nat, marker: string)
  {
    i + |marker| <= |s| && UpperAll(s[i..i + |marker|]) == marker
  }

  /** The last position not after `limit` where `marker` occurs. */
  function LastMarker(s: string, marker: string, limit: nat): (r: Option<nat>)
    ensures r.Some? ==> r.value <= limit && MarkerAt(s, r.value, marker)
    ensures r.Some? ==> forall j :: r.value < j <= limit ==> !MarkerAt(s, j, marker)
    ensures r.None? ==> forall j :: 0 <= j <= limit ==> !MarkerAt(s, j, marker)
    decreases limit
  {
    if MarkerAt(s, limit, marker) then Some(limit)
    else if limit == 0 then None
    else LastMarker(s, marker, limit - 1)
  }

  /**
   * The match of `/(.*)BEGIN_PROLOG(.*)END_PROLOG(.*)/im`: the text before
   * the prolog, the prolog and the text after it. Both `.*` in front are
   * greedy, so the match takes the last END_PROLOG and the last BEGIN_PROLOG
   * that ends before it.
   */
  function PrologSplit(s: string): Option<(string, string, string)>
  {
    match LastMarker(s, END_PROLOG, |s|)
    case None => None
    case Some(e) =>
      if e < 12 then None
      else match LastMarker(s, BEGIN_PROLOG, e - 12)
           case None => None
           case Some(b) => Some((s[..b], s[b + 12..e], s[e + 10..]))
  }

  /** The split exists exactly when some BEGIN_PROLOG is followed by an END_PROLOG. */
  lemma PrologSplitExists(s: string)
    ensures PrologSplit(s).Some? <==>
            exists b: nat, e: nat :: b + 12 <= e && MarkerAt(s, b, BEGIN_PROLOG) && MarkerAt(s, e, END_PROLOG)
  {
    if exists b: nat, e: nat :: b + 12 <= e && MarkerAt(s, b, BEGIN_PROLOG) && MarkerAt(s, e, END_PROLOG) {
      var b: nat, e: nat :| b + 12 <= e && MarkerAt(s, b, BEGIN_PROLOG) && MarkerAt(s, e, END_PROLOG);
      var last := LastMarker(s, END_PROLOG, |s|);
      assert last.Some? && e <= last.value;
      assert LastMarker(s, BEGIN_PROLOG, last.value - 12).Some?;
    }
  }

  /**
   * The split is the greedy match: the three parts and the two markers put
   * back together give the document, no END_PROLOG follows the chosen one,
   * and no BEGIN_PROLOG lies between the chosen markers.
   */
  lemma PrologSplitIsGreedy(s: string)
    requires PrologSplit(s).Some?
    ensures var (before, prolog, after) := PrologSplit(s).value;
            var b := |before|;
            var e := b + 12 + |prolog|;
            MarkerAt(s, b, BEGIN_PROLOG) && MarkerAt(s, e, END_PROLOG) &&
            s == before + s[b..b + 12] + prolog + s[e..e + 10] + after &&
            (forall j :: e < j <= |s| ==> !MarkerAt(s, j, END_PROLOG)) &&
            (forall j :: b < j && j + 12 <= e ==> !MarkerAt(s, j, BEGIN_PROLOG))
  {
    var e := LastMarker(s, END_PROLOG, |s|).value;
    var b := LastMarker(s, BEGIN_PROLOG, e - 12).value;
    assert PrologSplit(s).value == (s[..b], s[b + 12..e], s[e + 10..]);
    FiveParts(s, b, e);
  }

  lemma FiveParts(s: string, b: nat, e: nat)
    requires b + 12 <= e && e + 10 <= |s|
    ensures s == s[..b] + s[b..b + 12] + s[b + 12..e] + s[e..e + 10] + s[e + 10..]
  {
    assert s[..b] + s[b..b + 12] == s[..b + 12];
    assert s[..b + 12] + s[b + 12..e] == s[..e];
    assert s[..e] + s[e..e + 10] == s[..e + 10];
  }

  /** A child document without its prolog. */
  function Stripped(cfg: string): string
  {
    match PrologSplit(cfg)
    case None => cfg
    case Some((before, _, after)) => before + after
  }

  /** The prolog of a child document, if it has one. */
  function PrologOf(cfg: string): Option<string>
  {
    match PrologSplit(cfg)
    case None => None
    case Some((_, prolog, _)) => Some(prolog)
  }

  /** A text in which no END_PROLOG can start has no prolog. */
  lemma NoPrologIn(s: string)
    requires forall j :: 0 <= j < |s| ==> s[j] != 'P' && s[j] != 'p'
    ensures PrologSplit(s) == None && Stripped(s) == s
  {
    forall j | 0 <= j <= |s| ensures !MarkerAt(s, j, END_PROLOG) {
      if j + 10 <= |s| {
        assert UpperAll(s[j..j + 10])[4] == Upper(s[j + 4]) != 'P';
      }
    }
  }

  const SIZE_KEY: string := "max_fragment_size_words"

  /** `\s` of a Ruby regular expression. */
  predicate IsSpace(c: char)
  {
    c == ' ' || c == '\t' || c == '\n' || c == '\r' || c as int == 11 || c as int == 12
  }

  /** The end of the run of white space that starts at `i`. */
  function SkipSpaces(s: string, i: nat): (j: nat)
    requires i <= |s|
    ensures i <= j <= |s| && (j < |s| ==> !IsSpace(s[j]))
    ensures forall k :: i <= k < j ==> IsSpace(s[k])
    decreases |s| - i
  {
    if i < |s| && IsSpace(s[i]) then SkipSpaces(s, i + 1) else i
  }

  /** The end of the run of digits that starts at `i`. */
  function SkipDigits(s: string, i: nat): (j: nat)
    requires i <= |s|
    ensures i <= j <= |s| && (j < |s| ==> !IsDigit(s[j]))
    ensures forall k :: i <= k < j ==> IsDigit(s[k])
    decreases |s| - i
  {
    if i < |s| && IsDigit(s[i]) then SkipDigits(s, i + 1) else i
  }

  /** The digits of `/max_fragment_size_words\s*\:\s*(\d+)/` matched at position `p`. */
  function SizeWordsAt(s: string, p: nat): (r: Option<string>)
    ensures r.Some? ==> |r.value| > 0 && AllDigits(r.value)
  {
    if p + |SIZE_KEY| <= |s| && s[p..p + |SIZE_KEY|] == SIZE_KEY then
      var colon := SkipSpaces(s, p + |SIZE_KEY|);
      if colon < |s| && s[colon] == ':' then
        var start := SkipSpaces(s, colon + 1);
        var stop := SkipDigits(s, start);
        if stop > start then Some(s[start..stop]) else None
      else None
    else None
  }

  /** The leftmost match at or after `p`, as `Regexp#match` finds it. */
  function FirstSizeWords(s: string, p: nat): (r: Option<string>)
    requires p <= |s|
    ensures r.Some? ==> exists q :: p <= q <= |s| && SizeWordsAt(s, q) == r
    ensures r.None? ==> forall q :: p <= q <= |s| ==> SizeWordsAt(s, q).None?
    decreases |s| - p
  {
    if SizeWordsAt(s, p).Some? then SizeWordsAt(s, p)
    else if p == |s| then None
    else FirstSizeWords(s, p + 1)
  }

  /** The digits a (stripped) child document gives for its fragment size, if any. */
  function SizeDigits(cfg: string): Option<string>
  {
    FirstSizeWords(cfg, 0)
  }

  /** Those digits read by `Integer()`: octal after a leading zero, `None` when rejected. */
  function SizeValue(digits: Option<string>): Option<int>
  {
    match digits
    case None => None
    case Some(d) => ParseInteger(d)
  }

  /** `fragSizeWords` after children with the size digits `ds`: the largest size, or 0. */
  function MaxSize(ds: seq<Option<string>>): (m: int)
    ensures m >= 0
    decreases |ds|
  {
    if ds == [] then 0
    else
      var m := MaxSize(ds[..|ds| - 1]);
      var v := SizeValue(ds[|ds| - 1]);
      if v.Some? && v.value > m then v.value else m
  }

  /** The composite's size is at least every child's, and is some child's size unless it is 0. */
  lemma {:induction false} MaxSizeIsMaximum(ds: seq<Option<string>>)
    ensures forall i :: 0 <= i < |ds| && SizeValue(ds[i]).Some? ==> SizeValue(ds[i]).value <= MaxSize(ds)
    ensures MaxSize(ds) == 0 || exists i :: 0 <= i < |ds| && SizeValue(ds[i]) == Some(MaxSize(ds))
    decreases |ds|
  {
    if ds != [] {
      var init := ds[..|ds| - 1];
      MaxSizeIsMaximum(init);
      assert forall i :: 0 <= i < |init| ==> init[i] == ds[i];
      if MaxSize(ds) != 0 && MaxSize(ds) == MaxSize(init) {
        var i :| 0 <= i < |init| && SizeValue(init[i]) == Some(MaxSize(init));
        assert ds[i] == init[i];
      }
    }
  }

  /** `f` applied to each element of `xs`, in order. */
  function Map<A, B>(f: A -> B, xs: seq<A>): (ys: seq<B>)
    ensures |ys| == |xs| && forall i :: 0 <= i < |xs| ==> ys[i] == f(xs[i])
  {
    seq(|xs|, i requires 0 <= i < |xs| => f(xs[i]))
  }

  lemma MapSnoc<A, B>(f: A -> B, xs: seq<A>, i: nat)
    requires i < |xs|
    ensures Map(f, xs[..i + 1]) == Map(f, xs[..i]) + [f(xs[i])]
  {
    assert Map(f, xs[..i + 1]) == Map(f, xs[..i]) + [f(xs[i])];
  }

  /** The size digits of a child once its prolog is removed. */
  function ChildSize(cfg: string): Option<string>
  {
    SizeDigits(Stripped(cfg))
  }

  /** The size digits of each child, in order. */
  function ChildSizeDigits(cs: seq<string>): seq<Option<string>>
  {
    Map(ChildSize, cs)
  }

  /**
   * The size lookup as written: when `Integer()` rejects the matched digits
   * (a leading zero followed by 8 or 9), the warning line adds the exception
   * to a string, which raises a TypeError and ends `init`. `None` marks that.
   */
  function MaxSizeAsWritten(ds: seq<Option<string>>): (m: Option<int>)
    ensures m.Some? ==> m.value == MaxSize(ds)
    decreases |ds|
  {
    if ds == [] then Some(0)
    else
      match MaxSizeAsWritten(ds[..|ds| - 1])
      case None => None
      case Some(m) =>
        var d := ds[|ds| - 1];
        if d.Some? && ParseInteger(d.value).None? then None
        else
          var v := SizeValue(d);
          Some(if v.Some? && v.value > m then v.value else m)
  }

  /** The size lookup as written fails exactly when some child's digits are not a number. */
  lemma {:induction false} MaxSizeAsWrittenFails(ds: seq<Option<string>>)
    ensures MaxSizeAsWritten(ds).None? <==>
            exists i :: 0 <= i < |ds| && ds[i].Some? && ParseInteger(ds[i].value).None?
    decreases |ds|
  {
    if ds != [] {
      var init := ds[..|ds| - 1];
      MaxSizeAsWrittenFails(init);
      assert forall i :: 0 <= i < |init| ==> init[i] == ds[i];
      if exists i :: 0 <= i < |ds| && ds[i].Some? && ParseInteger(ds[i].value).None? {
        var i :| 0 <= i < |ds| && ds[i].Some? && ParseInteger(ds[i].value).None?;
        if i < |init| {
          assert init[i] == ds[i];
        }
      }
    }
  }

  /** The first size field of a child without a prolog, read from the text. */
  lemma SizeDigitsOfField(digits: string)
    requires |digits| > 0 && AllDigits(digits)
    ensures var cfg := SIZE_KEY + ": " + digits;
            Stripped(cfg) == cfg && SizeDigits(cfg) == Some(digits)
  {
    var cfg := SIZE_KEY + ": " + digits;
    assert forall j :: 0 <= j < |cfg| ==> cfg[j] != 'P' && cfg[j] != 'p' by {
      forall j | 0 <= j < |cfg| ensures cfg[j] != 'P' && cfg[j] != 'p' {
        if j >= 25 {
          assert cfg[j] == digits[j - 25];
        }
      }
    }
    NoPrologIn(cfg);
    assert |SIZE_KEY| == 23 && |cfg| == 25 + |digits|;
    assert cfg[0..23] == SIZE_KEY;
    assert cfg[23] == ':' && cfg[24] == ' ';
    assert SkipSpaces(cfg, 23) == 23;
    assert SkipSpaces(cfg, 24) == 25;
    assert forall k :: 25 <= k < |cfg| ==> cfg[k] == digits[k - 25];
    assert SkipDigits(cfg, 25) == |cfg|;
    assert cfg[25..|cfg|] == digits;
    assert SizeWordsAt(cfg, 0) == Some(digits);
  }

  /** The sizes "09" and "7": the first is no number, so as written the lookup fails. */
  lemma OctalSizes()
    ensures MaxSizeAsWritten([Some("09"), Some("7")]) == None
    ensures MaxSize([Some("09"), Some("7")]) == 7
  {
    assert ParseInteger("09") == None by {
      assert ParseUnsigned("09") == None by { assert "09"[1] == '9'; }
    }
    assert ParseInteger("7") == Some(7) by {
      assert DigitsValue("7", 10) == 7 by { assert "7"[..0] == ""; }
    }
    var ds := [Some("09"), Some("7")];
    assert ds[..1] == [Some("09")];
    var none: seq<Option<string>> := [];
    assert [Some("09")][..0] == none;
    assert MaxSizeAsWritten([Some("09")]) == None;
    assert MaxSize([Some("09")]) == 0;
  }

  /**
   * Two children, the first asking for a size that `Integer()` rejects (such
   * as "09"): as written the composite is never built; corrected, the
   * unreadable size is skipped and the other child's size is used.
   */
  lemma UnreadableSizeAbortsAsWritten(bad: string, good: string)
    requires |bad| > 0 && AllDigits(bad) && ParseInteger(bad).None?
    requires |good| > 0 && AllDigits(good) && ParseInteger(good).Some?
    ensures var ds := ChildSizeDigits([SIZE_KEY + ": " + bad, SIZE_KEY + ": " + good]);
            MaxSizeAsWritten(ds) == None && MaxSize(ds) == ParseInteger(good).value
  {
    FieldsDigits(bad, good);
    assert ParseInteger(good).value >= 0 by {
      assert IsDigit(good[0]);
    }
    MaxSizeOfTwo(bad, good);
  }

  lemma FieldsDigits(bad: string, good: string)
    requires |bad| > 0 && AllDigits(bad) && |good| > 0 && AllDigits(good)
    ensures ChildSizeDigits([SIZE_KEY + ": " + bad, SIZE_KEY + ": " + good]) == [Some(bad), Some(good)]
  {
    var cs := [SIZE_KEY + ": " + bad, SIZE_KEY + ": " + good];
    SizeDigitsOfField(bad);
    SizeDigitsOfField(good);
    assert ChildSize(cs[0]) == Some(bad) && ChildSize(cs[1]) == Some(good);
  }

  lemma MaxSizeOfTwo(bad: string, good: string)
    requires ParseInteger(bad).None? && ParseInteger(good).Some? && ParseInteger(good).value >= 0
    ensures MaxSizeAsWritten([Some(bad), Some(good)]) == None
    ensures MaxSize([Some(bad), Some(good)]) == ParseInteger(good).value
  {
    var ds := [Some(bad), Some(good)];
    assert ds[..1] == [Some(bad)];
    var none: seq<Option<string>> := [];
    assert [Some(bad)][..0] == none;
    assert MaxSize([Some(bad)]) == 0;
  }

  /** `prologList` after children with the prologs `ps`: each distinct prolog once, in order of first appearance. */
  function Prologs(ps: seq<Option<string>>): seq<string>
    decreases |ps|
  {
    if ps == [] then []
    else
      var saved := Prologs(ps[..|ps| - 1]);
      match ps[|ps| - 1]
      case None => saved
      case Some(p) => if p in saved then saved else saved + [p]
  }

  /** The prolog list holds no prolog twice, and holds exactly the prologs of the children. */
  lemma {:induction false} PrologsDistinctAndComplete(ps: seq<Option<string>>)
    ensures forall i, j :: 0 <= i < j < |Prologs(ps)| ==> Prologs(ps)[i] != Prologs(ps)[j]
    ensures forall p :: p in Prologs(ps) <==> Some(p) in ps
    decreases |ps|
  {
    if ps != [] {
      var init := ps[..|ps| - 1];
      PrologsDistinctAndComplete(init);
      assert ps == init + [ps[|ps| - 1]];
    }
  }

  /** The prolog of each child, in order. */
  function ChildPrologs(cs: seq<string>): seq<Option<string>>
  {
    Map(PrologOf, cs)
  }

  /** `configString` for the stripped children `ss`: each in braces, joined by ", ". */
  function ConfigList(ss: seq<string>): string
    decreases |ss|
  {
    if ss == [] then ""
    else
      var entry := "{" + ss[|ss| - 1] + "}";
      if |ss| == 1 then entry else ConfigList(ss[..|ss| - 1]) + ", " + entry
  }

  /** The children without their prologs, in order. */
  function StrippedAll(cs: seq<string>): seq<string>
  {
    Map(Stripped, cs)
  }

  /** Each saved prolog on a line of its own. */
  function PrologLines(ps: seq<string>): string
    decreases |ps|
  {
    if ps == [] then "" else PrologLines(ps[..|ps| - 1]) + "\n" + ps[|ps| - 1]
  }

  /** The `%{prolog}` text: nothing, or the saved prologs inside one BEGIN_PROLOG/END_PROLOG pair. */
  function PrologText(ps: seq<string>): (r: string)
    ensures ps == [] <==> r == ""
  {
    if ps == [] then "" else "BEGIN_PROLOG" + PrologLines(ps) + "\nEND_PROLOG"
  }

  function CompositeTemplate(): Template
  {
    [Hole("prolog"),
     Lit("\n" + "daq: {\n" + "  max_fragment_size_words: "), Hole("size_words"),
     Lit("\n" + "  fragment_receiver: {\n" + "    mpi_buffer_count: "), Hole("buffer_count"),
     Lit("\n" + "    first_event_builder_rank: "), Hole("total_frs"),
     Lit("\n" + "    event_builder_count: "), Hole("total_ebs"),
     Lit("\n" + "    generator: CompositeDriver\n" + "    fragment_id: 999\n" + "    board_id: 999\n" +
         "    generator_config_list:\n" + "    [\n" +
         "      # the format of this list is " + "{daq:<paramSet},{daq:<paramSet>},...\n" + "      "),
     Hole("generator_list"),
     Lit("\n    ]\n  }\n}")]
  }

  /** The six replacements of `generateComposite`, in the order it makes them, on the document `t`. */
  function FillSix(t: Template, ebs: string, frs: string, buffers: string, size: string,
                   list: string, prolog: string): Template
  {
    var t := Fill(t, "total_ebs", ebs);
    var t := Fill(t, "total_frs", frs);
    var t := Fill(t, "buffer_count", buffers);
    var t := Fill(t, "size_words", size);
    var t := Fill(t, "generator_list", list);
    Fill(t, "prolog", prolog)
  }

  function FillComposite(ebs: string, frs: string, buffers: string, size: string,
                         list: string, prolog: string): Template
  {
    FillSix(CompositeTemplate(), ebs, frs, buffers, size, list, prolog)
  }

  /** The placeholders of the composite document and where they stand. */
  predicate CompositeHoles(t: Template)
  {
    |t| == 12 && t[0] == Hole("prolog") && t[2] == Hole("size_words") && t[4] == Hole("buffer_count") &&
    t[6] == Hole("total_frs") && t[8] == Hole("total_ebs") && t[10] == Hole("generator_list")
  }

  /**
   * Every placeholder of the composite receives its own value and every piece
   * of literal text is kept where it was.
   */
  lemma FillCompositePieces(ebs: string, frs: string, buffers: string, size: string,
                            list: string, prolog: string)
    ensures var t := CompositeTemplate();
            var r := FillComposite(ebs, frs, buffers, size, list, prolog);
            CompositeHoles(t) && |r| == |t| &&
            r[0] == Lit(prolog) && r[2] == Lit(size) && r[4] == Lit(buffers) &&
            r[6] == Lit(frs) && r[8] == Lit(ebs) && r[10] == Lit(list) &&
            forall j :: 0 <= j < |t| && t[j].Lit? ==> r[j] == t[j]
  {
    assert CompositeHoles(CompositeTemplate());
    FillSixPieces(CompositeTemplate(), ebs, frs, buffers, size, list, prolog);
  }

  /** The same for any document with the composite's placeholders. */
  lemma FillSixPieces(t: Template, ebs: string, frs: string, buffers: string, size: string,
                      list: string, prolog: string)
    requires CompositeHoles(t)
    ensures var r := FillSix(t, ebs, frs, buffers, size, list, prolog);
            |r| == |t| &&
            r[0] == Lit(prolog) && r[2] == Lit(size) && r[4] == Lit(buffers) &&
            r[6] == Lit(frs) && r[8] == Lit(ebs) && r[10] == Lit(list) &&
            forall j :: 0 <= j < |t| && t[j].Lit? ==> r[j] == t[j]
  {
  }

  /** `generateComposite`: the composite document of a reader whose boards have the documents `cs`. */
  function Composite(totalEBs: int, totalFRs: int, cs: seq<string>): string
  {
    Render(FillComposite(IntToString(totalEBs), IntToString(totalFRs), IntToString(totalEBs * 8),
                         IntToString(MaxSize(ChildSizeDigits(cs))), ConfigList(StrippedAll(cs)),
                         PrologText(Prologs(ChildPrologs(cs)))))
  }

  lemma ChildrenSnoc(cs: seq<string>, i: nat)
    requires i < |cs|
    ensures ChildPrologs(cs[..i + 1]) == ChildPrologs(cs[..i]) + [PrologOf(cs[i])]
    ensures ChildSizeDigits(cs[..i + 1]) == ChildSizeDigits(cs[..i]) + [SizeDigits(Stripped(cs[i]))]
    ensures StrippedAll(cs[..i + 1]) == StrippedAll(cs[..i]) + [Stripped(cs[i])]
  {
    MapSnoc(PrologOf, cs, i);
    MapSnoc(ChildSize, cs, i);
    MapSnoc(Stripped, cs, i);
  }

  lemma ConfigListSnoc(ss: seq<string>, x: string)
    ensures ConfigList(ss + [x]) == (if ss == [] then "" else ConfigList(ss) + ", ") + "{" + x + "}"
  {
    assert (ss + [x])[..|ss|] == ss;
    if ss == [] {
      assert "" + "{" + x + "}" == "{" + x + "}";
    }
  }

  lemma PrologsSnoc(ps: seq<Option<string>>, x: Option<string>)
    ensures Prologs(ps + [x]) ==
            if x.Some? && x.value !in Prologs(ps) then Prologs(ps) + [x.value] else Prologs(ps)
  {
    assert (ps + [x])[..|ps|] == ps;
  }

  /**
   * `generateComposite` as it runs: one pass over the child documents that
   * moves prologs out, joins the children and keeps the largest size.
   */
  method GenerateComposite(totalEBs: int, totalFRs: int, configStringArray: seq<string>)
    returns (compositeConfig: string)
    ensures compositeConfig == Composite(totalEBs, totalFRs, configStringArray)
  {
    var doc := CompositeTemplate();
    doc := Fill(doc, "total_ebs", IntToString(totalEBs));
    doc := Fill(doc, "total_frs", IntToString(totalFRs));
    doc := Fill(doc, "buffer_count", IntToString(totalEBs * 8));
    var prologList, fragSizeWords, configString := ScanChildren(configStringArray);
    var prologString := PrologBlock(prologList);
    doc := Fill(doc, "size_words", IntToString(fragSizeWords));
    doc := Fill(doc, "generator_list", configString);
    doc := Fill(doc, "prolog", prologString);
    assert doc == FillSix(CompositeTemplate(), IntToString(totalEBs), IntToString(totalFRs),
                          IntToString(totalEBs * 8), IntToString(fragSizeWords), configString, prologString);
    compositeConfig := Render(doc);
  }

  /** The loop of `generateComposite` over the child documents. */
  method ScanChildren(configStringArray: seq<string>)
    returns (prologList: seq<string>, fragSizeWords: int, configString: string)
    ensures prologList == Prologs(ChildPrologs(configStringArray))
    ensures fragSizeWords == MaxSize(ChildSizeDigits(configStringArray))
    ensures configString == ConfigList(StrippedAll(configStringArray))
  {
    prologList := [];
    fragSizeWords := 0;
    configString := "";
    var first := true;
    for i := 0 to |configStringArray|
      invariant prologList == Prologs(ChildPrologs(configStringArray[..i]))
      invariant fragSizeWords == MaxSize(ChildSizeDigits(configStringArray[..i]))
      invariant configString == ConfigList(StrippedAll(configStringArray[..i]))
      invariant first <==> i == 0
    {
      prologList, fragSizeWords, configString :=
        AddChild(configStringArray, i, prologList, fragSizeWords, configString, first);
      first := false;
    }
    assert configStringArray[..|configStringArray|] == configStringArray;
  }

  /**
   * One pass of the loop of `generateComposite`: the child's prolog is moved
   * to the saved prologs, the rest is appended to the list, and its size
   * raises the largest size seen.
   */
  method AddChild(cs: seq<string>, i: nat, prologList: seq<string>, fragSizeWords: int,
                  configString: string, first: bool)
    returns (prologs: seq<string>, sizeWords: int, joined: string)
    requires i < |cs| && (first <==> i == 0)
    requires prologList == Prologs(ChildPrologs(cs[..i]))
    requires fragSizeWords == MaxSize(ChildSizeDigits(cs[..i]))
    requires configString == ConfigList(StrippedAll(cs[..i]))
    ensures prologs == Prologs(ChildPrologs(cs[..i + 1]))
    ensures sizeWords == MaxSize(ChildSizeDigits(cs[..i + 1]))
    ensures joined == ConfigList(StrippedAll(cs[..i + 1]))
  {
    ChildrenSnoc(cs, i);
    prologs := prologList;
    var cfg := cs[i];
    var myMatch := PrologSplit(cfg);
    if myMatch.Some? {
      var thisProlog := myMatch.value.1;
      cfg := myMatch.value.0 + myMatch.value.2;
      assert PrologOf(cs[i]) == Some(thisProlog);
      prologs := SaveProlog(prologs, thisProlog);
    }
    assert cfg == Stripped(cs[i]);
    ConfigListSnoc(StrippedAll(cs[..i]), cfg);
    PrologsSnoc(ChildPrologs(cs[..i]), PrologOf(cs[i]));
    ghost var ss := StrippedAll(cs[..i]);
    joined := configString;
    if !first {
      joined := joined + ", ";
    }
    assert joined == if ss == [] then "" else ConfigList(ss) + ", ";
    joined := joined + "{" + cfg + "}";
    sizeWords := fragSizeWords;
    var childSize := SizeValue(SizeDigits(cfg));
    if childSize.Some? && childSize.value > sizeWords {
      sizeWords := childSize.value;
    }
  }

  /** The search of the saved prologs: a prolog not yet saved is appended. */
  method SaveProlog(prologList: seq<string>, thisProlog: string) returns (saved: seq<string>)
    ensures saved == if thisProlog in prologList then prologList else prologList + [thisProlog]
  {
    var found := false;
    var j := 0;
    while j < |prologList|
      invariant 0 <= j <= |prologList|
      invariant found ==> thisProlog in prologList
      invariant !found ==> thisProlog !in prologList[..j]
    {
      if thisProlog == prologList[j] {
        found := true;
        break;
      }
      assert prologList[..j + 1] == prologList[..j] + [prologList[j]];
      j := j + 1;
    }
    assert !found ==> prologList[..j] == prologList;
    saved := prologList;
    if !found {
      saved := prologList + [thisProlog];
    }
  }

  /** The saved prologs, each on a line of its own, inside one BEGIN_PROLOG/END_PROLOG pair. */
  method PrologBlock(prologList: seq<string>) returns (prologString: string)
    ensures prologString == PrologText(prologList)
  {
    prologString := "";
    if |prologList| > 0 {
      for k := 0 to |prologList|
        invariant prologString == PrologLines(prologList[..k])
      {
        assert prologList[..k + 1][..k] == prologList[..k];
        prologString := prologString + "\n" + prologList[k];
      }
      assert prologList[..|prologList|] == prologList;
      prologString := "BEGIN_PROLOG" + prologString + "\nEND_PROLOG";
    }
  }

  /** One XML-RPC client: its URL followed by its group number (",3", ",4" or ",5"). */
  function ClientEntry(p: Proc, group: string): string
  {
    ";http://" + p.host + ":" + IntToString(p.port) + "/RPC2" + group
  }

  /** The entries of `ps`, all in group `group`, one after another. */
  function ClientText(ps: seq<Proc>, group: string): string
    decreases |ps|
  {
    if ps == [] then "" else ClientText(ps[..|ps| - 1], group) + ClientEntry(ps[|ps| - 1], group)
  }

  lemma Assoc(a: string, b: string, c: string)
    ensures a + (b + c) == a + b + c
  {
  }

  lemma ClientTextSnoc(x: string, ps: seq<Proc>, p: Proc, group: string)
    ensures x + ClientText(ps + [p], group) ==
            x + ClientText(ps, group) + ";http://" + p.host + ":" + IntToString(p.port) + "/RPC2" + group
  {
    assert (ps + [p])[..|ps|] == ps;
    var t := ClientText(ps, group);
    var e1 := ";http://" + p.host;
    var e2 := e1 + ":";
    var e3 := e2 + IntToString(p.port);
    var e4 := e3 + "/RPC2";
    Assoc(x, t, e4 + group);
    Assoc(x + t, e4, group);
    Assoc(x + t, e3, "/RPC2");
    Assoc(x + t, e2, IntToString(p.port));
    Assoc(x + t, e1, ":");
    Assoc(x + t, ";http://", p.host);
  }

  /** One more process adds its entry at the end of the text. */
  lemma ClientTextAppend(ps: seq<Proc>, p: Proc, group: string)
    ensures ClientText(ps + [p], group) ==
            ClientText(ps, group) + ";http://" + p.host + ":" + IntToString(p.port) + "/RPC2" + group
  {
    ClientTextSnoc("", ps, p, group);
    assert "" + ClientText(ps, group) == ClientText(ps, group);
    assert "" + ClientText(ps + [p], group) == ClientText(ps + [p], group);
  }

  /** Every toy board carries the index of an existing reader. */
  predicate ToysIndexed(readerCount: nat, toys: seq<Proc>)
  {
    forall i :: 0 <= i < |toys| ==>
      toys[i].boardReaderIndex.Some? && toys[i].boardReaderIndex.value < readerCount
  }

  /** One toy of the client list: listed, and its reader marked, unless its reader is already listed. */
  function ClientStep(rs: seq<BoardReader>, p: Proc): (seq<Proc>, seq<BoardReader>)
    requires p.boardReaderIndex.Some? && p.boardReaderIndex.value < |rs|
  {
    var r := p.boardReaderIndex.value;
    if rs[r].hasBeenIncludedInXMLRPCList then ([], rs)
    else ([p], rs[r := rs[r].(hasBeenIncludedInXMLRPCList := true)])
  }

  /** The toys listed as clients, in order, and the readers afterwards. */
  function ReaderClients(rs: seq<BoardReader>, toys: seq<Proc>): (d: (seq<Proc>, seq<BoardReader>))
    requires ToysIndexed(|rs|, toys)
    ensures |d.1| == |rs|
    decreases |toys|
  {
    if toys == [] then ([], rs)
    else
      var (ps, rs1) := ReaderClients(rs, toys[..|toys| - 1]);
      var (p, rs2) := ClientStep(rs1, toys[|toys| - 1]);
      (ps + p, rs2)
  }

  /** The number of listed toys that belong to reader `r`. */
  function CountOf(ps: seq<Proc>, r: nat): nat
    decreases |ps|
  {
    if ps == [] then 0
    else CountOf(ps[..|ps| - 1], r) + (if ps[|ps| - 1].boardReaderIndex == Some(r) then 1 else 0)
  }

  lemma {:induction false} CountOfAppend(a: seq<Proc>, b: seq<Proc>, r: nat)
    requires |b| <= 1
    ensures CountOf(a + b, r) == CountOf(a, r) + CountOf(b, r)
  {
    if b == [] {
      assert a + b == a;
    } else {
      assert (a + b)[..|a + b| - 1] == a;
      assert b[..0] == [];
    }
  }

  lemma NamesSnoc(toys: seq<Proc>, r: nat)
    requires toys != []
    ensures Names(toys, r) <==> Names(toys[..|toys| - 1], r) || toys[|toys| - 1].boardReaderIndex == Some(r)
  {
    var init := toys[..|toys| - 1];
    if Names(toys, r) {
      var i :| 0 <= i < |toys| && toys[i].boardReaderIndex == Some(r);
      if i < |init| {
        assert init[i] == toys[i];
      }
    }
    if Names(init, r) {
      var i :| 0 <= i < |init| && init[i].boardReaderIndex == Some(r);
      assert toys[i] == init[i];
    }
  }

  /**
   * Every reader is listed once if one of its boards is a toy and it was not
   * listed before, and never otherwise; afterwards it is marked exactly when
   * it was marked before or one of its boards is a toy.
   */
  lemma {:induction false} ReaderListedOnce(rs: seq<BoardReader>, toys: seq<Proc>, r: nat)
    requires ToysIndexed(|rs|, toys) && r < |rs|
    ensures CountOf(ReaderClients(rs, toys).0, r) ==
            (if !rs[r].hasBeenIncludedInXMLRPCList && Names(toys, r) then 1 else 0)
    ensures ReaderClients(rs, toys).1[r].hasBeenIncludedInXMLRPCList ==
            (rs[r].hasBeenIncludedInXMLRPCList || Names(toys, r))
    decreases |toys|
  {
    if toys != [] {
      var init := toys[..|toys| - 1];
      assert ToysIndexed(|rs|, init) by {
        assert forall i :: 0 <= i < |init| ==> init[i] == toys[i];
      }
      ReaderListedOnce(rs, init, r);
      var (ps, rs1) := ReaderClients(rs, init);
      var (p, rs2) := ClientStep(rs1, toys[|toys| - 1]);
      CountOfAppend(ps, p, r);
      NamesSnoc(toys, r);
      if p != [] {
        assert p[..0] == [];
      }
    }
  }

  /** Only toys are listed, and of each reader only its mark changes. */
  lemma {:induction false} ReaderClientsAreToys(rs: seq<BoardReader>, toys: seq<Proc>)
    requires ToysIndexed(|rs|, toys)
    ensures forall k :: 0 <= k < |ReaderClients(rs, toys).0| ==> ReaderClients(rs, toys).0[k] in toys
    ensures forall j :: 0 <= j < |rs| ==>
              ReaderClients(rs, toys).1[j] == rs[j].(hasBeenIncludedInXMLRPCList := ReaderClients(rs, toys).1[j].hasBeenIncludedInXMLRPCList)
    decreases |toys|
  {
    if toys != [] {
      var init := toys[..|toys| - 1];
      assert forall i :: 0 <= i < |init| ==> init[i] == toys[i];
      ReaderClientsAreToys(rs, init);
    }
  }

  /** `generateXmlRpcClientList`: the listed toys (group 3), then every event builder (4) and aggregator (5). */
  function XmlRpcClients(rs: seq<BoardReader>, toys: seq<Proc>, ebs: seq<Proc>, ags: seq<Proc>): string
    requires ToysIndexed(|rs|, toys)
  {
    ClientText(ReaderClients(rs, toys).0, ",3") + ClientText(ebs, ",4") + ClientText(ags, ",5")
  }

  /**
   * `generateXmlRpcClientList` as it runs: it marks each reader it lists, so
   * a reader of several boards is listed once.
   */
  method GenerateXmlRpcClientList(options: Options) returns (xmlrpcClients: string)
    requires ToysIndexed(|options.boardReaders|, options.toys)
    modifies options
    ensures xmlrpcClients == XmlRpcClients(old(options.boardReaders), old(options.toys),
                                           old(options.eventBuilders), old(options.aggregators))
    ensures options.boardReaders == ReaderClients(old(options.boardReaders), old(options.toys)).1
    ensures options.toys == old(options.toys) && options.eventBuilders == old(options.eventBuilders)
    ensures options.aggregators == old(options.aggregators)
    ensures options.eventsInRun == old(options.eventsInRun)
    ensures options.runDurationSeconds == old(options.runDurationSeconds)
  {
    xmlrpcClients := ListReaders(options);
    xmlrpcClients := AppendClients(xmlrpcClients, options.eventBuilders, ",4");
    xmlrpcClients := AppendClients(xmlrpcClients, options.aggregators, ",5");
  }

  /** One more toy extends the listing by that toy's step. */
  lemma ReaderClientsSnoc(rs: seq<BoardReader>, toys: seq<Proc>, p: Proc)
    requires ToysIndexed(|rs|, toys + [p])
    ensures ToysIndexed(|rs|, toys)
    ensures ReaderClients(rs, toys + [p]) ==
      (ReaderClients(rs, toys).0 + ClientStep(ReaderClients(rs, toys).1, p).0,
       ClientStep(ReaderClients(rs, toys).1, p).1)
  {
    assert (toys + [p])[..|toys|] == toys;
    assert forall k :: 0 <= k < |toys| ==> toys[k] == (toys + [p])[k];
  }

  /** The toy loop of `generateXmlRpcClientList`: each reader not yet listed is listed and marked. */
  method ListReaders(options: Options) returns (xmlrpcClients: string)
    requires ToysIndexed(|options.boardReaders|, options.toys)
    modifies options
    ensures var (listed, rs) := ReaderClients(old(options.boardReaders), old(options.toys));
            xmlrpcClients == ClientText(listed, ",3") && options.boardReaders == rs
    ensures options.toys == old(options.toys) && options.eventBuilders == old(options.eventBuilders)
    ensures options.aggregators == old(options.aggregators)
    ensures options.eventsInRun == old(options.eventsInRun)
    ensures options.runDurationSeconds == old(options.runDurationSeconds)
  {
    xmlrpcClients := "";
    ghost var listed: seq<Proc> := [];
    var toys := options.toys;
    var readers := options.boardReaders;
    for i := 0 to |toys|
      modifies {}
      invariant ToysIndexed(|old(options.boardReaders)|, toys[..i])
      invariant (listed, readers) == ReaderClients(old(options.boardReaders), toys[..i])
      invariant xmlrpcClients == ClientText(listed, ",3")
    {
      listed, readers, xmlrpcClients := ListToy(old(options.boardReaders), toys, i, listed, readers, xmlrpcClients);
    }
    options.boardReaders := readers;
    assert toys[..|toys|] == toys;
  }

  /** The listing after toy `i`, given the listing before it. */
  lemma ListedAfter(rs: seq<BoardReader>, toys: seq<Proc>, i: nat)
    requires ToysIndexed(|rs|, toys) && i < |toys|
    ensures ToysIndexed(|rs|, toys[..i]) && ToysIndexed(|rs|, toys[..i + 1])
    ensures var (listed, readers) := ReaderClients(rs, toys[..i]);
            var r := toys[i].boardReaderIndex.value;
            ReaderClients(rs, toys[..i + 1]) ==
              if readers[r].hasBeenIncludedInXMLRPCList then (listed, readers)
              else (listed + [toys[i]], readers[r := readers[r].(hasBeenIncludedInXMLRPCList := true)])
  {
    assert toys[..i + 1] == toys[..i] + [toys[i]];
    ReaderClientsSnoc(rs, toys[..i], toys[i]);
    var (listed, readers) := ReaderClients(rs, toys[..i]);
    if readers[toys[i].boardReaderIndex.value].hasBeenIncludedInXMLRPCList {
      assert listed + [] == listed;
    }
  }

  /** One toy of the loop: listed, and its reader marked, unless its reader is already listed. */
  method ListToy(ghost rs: seq<BoardReader>, toys: seq<Proc>, i: nat, ghost listed: seq<Proc>,
                 readers: seq<BoardReader>, xmlrpcClients: string)
    returns (ghost listed1: seq<Proc>, readers1: seq<BoardReader>, clients: string)
    requires ToysIndexed(|rs|, toys) && i < |toys|
    requires ToysIndexed(|rs|, toys[..i])
    requires (listed, readers) == ReaderClients(rs, toys[..i])
    requires xmlrpcClients == ClientText(listed, ",3")
    ensures ToysIndexed(|rs|, toys[..i + 1])
    ensures (listed1, readers1) == ReaderClients(rs, toys[..i + 1])
    ensures clients == ClientText(listed1, ",3")
  {
    ListedAfter(rs, toys, i);
    var proc := toys[i];
    var r := proc.boardReaderIndex.value;
    var br := readers[r];
    listed1, readers1, clients := listed, readers, xmlrpcClients;
    if !br.hasBeenIncludedInXMLRPCList {
      readers1 := readers[r := br.(hasBeenIncludedInXMLRPCList := true)];
      ClientTextAppend(listed, proc, ",3");
      clients := clients + ";http://" + proc.host + ":" + IntToString(proc.port) + "/RPC2";
      clients := clients + ",3";
      listed1 := listed + [proc];
    } else {
      assert listed + [] == listed;
    }
  }

  /** The event-builder and aggregator loops: every process listed, in order, in one group. */
  method AppendClients(xmlrpcClients: string, procs: seq<Proc>, group: string) returns (result: string)
    ensures result == xmlrpcClients + ClientText(procs, group)
  {
    result := xmlrpcClients;
    for i := 0 to |procs|
      invariant result == xmlrpcClients + ClientText(procs[..i], group)
    {
      assert procs[..i + 1] == procs[..i] + [procs[i]];
      ClientTextSnoc(xmlrpcClients, procs[..i], procs[i], group);
      result := result + ";http://" + procs[i].host + ":" + IntToString(procs[i].port) + "/RPC2";
      result := result + group;
    }
    assert procs[..|procs|] == procs;
  }
}
