/**
 * The art filters `DTCEventVerifier` and `CRVGR`. Both collect the DTCEVT
 * fragments of an event the same way: from container fragments of DTCEVT
 * entries, or from plain fragment collections that start with a DTCEVT
 * fragment. `CRVGR` then counts the CRV data blocks: global-run (GR)
 * packages and wideband status packages. `DTCEventVerifier` only prints what
 * it finds. Both always let the event pass.
 *
 * The overlays (`ContainerFragment`, `DTCEventFragment`, the DTC data-block
 * header) are not modelled: what they decode is part of the fragment value.
 */
module DtcEventFilters {

  import opened Common
  import DtcReads

  /** `DTC_Subsystem_CRV`. */
  const CRV_SUBSYSTEM: nat := 0x2
  /** The data-block version of a GR package. */
  const GR_VERSION: nat := 0xFF
  /** The data-block version of wideband (status) data. */
  const STATUS_VERSION: nat := 0x0

  /** The data-block header fields the filters read. */
  datatype Block = Block(valid: bool, subsystem: nat, version: nat)

  /** A sub-event: the link-0 status of its header and its data blocks. */
  datatype SubEvent = SubEvent(linkStatus: nat, blocks: seq<Block>)

  /** What a `DTCEventFragment` overlay decodes: the DTC event's sub-events. */
  datatype EventView = EventView(subEvents: seq<SubEvent>)

  /**
   * A fragment of an event: its artdaq type; what a `ContainerFragment`
   * overlay reads from it (the entries' declared type and the entries); and
   * what a `DTCEventFragment` overlay reads from it.
   */
  datatype Fragment = Fragment(fragType: DtcReads.FragmentType, containedType: DtcReads.FragmentType,
                               entries: seq<Fragment>, event: EventView)

  /** One `art::Handle<artdaq::Fragments>` of `getMany`. */
  datatype Handle = Handle(valid: bool, frags: seq<Fragment>)

  // ---- collecting the DTCEVT fragments ----

  /** The entries of the containers, up to the first container whose entries are not DTCEVT. */
  function FromContainers(conts: seq<Fragment>): (r: seq<Fragment>)
  {
    if conts == [] || conts[0].containedType != DtcReads.DTCEVT then []
    else conts[0].entries + FromContainers(conts[1..])
  }

  /** What one handle contributes. */
  function FromHandle(h: Handle): (r: seq<Fragment>)
  {
    if !h.valid || h.frags == [] then []
    else if h.frags[0].fragType == DtcReads.ContainerType then FromContainers(h.frags)
    else if h.frags[0].fragType == DtcReads.DTCEVT then h.frags
    else []
  }

  /** The `fragments` vector both filters build, handle by handle. */
  function Flatten(hs: seq<Handle>): (r: seq<Fragment>)
  {
    if hs == [] then [] else FromHandle(hs[0]) + Flatten(hs[1..])
  }

  /** All the entries of the given containers. */
  function AllEntries(conts: seq<Fragment>): seq<Fragment>
  {
    if conts == [] then [] else conts[0].entries + AllEntries(conts[1..])
  }

  /**
   * A container collection contributes the entries of its leading DTCEVT
   * containers, in order, and nothing from the first other container on.
   */
  lemma {:induction false} ContainersStopAtFirstOther(conts: seq<Fragment>, k: nat)
    requires k <= |conts| && forall i :: 0 <= i < k ==> conts[i].containedType == DtcReads.DTCEVT
    requires k == |conts| || conts[k].containedType != DtcReads.DTCEVT
    ensures FromContainers(conts) == AllEntries(conts[..k])
  {
    if k > 0 {
      ContainersStopAtFirstOther(conts[1..], k - 1);
      assert conts[..k][1..] == conts[1..][..k - 1];
    }
  }

  /**
   * Handles that are invalid, empty, or start with a fragment that is neither
   * a container nor DTCEVT contribute nothing; a plain handle whose front is
   * DTCEVT contributes all its fragments, whatever their own types.
   */
  lemma {:induction false} FlattenSkips(h: Handle, hs: seq<Handle>)
    ensures !h.valid || h.frags == [] ||
            (h.frags[0].fragType != DtcReads.ContainerType && h.frags[0].fragType != DtcReads.DTCEVT)
            ==> Flatten([h] + hs) == Flatten(hs)
    ensures h.valid && h.frags != [] && h.frags[0].fragType == DtcReads.DTCEVT ==> Flatten([h] + hs) == h.frags + Flatten(hs)
  {
    assert ([h] + hs)[0] == h && ([h] + hs)[1..] == hs;
  }

  /** The handles' contributions, concatenated in handle order. */
  lemma {:induction false} FlattenAppend(a: seq<Handle>, b: seq<Handle>)
    ensures Flatten(a + b) == Flatten(a) + Flatten(b)
  {
    if a != [] {
      FlattenAppend(a[1..], b);
      assert (a + b)[1..] == a[1..] + b;
    } else {
      assert a + b == b;
    }
  }

  // ---- the CRVGR counters ----

  /** Every data block of a decoded DTC event, sub-event by sub-event. */
  function EventBlocks(subs: seq<SubEvent>): seq<Block>
  {
    if subs == [] then [] else subs[0].blocks + EventBlocks(subs[1..])
  }

  /** Every data block of the collected fragments, fragment by fragment. */
  function FragmentBlocks(frags: seq<Fragment>): seq<Block>
  {
    if frags == [] then [] else EventBlocks(frags[0].event.subEvents) + FragmentBlocks(frags[1..])
  }

  lemma {:induction false} FragmentBlocksAppend(a: seq<Fragment>, b: seq<Fragment>)
    ensures FragmentBlocks(a + b) == FragmentBlocks(a) + FragmentBlocks(b)
  {
    if a != [] {
      FragmentBlocksAppend(a[1..], b);
      assert (a + b)[0] == a[0] && (a + b)[1..] == a[1..] + b;
    } else {
      assert a + b == b;
    }
  }

  /** A valid CRV block of a GR package. */
  predicate IsGr(b: Block)
  {
    b.valid && b.subsystem == CRV_SUBSYSTEM && b.version == GR_VERSION
  }

  /** A valid CRV block of wideband status data. */
  predicate IsStatus(b: Block)
  {
    b.valid && b.subsystem == CRV_SUBSYSTEM && b.version == STATUS_VERSION
  }

  /** How many of the blocks are GR packages. */
  function CountGr(bs: seq<Block>): (n: nat)
    ensures n <= |bs|
  {
    if bs == [] then 0 else (if IsGr(bs[0]) then 1 else 0) + CountGr(bs[1..])
  }

  /** How many of the blocks are status blocks. */
  function CountStatus(bs: seq<Block>): (n: nat)
    ensures n <= |bs|
  {
    if bs == [] then 0 else (if IsStatus(bs[0]) then 1 else 0) + CountStatus(bs[1..])
  }

  lemma {:induction false} CountsAppend(a: seq<Block>, b: seq<Block>)
    ensures CountGr(a + b) == CountGr(a) + CountGr(b)
    ensures CountStatus(a + b) == CountStatus(a) + CountStatus(b)
  {
    if a != [] {
      CountsAppend(a[1..], b);
      assert (a + b)[0] == a[0] && (a + b)[1..] == a[1..] + b;
    } else {
      assert a + b == b;
    }
  }

  /**
   * No block counts twice: a block is a GR package, a status block, or
   * neither, so the two counts together are at most the number of blocks;
   * and a block counts exactly when it is valid, CRV and of that version.
   */
  lemma {:induction false} CountsDisjoint(bs: seq<Block>)
    ensures CountGr(bs) + CountStatus(bs) <= |bs|
    ensures CountGr(bs) == |bs| <==> forall i :: 0 <= i < |bs| ==> IsGr(bs[i])
    ensures CountGr(bs) == 0 <==> forall i :: 0 <= i < |bs| ==> !IsGr(bs[i])
    ensures CountStatus(bs) == 0 <==> forall i :: 0 <= i < |bs| ==> !IsStatus(bs[i])
  {
    if bs != [] {
      CountsDisjoint(bs[1..]);
      assert forall i :: 1 <= i < |bs| ==> bs[i] == bs[1..][i - 1];
    }
  }

  /**
   * The counting as written: for a status block the filter sends metrics
   * through `metricMan` without the null check the GR branch has, so with no
   * metric manager the first status block crashes the filter (`None`),
   * after `nEvents_` was already bumped.
   */
  function CountAsWritten(bs: seq<Block>, metrics: bool): (r: Option<(nat, nat)>)
  {
    if bs == [] then Some((0, 0))
    else if IsStatus(bs[0]) && !metrics then None
    else
      match CountAsWritten(bs[1..], metrics)
      case None => None
      case Some((gr, st)) => Some(((if IsGr(bs[0]) then 1 else 0) + gr, (if IsStatus(bs[0]) then 1 else 0) + st))
  }

  /** A single wideband status block is enough to crash the filter when no metric manager is set up. */
  lemma StatusBlockCrashesAsWritten()
    ensures CountAsWritten([Block(true, CRV_SUBSYSTEM, STATUS_VERSION)], false).None?
    ensures CountAsWritten([Block(true, CRV_SUBSYSTEM, STATUS_VERSION)], true) == Some((0, 1))
  {
  }

  /** With a metric manager, or with no status block, the counts as written are the corrected ones. */
  lemma {:induction false} CountAsWrittenAgrees(bs: seq<Block>, metrics: bool)
    requires metrics || CountStatus(bs) == 0
    ensures CountAsWritten(bs, metrics) == Some((CountGr(bs), CountStatus(bs)))
  {
    if bs != [] {
      CountAsWrittenAgrees(bs[1..], metrics);
    }
  }

  // ---- the filters ----

  /** The handle loop both filters share, with the container loop inside it. */
  method CollectFragments(hs: seq<Handle>) returns (fragments: seq<Fragment>)
    ensures fragments == Flatten(hs)
  {
    fragments := [];
    for k := 0 to |hs|
      invariant fragments == Flatten(hs[..k])
    {
      var h := hs[k];
      var got := [];
      if h.valid && h.frags != [] {
        if h.frags[0].fragType == DtcReads.ContainerType {
          got := CollectContainers(h.frags);
        } else if h.frags[0].fragType == DtcReads.DTCEVT {
          got := h.frags;
        }
      }
      FlattenAppend(hs[..k], [h]);
      assert hs[..k + 1] == hs[..k] + [h];
      assert Flatten([h]) == FromHandle(h) + Flatten([]);
      fragments := fragments + got;
    }
    assert hs[..|hs|] == hs;
  }

  /** The loop over a container collection: stop at the first container that is not of DTCEVT entries. */
  method CollectContainers(conts: seq<Fragment>) returns (got: seq<Fragment>)
    ensures got == FromContainers(conts)
  {
    got := [];
    var i := 0;
    while i < |conts|
      invariant 0 <= i <= |conts|
      invariant FromContainers(conts) == got + FromContainers(conts[i..])
    {
      assert conts[i..][0] == conts[i] && conts[i..][1..] == conts[i + 1..];
      if conts[i].containedType != DtcReads.DTCEVT {
        break;
      }
      got := got + conts[i].entries;
      i := i + 1;
    }
    if i == |conts| {
      assert conts[i..] == [];
    }
  }

  class DTCEventVerifier {
    /** The `EventHeader` products put so far, one per event. */
    var headersPut: nat
    /** The fragment count each event reported (the `nFragments` metric). */
    var fragmentCounts: seq<nat>

    constructor ()
      ensures headersPut == 0 && fragmentCounts == []
    {
      headersPut := 0;
      fragmentCounts := [];
    }

    /** `filter`: collect the DTCEVT fragments, put one event header, let the event pass. */
    method Filter(hs: seq<Handle>) returns (pass: bool)
      modifies this
      ensures pass
      ensures headersPut == old(headersPut) + 1
      ensures fragmentCounts == old(fragmentCounts) + [|Flatten(hs)|]
    {
      var fragments := CollectFragments(hs);
      fragmentCounts := fragmentCounts + [|fragments|];
      headersPut := headersPut + 1;
      return true;
    }
  }

  class CRVGR {
    /** `nGrEvents_`. */
    var nGrEvents: nat
    /** `nEvents_`. */
    var nEvents: nat

    constructor ()
      ensures nGrEvents == 0 && nEvents == 0
    {
      nGrEvents := 0;
      nEvents := 0;
    }

    /**
     * `filter`: the counters go up by the GR packages and the status blocks
     * among the collected fragments' data blocks; the event always passes.
     */
    method Filter(hs: seq<Handle>) returns (pass: bool)
      modifies this
      ensures pass
      ensures nGrEvents == old(nGrEvents) + CountGr(FragmentBlocks(Flatten(hs)))
      ensures nEvents == old(nEvents) + CountStatus(FragmentBlocks(Flatten(hs)))
    {
      var fragments := CollectFragments(hs);
      var gr, st := CountFragments(fragments);
      nGrEvents := nGrEvents + gr;
      nEvents := nEvents + st;
      return true;
    }

    /** The fragment loop, with the sub-event and block loops inside it. */
    static method CountFragments(frags: seq<Fragment>) returns (gr: nat, st: nat)
      ensures gr == CountGr(FragmentBlocks(frags)) && st == CountStatus(FragmentBlocks(frags))
    {
      gr, st := 0, 0;
      for f := 0 to |frags|
        invariant gr == CountGr(FragmentBlocks(frags[..f])) && st == CountStatus(FragmentBlocks(frags[..f]))
      {
        var subs := frags[f].event.subEvents;
        ghost var before := FragmentBlocks(frags[..f]);
        assert FragmentBlocks(frags[..f + 1]) == before + EventBlocks(subs) by {
          assert frags[..f + 1] == frags[..f] + [frags[f]];
          FragmentBlocksAppend(frags[..f], [frags[f]]);
          assert FragmentBlocks([frags[f]]) == EventBlocks(subs) + FragmentBlocks([]);
        }
        CountsAppend(before, EventBlocks(subs));
        assert subs[0..] == subs;
        for i := 0 to |subs|
          invariant gr + CountGr(EventBlocks(subs[i..])) == CountGr(FragmentBlocks(frags[..f + 1]))
          invariant st + CountStatus(EventBlocks(subs[i..])) == CountStatus(FragmentBlocks(frags[..f + 1]))
        {
          gr, st := CountSubEvent(subs, i, gr, st);
        }
        assert subs[|subs|..] == [];
      }
      assert frags[..|frags|] == frags;
    }

    /** The block loop of one sub-event. */
    static method CountSubEvent(subs: seq<SubEvent>, i: nat, gr0: nat, st0: nat) returns (gr: nat, st: nat)
      requires i < |subs|
      ensures gr - gr0 + CountGr(EventBlocks(subs[i + 1..])) == CountGr(EventBlocks(subs[i..]))
      ensures st - st0 + CountStatus(EventBlocks(subs[i + 1..])) == CountStatus(EventBlocks(subs[i..]))
      ensures gr >= gr0 && st >= st0
    {
      var bs := subs[i].blocks;
      gr, st := gr0, st0;
      for bl := 0 to |bs|
        invariant gr == gr0 + CountGr(bs[..bl]) && st == st0 + CountStatus(bs[..bl])
      {
        CountsAppend(bs[..bl], [bs[bl]]);
        assert bs[..bl + 1] == bs[..bl] + [bs[bl]];
        var b := bs[bl];
        if b.valid && b.subsystem == CRV_SUBSYSTEM {
          if b.version == GR_VERSION {
            gr := gr + 1;
          } else if b.version == STATUS_VERSION {
            st := st + 1;
          }
        }
      }
      assert bs[..|bs|] == bs;
      assert subs[i..][0] == subs[i] && subs[i..][1..] == subs[i + 1..];
      CountsAppend(bs, EventBlocks(subs[i + 1..]));
    }
  }
}
