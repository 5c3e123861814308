/**
 * `Mu2eProducer`, the art producer that walks the data-block headers of the
 * event's MU2E fragments. It puts the event number, and for every header
 * packet it reaches it switches the detector mode by the subsystem ID and
 * decides whether the packet is parsed as tracker or calorimeter data. The
 * cursor jumps over each data block by its packet count.
 *
 * `mu2eFragmentReader` is not part of this model: the block boundaries and
 * the header fields it decodes are inputs. What the producer prints, and the
 * digis it only sketches in comments, are left out; a visit records what it
 * decides for each header.
 */
module Mu2eProducers {

  import opened Common

  /** `sizeof` a DTC packet. */
  const PACKET_BYTES: nat := 16

  /** The modes the configuration may name. */
  predicate KnownMode(mode: string)
  {
    mode == "TRK" || mode == "CAL" || mode == "CRV"
  }

  /** The constructor's check: an unknown mode becomes "TRK". */
  function ConfiguredMode(mode: string): (r: string)
    ensures KnownMode(r)
    ensures KnownMode(mode) ==> r == mode
    ensures !KnownMode(mode) ==> r == "TRK"
  {
    if mode != "TRK" && mode != "CAL" && mode != "CRV" then "TRK" else mode
  }

  /** An `adc_t`: 16 bits, unsigned. */
  newtype Adc = x: int | 0 <= x < 0x1_0000

  /** The data-block header fields the producer reads (`DBH_*`). */
  datatype Header = Header(packetCount: Adc, timestampLow: Adc, timestampMedium: Adc, subsystemId: Adc)

  /**
   * `timestampLow | (timestampMedium << 16)`: the low half fits in 16 bits,
   * so the bitwise or of the shifted medium half is their sum.
   */
  function Timestamp(h: Header): (t: nat)
    ensures t < 0x1_0000_0000
  {
    h.timestampLow as nat + h.timestampMedium as nat * 0x1_0000
  }

  /** The two 16-bit halves come back out of the timestamp unchanged. */
  lemma TimestampHalves(h: Header)
    ensures Timestamp(h) % 0x1_0000 == h.timestampLow as nat
    ensures Timestamp(h) / 0x1_0000 == h.timestampMedium as nat
  {
  }

  /** The mode after a header: subsystem 0 is the tracker, 1 the calorimeter, any other keeps the mode. */
  function NextMode(mode: string, h: Header): (r: string)
    ensures h.subsystemId == 0 ==> r == "TRK"
    ensures h.subsystemId == 1 ==> r == "CAL"
    ensures h.subsystemId > 1 ==> r == mode
  {
    if h.subsystemId == 0 then "TRK" else if h.subsystemId == 1 then "CAL" else mode
  }

  datatype Parse = TrackerHit | CalorimeterHit | NotParsed

  /** What a header is parsed as, in the mode it set: only packets that carry data are parsed. */
  function ParseAs(mode: string, h: Header): Parse
  {
    if mode == "TRK" && h.packetCount > 0 then TrackerHit
    else if mode == "CAL" && h.packetCount > 0 then CalorimeterHit
    else NotParsed
  }

  /** One header the cursor reached: where, its timestamp, the mode it left and how it was parsed. */
  datatype Visit = Visit(position: nat, timestamp: nat, mode: string, parse: Parse)

  /** The bytes one data block takes: its header packet and the packets it counts. */
  function Stride(h: Header): (n: nat)
    ensures n >= PACKET_BYTES
  {
    (h.packetCount as nat + 1) * PACKET_BYTES
  }

  /** The `while (curPosBytes < blockEndBytes)` loop from `pos` on: the visits and the mode it ends in. */
  function Walk(headerAt: nat -> Header, pos: nat, end: nat, mode: string): (seq<Visit>, string)
    decreases end - pos
  {
    if pos >= end then ([], mode)
    else
      var h := headerAt(pos);
      var mode' := NextMode(mode, h);
      var rest := Walk(headerAt, pos + Stride(h), end, mode');
      ([Visit(pos, Timestamp(h), mode', ParseAs(mode', h))] + rest.0, rest.1)
  }

  /**
   * The cursor visits positions inside the block only, starting at its
   * start, each one data block past the one before; a block that is not
   * empty gets at least one visit.
   */
  lemma {:induction false} WalkStaysInBlock(headerAt: nat -> Header, pos: nat, end: nat, mode: string)
    ensures var vs := Walk(headerAt, pos, end, mode).0;
            (pos < end <==> vs != []) &&
            (vs != [] ==> vs[0].position == pos) &&
            (forall k :: 0 <= k < |vs| ==> pos <= vs[k].position < end) &&
            (forall k :: 0 <= k < |vs| - 1 ==> vs[k + 1].position == vs[k].position + Stride(headerAt(vs[k].position)))
    decreases end - pos
  {
    if pos < end {
      var h := headerAt(pos);
      WalkStaysInBlock(headerAt, pos + Stride(h), end, NextMode(mode, h));
    }
  }

  /**
   * Each visited header leaves the mode its subsystem ID names, starting
   * from the mode before the walk; the mode after the walk is that of the
   * last visit.
   */
  lemma {:induction false} WalkModes(headerAt: nat -> Header, pos: nat, end: nat, mode: string)
    ensures var (vs, mode') := Walk(headerAt, pos, end, mode);
            (vs != [] ==> vs[0].mode == NextMode(mode, headerAt(vs[0].position))) &&
            (forall k :: 0 < k < |vs| ==> vs[k].mode == NextMode(vs[k - 1].mode, headerAt(vs[k].position))) &&
            (mode' == if vs == [] then mode else vs[|vs| - 1].mode)
    decreases end - pos
  {
    if pos < end {
      var h := headerAt(pos);
      var rest := Walk(headerAt, pos + Stride(h), end, NextMode(mode, h)).0;
      WalkModes(headerAt, pos + Stride(h), end, NextMode(mode, h));
      var vs := Walk(headerAt, pos, end, mode).0;
      assert forall k :: 0 < k < |vs| ==> vs[k] == rest[k - 1];
    }
  }

  /** One step of the cursor loop: the header at `pos` is visited, then the walk goes on one data block further. */
  lemma WalkFrom(headerAt: nat -> Header, pos: nat, end: nat, mode: string)
    requires pos < end
    ensures var h := headerAt(pos);
            var m := NextMode(mode, h);
            Walk(headerAt, pos, end, mode).0 == [Visit(pos, Timestamp(h), m, ParseAs(m, h))] + Walk(headerAt, pos + Stride(h), end, m).0 &&
            Walk(headerAt, pos, end, mode).1 == Walk(headerAt, pos + Stride(h), end, m).1
  {
  }

  /** The known modes stay known: the producer never leaves TRK, CAL or CRV. */
  lemma {:induction false} WalkKeepsModeKnown(headerAt: nat -> Header, pos: nat, end: nat, mode: string)
    requires KnownMode(mode)
    ensures KnownMode(Walk(headerAt, pos, end, mode).1)
    decreases end - pos
  {
    if pos < end {
      var h := headerAt(pos);
      WalkKeepsModeKnown(headerAt, pos + Stride(h), end, NextMode(mode, h));
    }
  }

  /** Where a data block of the fragment starts and ends (`blockIndexBytes`, `blockEndBytes`). */
  datatype BlockBounds = BlockBounds(start: nat, end: nat)

  /** A MU2E fragment as the producer sees it through `mu2eFragmentReader`. */
  datatype FragmentView = FragmentView(hasMetadata: bool, blocks: seq<BlockBounds>, headerAt: nat -> Header)

  /** The block loop of one fragment. */
  function WalkBlocks(f: FragmentView, i: nat, mode: string): (seq<Visit>, string)
    requires i <= |f.blocks|
    decreases |f.blocks| - i
  {
    if i == |f.blocks| then ([], mode)
    else
      var w := Walk(f.headerAt, f.blocks[i].start, f.blocks[i].end, mode);
      var rest := WalkBlocks(f, i + 1, w.1);
      (w.0 + rest.0, rest.1)
  }

  /** One step of the block loop: block `i` is walked, then the blocks after it from the mode it leaves. */
  lemma BlocksFrom(f: FragmentView, i: nat, mode: string)
    requires i < |f.blocks|
    ensures var w := Walk(f.headerAt, f.blocks[i].start, f.blocks[i].end, mode);
            WalkBlocks(f, i, mode).0 == w.0 + WalkBlocks(f, i + 1, w.1).0 &&
            WalkBlocks(f, i, mode).1 == WalkBlocks(f, i + 1, w.1).1
  {
  }

  /** The fragment loop: fragments without metadata are skipped. */
  function WalkFragments(frags: seq<FragmentView>, mode: string): (seq<Visit>, string)
  {
    if frags == [] then ([], mode)
    else
      var w := if frags[0].hasMetadata then WalkBlocks(frags[0], 0, mode) else ([], mode);
      var rest := WalkFragments(frags[1..], w.1);
      (w.0 + rest.0, rest.1)
  }

  /** A fragment without metadata changes nothing. */
  lemma {:induction false} NoMetadataSkipped(frags: seq<FragmentView>, mode: string)
    ensures WalkFragments(frags, mode).0 == WalkFragments(WithMetadata(frags), mode).0
    ensures WalkFragments(frags, mode).1 == WalkFragments(WithMetadata(frags), mode).1
  {
    if frags != [] {
      NoMetadataSkipped(frags[1..], if frags[0].hasMetadata then WalkBlocks(frags[0], 0, mode).1 else mode);
      if !frags[0].hasMetadata {
        assert WalkFragments(frags, mode).0 == [] + WalkFragments(frags[1..], mode).0;
      } else {
        assert WithMetadata(frags) == [frags[0]] + WithMetadata(frags[1..]);
        assert ([frags[0]] + WithMetadata(frags[1..]))[1..] == WithMetadata(frags[1..]);
      }
    }
  }

  /** The fragments that have metadata, in order. */
  function WithMetadata(frags: seq<FragmentView>): (r: seq<FragmentView>)
    ensures |r| <= |frags|
    ensures forall k :: 0 <= k < |r| ==> r[k].hasMetadata
  {
    if frags == [] then []
    else if frags[0].hasMetadata then [frags[0]] + WithMetadata(frags[1..])
    else WithMetadata(frags[1..])
  }

  /** The fragment loop keeps the mode known. */
  lemma {:induction false} FragmentsKeepModeKnown(frags: seq<FragmentView>, mode: string)
    requires KnownMode(mode)
    ensures KnownMode(WalkFragments(frags, mode).1)
  {
    if frags != [] {
      var m := mode;
      if frags[0].hasMetadata {
        BlocksKeepModeKnown(frags[0], 0, mode);
        m := WalkBlocks(frags[0], 0, mode).1;
      }
      FragmentsKeepModeKnown(frags[1..], m);
    }
  }

  lemma {:induction false} BlocksKeepModeKnown(f: FragmentView, i: nat, mode: string)
    requires i <= |f.blocks| && KnownMode(mode)
    ensures KnownMode(WalkBlocks(f, i, mode).1)
    decreases |f.blocks| - i
  {
    if i < |f.blocks| {
      WalkKeepsModeKnown(f.headerAt, f.blocks[i].start, f.blocks[i].end, mode);
      BlocksKeepModeKnown(f, i + 1, Walk(f.headerAt, f.blocks[i].start, f.blocks[i].end, mode).1);
    }
  }

  /** One event: its number, and the `"daq"`/`"MU2E"` fragments if that product is there. */
  datatype Event = Event(number: nat, raw: Option<seq<FragmentView>>)

  class Mu2eProducer {
    /** `mode_`. */
    var mode: string
    /** The `EventNumber_t` products put so far. */
    var eventNumbers: seq<nat>
    /** The header visits of every event so far. */
    var visits: seq<Visit>

    predicate Valid()
      reads this
    {
      KnownMode(mode)
    }

    /** The configured mode, or "TRK" for one it does not know. */
    constructor (configured: string)
      ensures Valid() && mode == ConfiguredMode(configured)
      ensures eventNumbers == [] && visits == []
    {
      mode := if configured != "TRK" && configured != "CAL" && configured != "CRV" then "TRK" else configured;
      eventNumbers := [];
      visits := [];
    }

    /** `produce`: put the event number, then walk the MU2E fragments, if any. */
    method Produce(e: Event)
      requires Valid()
      modifies this
      ensures Valid()
      ensures eventNumbers == old(eventNumbers) + [e.number]
      ensures e.raw.None? ==> visits == old(visits) && mode == old(mode)
      ensures e.raw.Some? ==> var w := WalkFragments(e.raw.value, old(mode));
                              visits == old(visits) + w.0 && mode == w.1
    {
      eventNumbers := eventNumbers + [e.number];
      if e.raw.Some? {
        var frags := e.raw.value;
        FragmentsKeepModeKnown(frags, mode);
        var vs, m := WalkAll(frags, mode);
        visits := visits + vs;
        mode := m;
      }
    }

    /** The fragment and block loops. */
    static method WalkAll(frags: seq<FragmentView>, mode0: string) returns (vs: seq<Visit>, mode: string)
      ensures vs == WalkFragments(frags, mode0).0 && mode == WalkFragments(frags, mode0).1
    {
      vs, mode := [], mode0;
      for idx := 0 to |frags|
        invariant var rest := WalkFragments(frags[idx..], mode);
                  WalkFragments(frags, mode0).0 == vs + rest.0 && WalkFragments(frags, mode0).1 == rest.1
      {
        assert frags[idx..][0] == frags[idx] && frags[idx..][1..] == frags[idx + 1..];
        var f := frags[idx];
        var fvs, m := [], mode;
        if f.hasMetadata {
          fvs, m := WalkFragment(f, mode);
        }
        ghost var rest := WalkFragments(frags[idx + 1..], m);
        assert vs + (fvs + rest.0) == (vs + fvs) + rest.0;
        vs, mode := vs + fvs, m;
      }
      assert frags[|frags|..] == [] && vs + [] == vs;
    }

    /** The block loop of one fragment. */
    static method WalkFragment(f: FragmentView, mode0: string) returns (vs: seq<Visit>, mode: string)
      ensures vs == WalkBlocks(f, 0, mode0).0 && mode == WalkBlocks(f, 0, mode0).1
    {
      vs, mode := [], mode0;
      for b := 0 to |f.blocks|
        invariant WalkBlocks(f, 0, mode0).0 == vs + WalkBlocks(f, b, mode).0
        invariant WalkBlocks(f, 0, mode0).1 == WalkBlocks(f, b, mode).1
      {
        var bvs, m := WalkBlock(f.headerAt, f.blocks[b].start, f.blocks[b].end, mode);
        BlocksFrom(f, b, mode);
        assert vs + (bvs + WalkBlocks(f, b + 1, m).0) == (vs + bvs) + WalkBlocks(f, b + 1, m).0;
        vs, mode := vs + bvs, m;
      }
      assert vs + [] == vs;
    }

    /** The body of the cursor loop: read the header at the cursor, switch the mode, parse, and jump the block. */
    static method VisitHeader(headerAt: nat -> Header, cur: nat, mode0: string) returns (v: Visit, next: nat, mode: string)
      ensures mode == NextMode(mode0, headerAt(cur))
      ensures v == Visit(cur, Timestamp(headerAt(cur)), mode, ParseAs(mode, headerAt(cur)))
      ensures next == cur + Stride(headerAt(cur))
    {
      var h := headerAt(cur);
      mode := mode0;
      if h.subsystemId == 0 {
        mode := "TRK";
      } else if h.subsystemId == 1 {
        mode := "CAL";
      }
      var parse := NotParsed;
      if mode == "TRK" && h.packetCount > 0 {
        parse := TrackerHit;
      } else if mode == "CAL" && h.packetCount > 0 {
        parse := CalorimeterHit;
      }
      v := Visit(cur, h.timestampLow as nat + h.timestampMedium as nat * 0x1_0000, mode, parse);
      next := cur + (h.packetCount as nat + 1) * PACKET_BYTES;
    }

    /** The cursor loop over one data block. */
    static method WalkBlock(headerAt: nat -> Header, start: nat, end: nat, mode0: string) returns (vs: seq<Visit>, mode: string)
      ensures vs == Walk(headerAt, start, end, mode0).0 && mode == Walk(headerAt, start, end, mode0).1
    {
      vs, mode := [], mode0;
      var cur := start;
      while cur < end
        invariant Walk(headerAt, start, end, mode0).0 == vs + Walk(headerAt, cur, end, mode).0
        invariant Walk(headerAt, start, end, mode0).1 == Walk(headerAt, cur, end, mode).1
        decreases end - cur
      {
        WalkFrom(headerAt, cur, end, mode);
        var v, next, m := VisitHeader(headerAt, cur, mode);
        assert vs + ([v] + Walk(headerAt, next, end, m).0) == (vs + [v]) + Walk(headerAt, next, end, m).0;
        vs, cur, mode := vs + [v], next, m;
      }
      assert vs + [] == vs;
    }
  }
}
