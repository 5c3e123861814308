/**
 * `CurrentFragment`: the offline input source's cursor over one artdaq
 * fragment that holds several super blocks. Each super block is a run of DTC
 * data blocks, each starting with a data header packet that gives the
 * block's byte count; the cursor cuts the current super block into one
 * artdaq fragment per DTC/ROC and counts the blocks of one subsystem.
 *
 * A super block is modelled by its size and the data headers that decode at
 * byte offsets within it; decoding anywhere else throws, as the DTC library's
 * header constructor does on bad data.
 */
module CurrentFragments {

  import opened Common

  /** The fields of a DTC data header packet the cursor looks at. */
  datatype DataHeader = DataHeader(subsystem: int, id: int, ring: int, hop: int,
                                   byteCount: nat, timestamp: nat, evbMode: int)

  datatype SuperBlock = SuperBlock(size: nat, headers: map<nat, DataHeader>)

  /**
   * An artdaq fragment made by `Fragment::dataFrag`: the sequence id is the
   * header's timestamp, the fragment id its EVB mode, the payload the words
   * starting at `offset`, and the timestamp that of the enclosing fragment.
   */
  datatype OutFragment = OutFragment(sequenceId: nat, fragmentId: int, offset: nat,
                                     sizeWords: nat, timestamp: nat)

  /** A result, or the art `DataCorruption` exception the cursor throws when it overruns. */
  datatype Outcome<T> = Ok(value: T) | DataCorruption

  /** `sizeof(artdaq::RawDataType)`: fragments are counted in 64-bit words. */
  const WORD_BYTES: nat := 8

  /**
   * The header at `offset`, or None where the decoder throws. A header with
   * a zero byte count is read as unreadable, so that the walk always advances
   * (see `ZeroByteCountStallsAsWritten` for the code as written).
   */
  function ReadHeader(sb: SuperBlock, offset: nat): (h: Option<DataHeader>)
    ensures h.Some? ==> offset in sb.headers && h.value == sb.headers[offset] && h.value.byteCount > 0
    ensures h.None? ==> offset !in sb.headers || sb.headers[offset].byteCount == 0
  {
    if offset in sb.headers && sb.headers[offset].byteCount > 0 then Some(sb.headers[offset]) else None
  }

  /** Block `n` comes from the same DTC/ROC as `h` and from the requested subsystem. */
  predicate SameRoc(h: DataHeader, n: DataHeader, subsystem: int)
  {
    n.subsystem == subsystem && n.id == h.id && n.ring == h.ring && n.hop == h.hop
  }

  /**
   * The byte count of the block at `data` once the following blocks of the
   * same ROC are added, `bc` bytes being counted so far.
   */
  function Merged(sb: SuperBlock, subsystem: int, h: DataHeader, data: nat, bc: nat): (r: nat)
    ensures r >= bc
    decreases sb.size - (data + bc)
  {
    if data + bc >= sb.size then bc
    else match ReadHeader(sb, data + bc)
      case None => bc
      case Some(n) => if SameRoc(h, n, subsystem) then Merged(sb, subsystem, h, data, bc + n.byteCount) else bc
  }

  /** The positions `from` .. `to` are a chain of blocks of `h`'s ROC, each inside the super block. */
  predicate Chain(sb: SuperBlock, subsystem: int, h: DataHeader, lo: nat, hi: nat)
    decreases hi - lo
  {
    lo == hi ||
    (lo < hi && lo < sb.size && ReadHeader(sb, lo).Some? &&
     SameRoc(h, ReadHeader(sb, lo).value, subsystem) &&
     Chain(sb, subsystem, h, lo + ReadHeader(sb, lo).value.byteCount, hi))
  }

  /** Merging stops at the end of the super block, at an unreadable header or at another ROC's block. */
  predicate MergeStops(sb: SuperBlock, subsystem: int, h: DataHeader, pos: nat)
  {
    pos >= sb.size || ReadHeader(sb, pos).None? || !SameRoc(h, ReadHeader(sb, pos).value, subsystem)
  }

  /**
   * The merged byte count covers exactly the unbroken chain of same-ROC
   * blocks that follows, and ends where that chain stops.
   */
  lemma {:induction false} MergedIsChain(sb: SuperBlock, subsystem: int, h: DataHeader, data: nat, bc: nat)
    ensures Chain(sb, subsystem, h, data + bc, data + Merged(sb, subsystem, h, data, bc))
    ensures MergeStops(sb, subsystem, h, data + Merged(sb, subsystem, h, data, bc))
    decreases sb.size - (data + bc)
  {
    if data + bc < sb.size {
      match ReadHeader(sb, data + bc)
      case None =>
      case Some(n) =>
        if SameRoc(h, n, subsystem) {
          MergedIsChain(sb, subsystem, h, data, bc + n.byteCount);
        }
    }
  }

  /** `ceil(bytes / sizeof(RawDataType))`. */
  function CeilWords(bytes: nat): nat
  {
    if bytes % WORD_BYTES == 0 then bytes / WORD_BYTES else bytes / WORD_BYTES + 1
  }

  /** The word count is the least number of 64-bit words that hold the bytes. */
  lemma CeilWordsLeast(bytes: nat)
    ensures CeilWords(bytes) * WORD_BYTES >= bytes
    ensures CeilWords(bytes) == 0 || (CeilWords(bytes) - 1) * WORD_BYTES < bytes
  {
  }

  /**
   * The walk of `extractFragmentsFromBlock` from cursor `data`: the fragments
   * made and where the cursor ends. A block of the requested subsystem is
   * merged with its same-ROC successors into one fragment; the cursor then
   * moves by the (merged) byte count whether or not the block matched.
   */
  function Walk(sb: SuperBlock, subsystem: int, ts: nat, data: nat): (w: (seq<OutFragment>, nat))
    ensures w.1 >= data
    decreases sb.size - data
  {
    if data >= sb.size then ([], data)
    else match ReadHeader(sb, data)
      case None => ([], data)
      case Some(h) =>
        if h.subsystem == subsystem then
          var bc := Merged(sb, subsystem, h, data, h.byteCount);
          var rest := Walk(sb, subsystem, ts, data + bc);
          ([OutFragment(h.timestamp, h.evbMode, data, CeilWords(bc), ts)] + rest.0, rest.1)
        else Walk(sb, subsystem, ts, data + h.byteCount)
  }

  /** `extractFragmentsFromBlock`: the fragments, or DataCorruption when the cursor ends past the end. */
  function Extract(sb: SuperBlock, subsystem: int, ts: nat): Outcome<seq<OutFragment>>
  {
    var w := Walk(sb, subsystem, ts, 0);
    if w.1 <= sb.size then Ok(w.0) else DataCorruption
  }

  /** The walk of `getFragmentCount`: every block of the subsystem counts once, with no merging. */
  function CountWalk(sb: SuperBlock, subsystem: int, data: nat): (w: (nat, nat))
    ensures w.1 >= data
    decreases sb.size - data
  {
    if data >= sb.size then (0, data)
    else match ReadHeader(sb, data)
      case None => (0, data)
      case Some(h) =>
        var rest := CountWalk(sb, subsystem, data + h.byteCount);
        (rest.0 + (if h.subsystem == subsystem then 1 else 0), rest.1)
  }

  function Count(sb: SuperBlock, subsystem: int): Outcome<nat>
  {
    var w := CountWalk(sb, subsystem, 0);
    if w.1 <= sb.size then Ok(w.0) else DataCorruption
  }

  /**
   * Every fragment made comes from a readable header of the requested
   * subsystem at its offset, and carries that header's timestamp as sequence
   * id, its EVB mode as fragment id, and the enclosing fragment's timestamp.
   */
  lemma {:induction false} WalkFragmentsMatch(sb: SuperBlock, subsystem: int, ts: nat, data: nat)
    ensures forall k :: 0 <= k < |Walk(sb, subsystem, ts, data).0| ==>
              var f := Walk(sb, subsystem, ts, data).0[k];
              data <= f.offset < sb.size && ReadHeader(sb, f.offset).Some? &&
              ReadHeader(sb, f.offset).value.subsystem == subsystem &&
              f.sequenceId == ReadHeader(sb, f.offset).value.timestamp &&
              f.fragmentId == ReadHeader(sb, f.offset).value.evbMode &&
              f.sizeWords == CeilWords(Merged(sb, subsystem, ReadHeader(sb, f.offset).value, f.offset,
                                              ReadHeader(sb, f.offset).value.byteCount)) &&
              f.timestamp == ts
    decreases sb.size - data
  {
    if data < sb.size {
      match ReadHeader(sb, data)
      case None =>
      case Some(h) =>
        if h.subsystem == subsystem {
          WalkFragmentsMatch(sb, subsystem, ts, data + Merged(sb, subsystem, h, data, h.byteCount));
        } else {
          WalkFragmentsMatch(sb, subsystem, ts, data + h.byteCount);
        }
    }
  }

  /** Counting over a chain of same-ROC blocks counts each of them and ends where the chain ends. */
  lemma {:induction false} CountOverChain(sb: SuperBlock, subsystem: int, h: DataHeader, lo: nat, hi: nat)
    requires Chain(sb, subsystem, h, lo, hi)
    ensures CountWalk(sb, subsystem, lo).1 == CountWalk(sb, subsystem, hi).1
    ensures CountWalk(sb, subsystem, lo).0 >= CountWalk(sb, subsystem, hi).0
    decreases hi - lo
  {
    if lo != hi {
      CountOverChain(sb, subsystem, h, lo + ReadHeader(sb, lo).value.byteCount, hi);
    }
  }

  /**
   * Extraction and counting walk to the same place, so they agree on data
   * corruption, and extraction never makes more fragments than the count of
   * matching blocks.
   */
  lemma {:induction false} WalkWithinCount(sb: SuperBlock, subsystem: int, ts: nat, data: nat)
    ensures Walk(sb, subsystem, ts, data).1 == CountWalk(sb, subsystem, data).1
    ensures |Walk(sb, subsystem, ts, data).0| <= CountWalk(sb, subsystem, data).0
    decreases sb.size - data
  {
    if data < sb.size {
      match ReadHeader(sb, data)
      case None =>
      case Some(h) =>
        if h.subsystem == subsystem {
          var bc := Merged(sb, subsystem, h, data, h.byteCount);
          MergedIsChain(sb, subsystem, h, data, h.byteCount);
          CountOverChain(sb, subsystem, h, data + h.byteCount, data + bc);
          WalkWithinCount(sb, subsystem, ts, data + bc);
        } else {
          WalkWithinCount(sb, subsystem, ts, data + h.byteCount);
        }
    }
  }

  lemma ExtractWithinCount(sb: SuperBlock, subsystem: int, ts: nat)
    ensures Extract(sb, subsystem, ts).DataCorruption? <==> Count(sb, subsystem).DataCorruption?
    ensures Extract(sb, subsystem, ts).Ok? ==> |Extract(sb, subsystem, ts).value| <= Count(sb, subsystem).value
  {
    WalkWithinCount(sb, subsystem, ts, 0);
  }

  /**
   * The walk only overruns by jumping from inside the super block past its
   * end: an overrun means some block's (merged) byte count reached beyond the
   * end.
   */
  lemma {:induction false} OverrunNeedsLongBlock(sb: SuperBlock, subsystem: int, data: nat)
    requires data <= sb.size && CountWalk(sb, subsystem, data).1 > sb.size
    ensures data < sb.size
    ensures exists p :: data <= p < sb.size && ReadHeader(sb, p).Some? &&
                        p + ReadHeader(sb, p).value.byteCount > sb.size
    decreases sb.size - data
  {
    assert data < sb.size && ReadHeader(sb, data).Some?;
    var h := ReadHeader(sb, data).value;
    if data + h.byteCount <= sb.size {
      OverrunNeedsLongBlock(sb, subsystem, data + h.byteCount);
      var p :| data + h.byteCount <= p < sb.size && ReadHeader(sb, p).Some? &&
               p + ReadHeader(sb, p).value.byteCount > sb.size;
      assert data <= p;
    }
  }

  /** The loop of `extractFragmentsFromBlock` over one super block. */
  method ExtractFrom(sb: SuperBlock, subsystem: int, ts: nat) returns (r: Outcome<seq<OutFragment>>)
    ensures r == Extract(sb, subsystem, ts)
  {
    var result: seq<OutFragment> := [];
    var data: nat := 0;
    while data < sb.size
      invariant result + Walk(sb, subsystem, ts, data).0 == Walk(sb, subsystem, ts, 0).0
      invariant Walk(sb, subsystem, ts, data).1 == Walk(sb, subsystem, ts, 0).1
      decreases sb.size - data
    {
      var stop, out, next := ExtractStep(sb, subsystem, ts, data);
      if stop {
        break;
      }
      assert result + (out + Walk(sb, subsystem, ts, next).0) == (result + out) + Walk(sb, subsystem, ts, next).0;
      result := result + out;
      data := next;
    }
    assert Walk(sb, subsystem, ts, data) == ([], data);
    assert result + [] == result;
    r := if data <= sb.size then Ok(result) else DataCorruption;
  }

  /** One pass of the block loop: the fragment of the block at `data`, if it is of the subsystem, and the next cursor. */
  method ExtractStep(sb: SuperBlock, subsystem: int, ts: nat, data: nat)
    returns (stop: bool, out: seq<OutFragment>, next: nat)
    requires data < sb.size
    ensures stop ==> Walk(sb, subsystem, ts, data) == ([], data)
    ensures !stop ==> (next > data &&
      Walk(sb, subsystem, ts, data) == (out + Walk(sb, subsystem, ts, next).0, Walk(sb, subsystem, ts, next).1))
  {
    var header := ReadHeader(sb, data);
    if header.None? {
      return true, [], data;
    }
    var h := header.value;
    var byteCount := h.byteCount;
    out := [];
    if h.subsystem == subsystem {
      byteCount := MergeSameRoc(sb, subsystem, h, data);
      out := [OutFragment(h.timestamp, h.evbMode, data, CeilWords(byteCount), ts)];
    } else {
      assert out + Walk(sb, subsystem, ts, data + byteCount).0 == Walk(sb, subsystem, ts, data + byteCount).0;
    }
    stop, next := false, data + byteCount;
  }

  /** The inner loop: add the byte counts of the following blocks of the same ROC. */
  method MergeSameRoc(sb: SuperBlock, subsystem: int, h: DataHeader, data: nat) returns (byteCount: nat)
    ensures byteCount == Merged(sb, subsystem, h, data, h.byteCount)
  {
    byteCount := h.byteCount;
    while data + byteCount < sb.size
      invariant Merged(sb, subsystem, h, data, byteCount) == Merged(sb, subsystem, h, data, h.byteCount)
      decreases sb.size - (data + byteCount)
    {
      var next := ReadHeader(sb, data + byteCount);
      if next.None? || !SameRoc(h, next.value, subsystem) {
        break;
      }
      byteCount := byteCount + next.value.byteCount;
    }
  }

  /** The loop of `getFragmentCount` over one super block. */
  method CountFrom(sb: SuperBlock, subsystem: int) returns (r: Outcome<nat>)
    ensures r == Count(sb, subsystem)
  {
    var result := 0;
    var data: nat := 0;
    while data < sb.size
      invariant result + CountWalk(sb, subsystem, data).0 == CountWalk(sb, subsystem, 0).0
      invariant CountWalk(sb, subsystem, data).1 == CountWalk(sb, subsystem, 0).1
      decreases sb.size - data
    {
      var header := ReadHeader(sb, data);
      if header.None? {
        break;
      }
      if header.value.subsystem == subsystem {
        result := result + 1;
      }
      data := data + header.value.byteCount;
    }
    r := if data <= sb.size then Ok(result) else DataCorruption;
  }

  // The code as written decodes a header whatever its byte count.

  function ReadHeaderAsWritten(sb: SuperBlock, offset: nat): (h: Option<DataHeader>)
    ensures h.Some? <==> offset in sb.headers
  {
    if offset in sb.headers then Some(sb.headers[offset]) else None
  }

  /** Where the outer loop as written moves the cursor past a block of another subsystem. */
  function OuterStepAsWritten(sb: SuperBlock, subsystem: int, data: nat): (next: Option<nat>)
  {
    match ReadHeaderAsWritten(sb, data)
    case None => None
    case Some(h) => if h.subsystem != subsystem then Some(data + h.byteCount) else None
  }

  /** The byte count after one round of the merge loop as written, starting at `bc`. */
  function MergeStepAsWritten(sb: SuperBlock, subsystem: int, h: DataHeader, data: nat, bc: nat): (r: nat)
  {
    match ReadHeaderAsWritten(sb, data + bc)
    case None => bc
    case Some(n) => if SameRoc(h, n, subsystem) then bc + n.byteCount else bc
  }

  /**
   * As written, a header with byte count 0 inside the super block never
   * moves the cursor: for another subsystem the outer loop stays at `data`
   * with `data < end`, and for the requested subsystem the merge loop keeps
   * re-reading the same header and adding 0. Both loops then run forever.
   */
  lemma ZeroByteCountStallsAsWritten(sb: SuperBlock, subsystem: int, data: nat)
    requires data < sb.size && data in sb.headers && sb.headers[data].byteCount == 0
    ensures sb.headers[data].subsystem != subsystem ==> OuterStepAsWritten(sb, subsystem, data) == Some(data)
    ensures sb.headers[data].subsystem == subsystem ==>
              MergeStepAsWritten(sb, subsystem, sb.headers[data], data, 0) == 0
  {
  }

  /** The per-process event counter of the debug event-number mode (a static `size_t`). */
  class EventNumberCounter {
    var eventNum: nat

    constructor ()
      ensures eventNum == 0
    {
      eventNum := 0;
    }
  }

  /** `(uint64_t(pid) << 16) + n`, in 64-bit arithmetic. */
  function DebugTimestamp(pid: nat, n: nat): (t: nat)
    ensures t < TWO_64
  {
    U64(U64(pid * 0x1_0000) + n)
  }

  /** Successive debug timestamps strictly increase while the sum stays below 2^64. */
  lemma DebugTimestampIncreases(pid: nat, n: nat)
    requires pid * 0x1_0000 + n + 1 < TWO_64
    ensures DebugTimestamp(pid, n) < DebugTimestamp(pid, n + 1)
    ensures DebugTimestamp(pid, n + 1) == pid * 0x1_0000 + n + 1
  {
    assert U64(pid * 0x1_0000) == pid * 0x1_0000;
    assert U64(pid * 0x1_0000 + n) == pid * 0x1_0000 + n;
    assert U64(pid * 0x1_0000 + n + 1) == pid * 0x1_0000 + n + 1;
  }

  /** `Mu2eEventHeader`: the event's timestamp and EVB mode. */
  datatype EventHeader = EventHeader(timestamp: nat, evbMode: int)

  /** The cursor's fields as a value. */
  datatype CursorView = CursorView(hasReader: bool, blocks: seq<SuperBlock>, fragmentTimestamp: nat,
                                   current: Option<nat>, blockCount: nat, debugEventNumberMode: bool)

  predicate ViewValid(v: CursorView)
  {
    if v.hasReader then v.current == Some(v.blockCount) else v.current.None?
  }

  predicate ViewEmpty(v: CursorView)
  {
    v.current.None? || v.current.value >= |v.blocks|
  }

  /** A cursor at the first super block of a fragment, as the one-argument constructor makes it. */
  function FreshView(blocks: seq<SuperBlock>, fragmentTimestamp: nat): (v: CursorView)
    ensures ViewValid(v) && v.blockCount == 0
  {
    CursorView(true, blocks, fragmentTimestamp, Some(0), 0, false)
  }

  /** `advanceOneBlock` on a value: one more super block processed, the pointer at the next one. */
  function Advanced(v: CursorView): (r: CursorView)
    ensures ViewValid(r) && r.blockCount == v.blockCount + 1 && r.blocks == v.blocks
  {
    v.(hasReader := true, blockCount := v.blockCount + 1, current := Some(v.blockCount + 1))
  }

  class CurrentFragment {
    /** Whether the cursor was built over a fragment (`reader_` is set). */
    var hasReader: bool
    var blocks: seq<SuperBlock>
    /** The enclosing artdaq fragment's timestamp. */
    var fragmentTimestamp: nat
    /** The super block `current_` points at; None for a null pointer. */
    var current: Option<nat>
    var blockCount: nat
    var debugEventNumberMode: bool

    /** `current_` always points at the super block numbered `block_count_`. */
    predicate Valid()
      reads this
    {
      ViewValid(View())
    }

    function View(): CursorView
      reads this
    {
      CursorView(hasReader, blocks, fragmentTimestamp, current, blockCount, debugEventNumberMode)
    }

    /** A default cursor has no fragment and a null `current_`. */
    constructor Default()
      ensures Valid() && !hasReader && current.None? && Empty()
    {
      hasReader, blocks, fragmentTimestamp := false, [], 0;
      current, blockCount, debugEventNumberMode := None, 0, false;
    }

    /** A cursor at the first super block of a fragment. */
    constructor (blocks: seq<SuperBlock>, fragmentTimestamp: nat, debugEventNumberMode: bool)
      ensures Valid() && hasReader && blockCount == 0 && current == Some(0)
      ensures this.blocks == blocks && this.fragmentTimestamp == fragmentTimestamp
      ensures this.debugEventNumberMode == debugEventNumberMode
    {
      hasReader, this.blocks, this.fragmentTimestamp := true, blocks, fragmentTimestamp;
      current, blockCount, this.debugEventNumberMode := Some(0), 0, debugEventNumberMode;
    }

    function ProcessedSuperBlocks(): (n: nat)
      reads this
      requires Valid()
      ensures hasReader ==> current == Some(n)
    {
      blockCount
    }

    /** Nothing is left: the pointer is null or at or past the end of the data. */
    predicate Empty()
      reads this
    {
      ViewEmpty(View())
    }

    method AdvanceOneBlock()
      requires Valid() && hasReader
      modifies this
      ensures Valid() && View() == Advanced(old(View()))
      ensures blockCount == old(blockCount) + 1 && current == Some(blockCount)
      ensures blocks == old(blocks) && hasReader && fragmentTimestamp == old(fragmentTimestamp)
      ensures debugEventNumberMode == old(debugEventNumberMode)
    {
      blockCount := blockCount + 1;
      current := Some(blockCount);
    }

    /** Callers only extract from a cursor that is not empty. */
    method ExtractFragmentsFromBlock(subsystem: int) returns (r: Outcome<seq<OutFragment>>)
      requires Valid() && !Empty()
      ensures r == Extract(blocks[blockCount], subsystem, fragmentTimestamp)
    {
      r := ExtractFrom(blocks[blockCount], subsystem, fragmentTimestamp);
    }

    method GetFragmentCount(subsystem: int) returns (r: Outcome<nat>)
      requires Valid() && !Empty()
      ensures r == Count(blocks[blockCount], subsystem)
    {
      r := CountFrom(blocks[blockCount], subsystem);
    }

    /**
     * The event timestamp: in debug mode a fresh process-wide number, else
     * the first header's timestamp (None where that header does not decode,
     * as the uncaught decoder exception).
     */
    method GetCurrentTimestamp(counter: EventNumberCounter, pid: nat) returns (t: Option<nat>)
      requires Valid() && !Empty()
      modifies counter
      ensures debugEventNumberMode ==>
                counter.eventNum == U64(old(counter.eventNum) + 1) &&
                t == Some(DebugTimestamp(pid, counter.eventNum))
      ensures !debugEventNumberMode ==>
                counter.eventNum == old(counter.eventNum) &&
                t == (match ReadHeaderAsWritten(blocks[blockCount], 0)
                      case Some(h) => Some(h.timestamp) case None => None)
    {
      if debugEventNumberMode {
        counter.eventNum := U64(counter.eventNum + 1);
        t := Some(DebugTimestamp(pid, counter.eventNum));
      } else {
        var header := ReadHeaderAsWritten(blocks[blockCount], 0);
        t := if header.Some? then Some(header.value.timestamp) else None;
      }
    }

    /**
     * `makeMu2eEventHeader`: EVB mode 0 and the debug timestamp in debug
     * mode; otherwise the first header's timestamp and EVB mode. None where
     * the first header does not decode.
     */
    method MakeMu2eEventHeader(counter: EventNumberCounter, pid: nat) returns (e: Option<EventHeader>)
      requires Valid() && !Empty()
      modifies counter
      ensures debugEventNumberMode ==>
                counter.eventNum == U64(old(counter.eventNum) + 1) &&
                e == Some(EventHeader(DebugTimestamp(pid, counter.eventNum), 0))
      ensures !debugEventNumberMode ==>
                counter.eventNum == old(counter.eventNum) &&
                e == (match ReadHeaderAsWritten(blocks[blockCount], 0)
                      case Some(h) => Some(EventHeader(h.timestamp, h.evbMode)) case None => None)
    {
      var timestamp := GetCurrentTimestamp(counter, pid);
      if timestamp.None? {
        return None;
      }
      var evbMode := 0;
      var ts := timestamp.value;
      if !debugEventNumberMode {
        var header := ReadHeaderAsWritten(blocks[blockCount], 0);
        if header.Some? {
          ts, evbMode := header.value.timestamp, header.value.evbMode;
        }
      }
      e := Some(EventHeader(ts, evbMode));
    }
  }
}
