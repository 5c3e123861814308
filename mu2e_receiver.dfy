/**
 * `Mu2eReceiver` (mu2e-artdaq): the block-building DTC generator. One call
 * fills one MU2E fragment with up to `BLOCK_COUNT_MAX` sub-events, each made
 * of the data blocks one DTC read returns; blocks that sit back to back in
 * memory are copied together. With `send_empty_fragments` the boards of a
 * group take turns: every other board sends an empty fragment for the event.
 */
module Mu2eReceiverGenerator {

  import opened Common
  import opened DtcReads

  /**
   * A `DTC_DataBlock`: where it sits in memory, its size, the timestamp its
   * header packet carries, and the bytes stored from its address on.
   */
  datatype DataBlock = DataBlock(address: nat, byteSize: nat, timestamp: nat, bytes: seq<Byte>)

  /** Every block holds exactly `byteSize` bytes. */
  predicate WellFormed(data: seq<DataBlock>)
  {
    forall k :: 0 <= k < |data| ==> |data[k].bytes| == data[k].byteSize
  }

  /** The sum of the blocks' `byteSize`. */
  function Sizes(data: seq<DataBlock>): nat
  {
    if data == [] then 0 else data[0].byteSize + Sizes(data[1..])
  }

  /** The blocks' bytes, one after the other. */
  function Flatten(data: seq<DataBlock>): seq<Byte>
  {
    if data == [] then [] else data[0].bytes + Flatten(data[1..])
  }

  lemma {:induction false} SizesAppend(a: seq<DataBlock>, b: seq<DataBlock>)
    ensures Sizes(a + b) == Sizes(a) + Sizes(b)
  {
    if a == [] {
      assert a + b == b;
    } else {
      assert (a + b)[1..] == a[1..] + b;
      SizesAppend(a[1..], b);
    }
  }

  lemma {:induction false} FlattenAppend(a: seq<DataBlock>, b: seq<DataBlock>)
    ensures Flatten(a + b) == Flatten(a) + Flatten(b)
  {
    if a == [] {
      assert a + b == b;
    } else {
      assert (a + b)[1..] == a[1..] + b;
      FlattenAppend(a[1..], b);
    }
  }

  /** Well-formed blocks flatten to as many bytes as their sizes add up to. */
  lemma {:induction false} FlattenLength(data: seq<DataBlock>)
    requires WellFormed(data)
    ensures |Flatten(data)| == Sizes(data)
  {
    if data != [] {
      assert WellFormed(data[1..]) by {
        forall k | 0 <= k < |data[1..]| ensures |data[1..][k].bytes| == data[1..][k].byteSize {
          assert data[1..][k] == data[k + 1];
        }
      }
      FlattenLength(data[1..]);
    }
  }

  // Coalescing contiguous blocks.

  /** Block `k + 1` starts where block `k` ends. */
  predicate Adjacent(data: seq<DataBlock>, k: nat)
    requires k + 1 < |data|
  {
    data[k + 1].address == data[k].address + data[k].byteSize
  }

  /** Blocks `s` to `e` sit back to back in memory. */
  predicate Contiguous(data: seq<DataBlock>, s: nat, e: nat)
    requires s <= e < |data|
  {
    forall k :: s <= k < e ==> Adjacent(data, k)
  }

  /**
   * The inner `while` with the bounds check the copy loop needs: the run that
   * started at `begin` grows while the next block starts where the run ends.
   * The last block of the run and the run's size.
   */
  function RunFrom(data: seq<DataBlock>, begin: nat, i: nat, size: nat): (r: (nat, nat))
    requires i < |data|
    ensures i <= r.0 < |data|
    decreases |data| - i
  {
    if i + 1 < |data| && data[i + 1].address == begin + size then RunFrom(data, begin, i + 1, size + data[i + 1].byteSize)
    else (i, size)
  }

  lemma SizesSnoc(data: seq<DataBlock>, s: nat, e: nat)
    requires s <= e < |data|
    ensures Sizes(data[s..e + 1]) == Sizes(data[s..e]) + data[e].byteSize
  {
    assert data[s..e + 1] == data[s..e] + [data[e]];
    SizesAppend(data[s..e], [data[e]]);
  }

  /**
   * A run is contiguous, its size is the sum of its blocks' sizes, and it is
   * as long as it can be: the block after it does not start where it ends.
   */
  lemma {:induction false} RunFromFacts(data: seq<DataBlock>, s: nat, i: nat, size: nat)
    requires s <= i < |data| && size == Sizes(data[s..i + 1]) && Contiguous(data, s, i)
    requires data[s].address + size == data[i].address + data[i].byteSize
    ensures var (e, sz) := RunFrom(data, data[s].address, i, size);
      i <= e && sz == Sizes(data[s..e + 1]) && Contiguous(data, s, e) && (e + 1 < |data| ==> !Adjacent(data, e))
    decreases |data| - i
  {
    var begin := data[s].address;
    if i + 1 < |data| && data[i + 1].address == begin + size {
      assert Adjacent(data, i);
      assert Contiguous(data, s, i + 1);
      SizesSnoc(data, s, i + 1);
      RunFromFacts(data, s, i + 1, size + data[i + 1].byteSize);
      assert RunFrom(data, begin, i, size) == RunFrom(data, begin, i + 1, size + data[i + 1].byteSize);
    } else {
      assert RunFrom(data, begin, i, size) == (i, size);
    }
  }

  /** One copy: blocks `first` to `last`, `size` bytes. */
  datatype Run = Run(first: nat, last: nat, size: nat)

  /** The copies made for blocks `i` onwards. */
  function RunsFrom(data: seq<DataBlock>, i: nat): (runs: seq<Run>)
    requires i <= |data|
    decreases |data| - i
  {
    if i == |data| then []
    else
      var (e, sz) := RunFrom(data, data[i].address, i, data[i].byteSize);
      [Run(i, e, sz)] + RunsFrom(data, e + 1)
  }

  function TotalSize(runs: seq<Run>): nat
  {
    if runs == [] then 0 else runs[0].size + TotalSize(runs[1..])
  }

  /** Every run covers a contiguous stretch of blocks, as long as possible, with its size the sum of theirs. */
  predicate GoodRun(data: seq<DataBlock>, r: Run)
  {
    r.first <= r.last < |data| && r.size == Sizes(data[r.first..r.last + 1]) && Contiguous(data, r.first, r.last) &&
    (r.last + 1 < |data| ==> !Adjacent(data, r.last))
  }

  /** The first copy from block `i` is a good run. */
  lemma FirstRunGood(data: seq<DataBlock>, i: nat)
    requires i < |data|
    ensures var (e, sz) := RunFrom(data, data[i].address, i, data[i].byteSize); GoodRun(data, Run(i, e, sz))
  {
    assert Sizes(data[i..i + 1]) == data[i].byteSize by {
      assert data[i..i + 1] == [data[i]];
      assert [data[i]][1..] == [];
    }
    RunFromFacts(data, i, i, data[i].byteSize);
  }

  /**
   * The copies partition blocks `i` onwards in order: each starts right after
   * the previous one ends and the last ends at the last block.
   */
  lemma {:induction false} RunsFromShape(data: seq<DataBlock>, i: nat)
    requires i <= |data|
    ensures var runs := RunsFrom(data, i);
      (runs == [] <==> i == |data|) &&
      (runs != [] ==> runs[0].first == i && runs[|runs| - 1].last == |data| - 1) &&
      (forall k :: 0 <= k < |runs| - 1 ==> runs[k + 1].first == runs[k].last + 1) &&
      (forall k :: 0 <= k < |runs| ==> runs[k].first <= runs[k].last < |data|)
    decreases |data| - i
  {
    if i < |data| {
      var (e, sz) := RunFrom(data, data[i].address, i, data[i].byteSize);
      RunsFromShape(data, e + 1);
      var runs := RunsFrom(data, i);
      assert runs == [Run(i, e, sz)] + RunsFrom(data, e + 1);
      forall k | 0 <= k < |runs| - 1 ensures runs[k + 1].first == runs[k].last + 1 {
        if k > 0 {
          assert runs[k] == RunsFrom(data, e + 1)[k - 1];
        }
      }
    }
  }

  /** Every copy from block `i` on is a good run. */
  lemma {:induction false} RunsFromAllGood(data: seq<DataBlock>, i: nat)
    requires i <= |data|
    ensures var runs := RunsFrom(data, i); forall k :: 0 <= k < |runs| ==> GoodRun(data, runs[k])
    decreases |data| - i
  {
    if i < |data| {
      var (e, sz) := RunFrom(data, data[i].address, i, data[i].byteSize);
      FirstRunGood(data, i);
      RunsFromAllGood(data, e + 1);
      var runs := RunsFrom(data, i);
      assert runs[0] == Run(i, e, sz) && runs[1..] == RunsFrom(data, e + 1);
      forall k | 0 <= k < |runs| ensures GoodRun(data, runs[k]) {
        if k == 0 {
          assert GoodRun(data, Run(i, e, sz));
        } else {
          assert runs[k] == runs[1..][k - 1];
        }
      }
    }
  }

  /** The copies from block `i` on copy, together, the blocks' total size. */
  lemma {:induction false} RunsFromTotal(data: seq<DataBlock>, i: nat)
    requires i <= |data|
    ensures TotalSize(RunsFrom(data, i)) == Sizes(data[i..])
    decreases |data| - i
  {
    if i < |data| {
      var (e, sz) := RunFrom(data, data[i].address, i, data[i].byteSize);
      FirstRunGood(data, i);
      RunsFromTotal(data, e + 1);
      var runs := RunsFrom(data, i);
      assert runs[0] == Run(i, e, sz) && runs[1..] == RunsFrom(data, e + 1);
      assert TotalSize(runs) == sz + TotalSize(runs[1..]);
      assert data[i..] == data[i..e + 1] + data[e + 1..];
      SizesAppend(data[i..e + 1], data[e + 1..]);
    } else {
      assert data[i..] == [];
    }
  }

  /** Every copy from block `i` on is a good run, and together they copy the blocks' total size. */
  lemma RunsFromGood(data: seq<DataBlock>, i: nat)
    requires i <= |data|
    ensures var runs := RunsFrom(data, i);
      (forall k :: 0 <= k < |runs| ==> GoodRun(data, runs[k])) && TotalSize(runs) == Sizes(data[i..])
  {
    RunsFromAllGood(data, i);
    RunsFromTotal(data, i);
  }

  /** The copies made for a whole read. */
  function Coalesce(data: seq<DataBlock>): (runs: seq<Run>)
  {
    RunsFrom(data, 0)
  }

  /** The copies of a read cover all its blocks in order and add up to its total size. */
  lemma CoalesceCoversRead(data: seq<DataBlock>)
    ensures var runs := Coalesce(data);
      (runs == [] <==> data == []) &&
      (runs != [] ==> runs[0].first == 0 && runs[|runs| - 1].last == |data| - 1) &&
      (forall k :: 0 <= k < |runs| - 1 ==> runs[k + 1].first == runs[k].last + 1) &&
      (forall k :: 0 <= k < |runs| ==> GoodRun(data, runs[k])) &&
      TotalSize(runs) == Sizes(data)
  {
    RunsFromShape(data, 0);
    RunsFromGood(data, 0);
    assert data[0..] == data;
  }

  /**
   * The inner `while` as written: it compares `data[i + 1]`'s pointer before
   * checking that there is a block `i + 1`, so a run that reaches the last
   * block reads past the end of the vector (None).
   */
  function RunFromAsWritten(data: seq<DataBlock>, begin: nat, i: nat, size: nat): (r: Option<(nat, nat)>)
    requires i < |data|
    ensures r.Some? ==> i <= r.value.0 < |data| - 1
    decreases |data| - i
  {
    if i + 1 >= |data| then None
    else if data[i + 1].address == begin + size then RunFromAsWritten(data, begin, i + 1, size + data[i + 1].byteSize)
    else Some((i, size))
  }

  /** The copies as written, for blocks `i` onwards; None once a read past the end happens. */
  function RunsFromAsWritten(data: seq<DataBlock>, i: nat): (runs: Option<seq<Run>>)
    requires i <= |data|
    decreases |data| - i
  {
    if i == |data| then Some([])
    else
      match RunFromAsWritten(data, data[i].address, i, data[i].byteSize)
      case None => None
      case Some((e, sz)) =>
        match RunsFromAsWritten(data, e + 1)
        case None => None
        case Some(rest) => Some([Run(i, e, sz)] + rest)
  }

  /**
   * As written, every read with at least one block ends in a read past the
   * end of the block vector: the last run always reaches the last block. A
   * single block is enough to show it.
   */
  lemma {:induction false} CoalesceAsWrittenReadsPastEnd(data: seq<DataBlock>, i: nat)
    requires i < |data|
    ensures RunsFromAsWritten(data, i) == None
    ensures RunsFromAsWritten([DataBlock(0, 16, 0, [])], 0) == None && Coalesce([DataBlock(0, 16, 0, [])]) == [Run(0, 0, 16)]
    decreases |data| - i
  {
    match RunFromAsWritten(data, data[i].address, i, data[i].byteSize)
    case None =>
    case Some((e, sz)) =>
      CoalesceAsWrittenReadsPastEnd(data, e + 1);
  }

  // Timestamps.

  /**
   * `highest_timestamp_seen_`, `timestamp_loops_` and the fragment timestamp
   * set by the first block of the event (None until then).
   */
  datatype TsState = TsState(highest: nat, loops: nat, fragTs: Option<nat>)

  /**
   * The timestamp of a block that starts a copy: it raises the highest seen;
   * the event's first block also sets the fragment timestamp, offset by
   * loops × (highest + 1) when it is below the highest, after bumping the loop
   * count when it is 0. `size_t` arithmetic.
   */
  function Stamp(st: TsState, ts: nat): (r: TsState)
  {
    var highest := if ts > st.highest then ts else st.highest;
    if st.fragTs.Some? then st.(highest := highest)
    else if ts < highest then
      var loops := if ts == 0 then st.loops + 1 else st.loops;
      TsState(highest, loops, Some(U64(ts + loops * U64(highest + 1))))
    else TsState(highest, st.loops, Some(ts))
  }

  /**
   * The highest timestamp tracks the maximum; the fragment timestamp is set
   * once and never changed; a first block at or above the highest keeps its
   * timestamp, and a first block at 0 below the highest starts a new loop and
   * (without overflow) lands above every timestamp seen before.
   */
  lemma StampFacts(st: TsState, ts: nat)
    requires st.highest < TWO_64
    ensures Stamp(st, ts).highest == (if ts > st.highest then ts else st.highest)
    ensures st.fragTs.Some? ==> Stamp(st, ts).fragTs == st.fragTs && Stamp(st, ts).loops == st.loops
    ensures st.fragTs.None? ==> Stamp(st, ts).fragTs.Some?
    ensures st.fragTs.None? && ts >= st.highest ==> Stamp(st, ts) == TsState(ts, st.loops, Some(ts))
    ensures st.fragTs.None? && ts == 0 < st.highest ==>
      Stamp(st, ts).loops == st.loops + 1 &&
      ((st.loops + 1) * (st.highest + 1) < TWO_64 ==> Stamp(st, ts).fragTs.value > st.highest)
  {
    if st.fragTs.None? && ts == 0 < st.highest && (st.loops + 1) * (st.highest + 1) < TWO_64 {
      assert st.highest + 1 < TWO_64;
      assert U64(st.highest + 1) == st.highest + 1;
      DtcReads.MulMonotone(1, st.loops + 1, st.highest + 1);
    }
  }

  /**
   * The copy loop over one read from block `i` on: the bytes copied and the
   * timestamp state; the first block of each copy is the one whose
   * timestamp is looked at.
   */
  function CopyFrom(st: TsState, data: seq<DataBlock>, i: nat): (r: (seq<Byte>, TsState))
    requires i <= |data|
    decreases |data| - i
  {
    if i == |data| then ([], st)
    else
      var (e, sz) := RunFrom(data, data[i].address, i, data[i].byteSize);
      var (rest, st2) := CopyFrom(Stamp(st, data[i].timestamp), data, e + 1);
      (Flatten(data[i..e + 1]) + rest, st2)
  }

  /** The bytes the copy loop produces from block `i` on are those of the blocks, in order. */
  lemma {:induction false} CopyFromFlatten(st: TsState, data: seq<DataBlock>, i: nat)
    requires i <= |data|
    ensures CopyFrom(st, data, i).0 == Flatten(data[i..])
    decreases |data| - i
  {
    if i < |data| {
      var (e, sz) := RunFrom(data, data[i].address, i, data[i].byteSize);
      CopyFromFlatten(Stamp(st, data[i].timestamp), data, e + 1);
      assert data[i..] == data[i..e + 1] + data[e + 1..];
      FlattenAppend(data[i..e + 1], data[e + 1..]);
    }
  }

  /**
   * Coalescing changes how the bytes are copied, not what is copied: the
   * sub-event holds the bytes of every block read, in order, and (for
   * well-formed blocks) is as long as their total size.
   */
  lemma CopyFromBytes(st: TsState, data: seq<DataBlock>, i: nat)
    requires i <= |data|
    ensures CopyFrom(st, data, i).0 == Flatten(data[i..])
    ensures WellFormed(data) ==> |CopyFrom(st, data, i).0| == Sizes(data[i..])
  {
    CopyFromFlatten(st, data, i);
    if WellFormed(data) {
      assert WellFormed(data[i..]) by {
        forall k | 0 <= k < |data[i..]| ensures |data[i..][k].bytes| == data[i..][k].byteSize {
          assert data[i..][k] == data[i + k];
        }
      }
      FlattenLength(data[i..]);
    }
  }

  /** Copying a read never lowers the highest timestamp and sets the fragment timestamp if the read has blocks. */
  lemma {:induction false} CopyFromTimestamps(st: TsState, data: seq<DataBlock>, i: nat)
    requires i <= |data|
    ensures CopyFrom(st, data, i).1.highest >= st.highest
    ensures st.fragTs.Some? ==> CopyFrom(st, data, i).1.fragTs == st.fragTs
    ensures i < |data| ==> CopyFrom(st, data, i).1.fragTs.Some? && CopyFrom(st, data, i).1.highest >= data[i].timestamp
    decreases |data| - i
  {
    if i < |data| {
      var (e, sz) := RunFrom(data, data[i].address, i, data[i].byteSize);
      CopyFromTimestamps(Stamp(st, data[i].timestamp), data, e + 1);
    }
  }

  // The block loop.

  /** The event being filled: sub-events so far, the DTC replies still to come and the timestamps. */
  datatype EventFill = EventFill(blockCount: nat, subEvents: seq<seq<Byte>>, dtc: seq<seq<DataBlock>>, ts: TsState)

  /** How the block loop ends: thrown on an empty first block, or done. */
  datatype Filled = Threw(dtc: seq<seq<DataBlock>>) | Done(fill: EventFill)

  /** `should_stop()` at its `poll`-th call: a stop request, once made at poll `stopFrom`, stays. */
  predicate Stopped(stopFrom: Option<nat>, poll: nat)
  {
    stopFrom.Some? && poll >= stopFrom.value
  }

  /** The `while (hdr_block_count() < BLOCK_COUNT_MAX)` loop. */
  function BlockLoop(blockCountMax: nat, stopFrom: Option<nat>, f: EventFill): (r: Filled)
    decreases blockCountMax - f.blockCount
  {
    if f.blockCount >= blockCountMax || Stopped(stopFrom, 1 + f.blockCount) then Done(f)
    else
      var (data, n) := Retry(f.dtc);
      var dtc := AfterReads(f.dtc, n);
      if data == [] then (if f.blockCount == 0 then Threw(dtc) else Done(f.(dtc := dtc)))
      else
        var (bytes, ts) := CopyFrom(f.ts, data, 0);
        BlockLoop(blockCountMax, stopFrom, EventFill(f.blockCount + 1, f.subEvents + [bytes], dtc, ts))
  }

  /**
   * The loop keeps one sub-event per block counted and never goes past
   * `BLOCK_COUNT_MAX`; it throws only when it has no block yet, and it never
   * loses a sub-event or lowers the highest timestamp.
   */
  lemma {:induction false} BlockLoopFacts(blockCountMax: nat, stopFrom: Option<nat>, f: EventFill)
    requires f.blockCount == |f.subEvents|
    ensures BlockLoop(blockCountMax, stopFrom, f).Threw? ==> f.blockCount == 0
    ensures BlockLoop(blockCountMax, stopFrom, f).Done? ==>
      var g := BlockLoop(blockCountMax, stopFrom, f).fill;
      g.blockCount == |g.subEvents| && f.blockCount <= g.blockCount &&
      (f.blockCount <= blockCountMax ==> g.blockCount <= blockCountMax) &&
      g.subEvents[..|f.subEvents|] == f.subEvents && g.ts.highest >= f.ts.highest
    decreases blockCountMax - f.blockCount
  {
    if !(f.blockCount >= blockCountMax || Stopped(stopFrom, 1 + f.blockCount)) {
      var (data, n) := Retry(f.dtc);
      if data != [] {
        var (bytes, ts) := CopyFrom(f.ts, data, 0);
        CopyFromTimestamps(f.ts, data, 0);
        var f' := EventFill(f.blockCount + 1, f.subEvents + [bytes], AfterReads(f.dtc, n), ts);
        BlockLoopFacts(blockCountMax, stopFrom, f');
        if BlockLoop(blockCountMax, stopFrom, f').Done? {
          var g := BlockLoop(blockCountMax, stopFrom, f').fill;
          assert g.subEvents[..|f'.subEvents|][..|f.subEvents|] == g.subEvents[..|f.subEvents|];
        }
      }
    }
  }

  /** An event's block loop throws exactly when it may read a block and the first six reads are all empty. */
  lemma BlockLoopThrows(blockCountMax: nat, stopFrom: Option<nat>, dtc: seq<seq<DataBlock>>, ts: TsState)
    ensures BlockLoop(blockCountMax, stopFrom, EventFill(0, [], dtc, ts)).Threw? <==>
      blockCountMax > 0 && !Stopped(stopFrom, 1) && forall i :: 0 <= i < MAX_READS ==> ReplyAt(dtc, i) == []
  {
    RetryFirstData(dtc);
    var (data, n) := Retry(dtc);
    if blockCountMax > 0 && !Stopped(stopFrom, 1) && data != [] {
      var (bytes, ts') := CopyFrom(ts, data, 0);
      var f' := EventFill(1, [] + [bytes], AfterReads(dtc, n), ts');
      assert BlockLoop(blockCountMax, stopFrom, EventFill(0, [], dtc, ts)) == BlockLoop(blockCountMax, stopFrom, f');
      BlockLoopFacts(blockCountMax, stopFrom, f');
    }
  }

  // One call.

  /**
   * The generator's configuration: sim mode, fragment ID, board ID (a
   * `uint8_t`), `fragment_receiver_count`, `send_empty_fragments`,
   * `number_of_events_to_generate` and `BLOCK_COUNT_MAX`.
   */
  datatype Config = Config(mode: nat, fragmentId: nat, boardId: nat, nSkip: nat, sendEmpties: bool,
                           nEvents: nat, blockCountMax: nat)

  /** The generator's changing fields, the DTC replies still to come and the range starts requested from the CFO. */
  datatype RecvState = RecvState(evCounter: nat, highest: nat, loops: nat, dtc: seq<seq<DataBlock>>, requests: seq<nat>)

  /** `mu2eFragment::Metadata`: the sim mode, the run number and the board ID a data fragment carries. */
  datatype Metadata = Metadata(simMode: nat, runNumber: nat, boardId: nat)

  /**
   * What a call appends to `frags`. A data fragment has the generator's
   * `fragment_type_`, which the constructor fixes to MU2E.
   */
  datatype Output = Mu2eFragment(sequenceId: nat, fragmentId: nat, metadata: Metadata, timestamp: Option<nat>,
                                 subEvents: seq<seq<Byte>>)
                  | EmptyFragment(sequenceId: nat, fragmentId: nat)

  /**
   * How a call ends: it returns, it throws, or it takes the remainder of
   * `ev_counter()` by a `fragment_receiver_count` of 0, which C++ leaves
   * undefined (a hardware trap on common machines).
   */
  datatype Outcome = Returned(ok: bool, out: seq<Output>) | Thrown | DividedByZero

  const TWO_31: int := 0x8000_0000
  const TWO_32: int := 0x1_0000_0000

  /** The conversion of a `size_t` to `int`: the low 32 bits, two's complement. */
  function Int32(x: nat): (r: int)
    ensures -TWO_31 <= r < TWO_31
    ensures x < TWO_31 ==> r == x
  {
    var low := x % TWO_32;
    if low >= TWO_31 then low - TWO_32 else low
  }

  /** The round robin: this board sends real data for `evCounter` (`fragment_receiver_count` must not be 0). */
  predicate SendsData(boardId: nat, nSkip: nat, evCounter: nat)
    requires nSkip > 0
  {
    var mod := Int32(evCounter % nSkip);
    mod == boardId || (mod == 0 && boardId == nSkip)
  }

  /** The board that owns an event among boards 1 to `nSkip`. */
  function Owner(nSkip: nat, evCounter: nat): (b: nat)
    requires nSkip > 0
    ensures 1 <= b <= nSkip
  {
    if evCounter % nSkip == 0 then nSkip else evCounter % nSkip
  }

  /**
   * Among boards numbered 1 to `fragment_receiver_count`, exactly the owner
   * of an event sends its data, and each board owns one event in every
   * `fragment_receiver_count` consecutive ones.
   */
  lemma RoundRobin(nSkip: nat, evCounter: nat, b: nat)
    requires 0 < nSkip < TWO_31 && 1 <= b <= nSkip
    ensures SendsData(b, nSkip, evCounter) <==> b == Owner(nSkip, evCounter)
    ensures SendsData(b, nSkip, evCounter) <==> SendsData(b, nSkip, evCounter + nSkip)
  {
    ModUnique(evCounter + nSkip, nSkip, evCounter / nSkip + 1, evCounter % nSkip);
  }

  /** Division leaves one remainder: `q·n + m` with `m` below `n` has remainder `m`. */
  lemma ModUnique(x: nat, n: nat, q: nat, m: nat)
    requires 0 <= m < n && x == q * n + m
    ensures x % n == m
  {
    var q', m' := x / n, x % n;
    assert x == q' * n + m';
    if q > q' {
      DtcReads.MulMonotone(1, q - q', n);
    } else if q < q' {
      DtcReads.MulMonotone(1, q' - q, n);
    }
  }

  /** `BLOCK_COUNT_MAX × (ev_counter − 1)`, the first timestamp of the range requested in simulation mode. */
  function RangeStart(blockCountMax: nat, evCounter: nat): (t: nat)
    ensures 1 <= evCounter < TWO_64 && blockCountMax * evCounter < TWO_64 ==> t == blockCountMax * (evCounter - 1)
  {
    if 1 <= evCounter < TWO_64 && blockCountMax * evCounter < TWO_64 then
      DtcReads.MulMonotone(evCounter - 1, evCounter, blockCountMax);
      assert U64(evCounter + TWO_64 - 1) == evCounter - 1;
      U64(blockCountMax * U64(evCounter + TWO_64 - 1))
    else U64(blockCountMax * U64(evCounter + TWO_64 - 1))
  }

  /**
   * One `getNext_` call in run `run`; `stopFrom` is the first `should_stop()`
   * poll that sees a stop request.
   */
  function GetNextSpec(c: Config, s: RecvState, stopFrom: Option<nat>, run: nat): (r: (Outcome, RecvState))
  {
    if Stopped(stopFrom, 0) || s.evCounter > c.nEvents then (Returned(false, []), s)
    else if c.sendEmpties && c.nSkip == 0 then (DividedByZero, s)
    else if c.sendEmpties && !SendsData(c.boardId, c.nSkip, s.evCounter) then
      (Returned(true, [EmptyFragment(s.evCounter, c.fragmentId)]), s.(evCounter := U64(s.evCounter + 1)))
    else
      var requests := if c.mode != 0 then s.requests + [RangeStart(c.blockCountMax, s.evCounter)] else s.requests;
      match BlockLoop(c.blockCountMax, stopFrom, EventFill(0, [], s.dtc, TsState(s.highest, s.loops, None)))
      case Threw(dtc) => (Thrown, s.(dtc := dtc, requests := requests))
      case Done(f) =>
        (Returned(true, [Mu2eFragment(s.evCounter, c.fragmentId, Metadata(c.mode, run, c.boardId), f.ts.fragTs, f.subEvents)]),
         RecvState(U64(s.evCounter + 1), f.ts.highest, f.ts.loops, f.dtc, requests))
  }

  /**
   * A stop request or a counter past `number_of_events_to_generate` returns
   * false and changes nothing; with `send_empty_fragments` and a
   * `fragment_receiver_count` of 0 the round-robin test divides by zero; a
   * board whose turn it is not sends one empty fragment numbered with the
   * counter; otherwise the call emits one MU2E fragment numbered with the
   * counter, carrying the sim mode, the run number and the board ID as its
   * metadata and holding at most `BLOCK_COUNT_MAX` sub-events, or throws
   * exactly when the first block's six reads all come back empty. Every
   * call that returns true moves the counter on by one.
   */
  lemma GetNextOutcomes(c: Config, s: RecvState, stopFrom: Option<nat>, run: nat)
    ensures var (o, s') := GetNextSpec(c, s, stopFrom, run);
      (Stopped(stopFrom, 0) || s.evCounter > c.nEvents ==> o == Returned(false, []) && s' == s) &&
      (o.DividedByZero? <==>
         !Stopped(stopFrom, 0) && s.evCounter <= c.nEvents && c.sendEmpties && c.nSkip == 0) &&
      (o.DividedByZero? ==> s' == s) &&
      (o.Returned? && o.ok ==> |o.out| == 1 && o.out[0].sequenceId == s.evCounter &&
                               o.out[0].fragmentId == c.fragmentId && s'.evCounter == U64(s.evCounter + 1)) &&
      (o.Returned? && o.ok && o.out[0].Mu2eFragment? ==>
         o.out[0].metadata == Metadata(c.mode, run, c.boardId) &&
         |o.out[0].subEvents| <= c.blockCountMax && s'.highest >= s.highest) &&
      (o.Returned? && o.ok && o.out[0].EmptyFragment? <==>
         !Stopped(stopFrom, 0) && s.evCounter <= c.nEvents && c.sendEmpties && c.nSkip > 0 &&
         !SendsData(c.boardId, c.nSkip, s.evCounter)) &&
      (o.Thrown? <==>
         !Stopped(stopFrom, 0) && s.evCounter <= c.nEvents &&
         !(c.sendEmpties && (c.nSkip == 0 || !SendsData(c.boardId, c.nSkip, s.evCounter))) &&
         c.blockCountMax > 0 && !Stopped(stopFrom, 1) && (forall i :: 0 <= i < MAX_READS ==> ReplyAt(s.dtc, i) == []))
  {
    var f0 := EventFill(0, [], s.dtc, TsState(s.highest, s.loops, None));
    BlockLoopFacts(c.blockCountMax, stopFrom, f0);
    BlockLoopThrows(c.blockCountMax, stopFrom, s.dtc, f0.ts);
  }

  class Mu2eReceiver {
    var evCounter: nat
    var highest: nat
    var loops: nat
    /** What the DTC's `GetData` will return, read by read. */
    var dtc: seq<seq<DataBlock>>
    /** The range starts requested from the software CFO so far. */
    var requests: seq<nat>
    const mode: nat
    const fragmentId: nat
    const boardId: nat
    const nSkip: nat
    const sendEmpties: bool
    const nEvents: nat
    const blockCountMax: nat

    function Cfg(): Config
    {
      Config(mode, fragmentId, boardId, nSkip, sendEmpties, nEvents, blockCountMax)
    }

    function State(): RecvState
      reads this
    {
      RecvState(evCounter, highest, loops, dtc, requests)
    }

    /**
     * `board_id` is cast to `uint8_t`; `fragment_receiver_count` defaults to
     * 1, `send_empty_fragments` to false and `number_of_events_to_generate`
     * to `size_t(-1)`.
     */
    constructor (evCounter: nat, dtc: seq<seq<DataBlock>>, mode: nat, fragmentId: nat, blockCountMax: nat,
                 boardId: int := 0, nSkip: nat := 1, sendEmpties: bool := false, nEvents: nat := TWO_64 - 1)
      ensures State() == RecvState(evCounter, 0, 0, dtc, [])
      ensures Cfg() == Config(mode, fragmentId, boardId % 256, nSkip, sendEmpties, nEvents, blockCountMax)
    {
      this.evCounter, this.dtc, this.mode, this.fragmentId := evCounter, dtc, mode, fragmentId;
      this.blockCountMax, this.boardId, this.nSkip := blockCountMax, boardId % 256, nSkip;
      this.sendEmpties, this.nEvents := sendEmpties, nEvents;
      highest, loops, requests := 0, 0, [];
    }

    /** `getNext_` in run `run`. */
    method GetNext(stopFrom: Option<nat>, run: nat) returns (o: Outcome)
      modifies this
      ensures (o, State()) == GetNextSpec(Cfg(), old(State()), stopFrom, run)
    {
      if Stopped(stopFrom, 0) || evCounter > nEvents {
        return Returned(false, []);
      }
      if sendEmpties {
        if nSkip == 0 {
          return DividedByZero;
        }
        var mod := Int32(evCounter % nSkip);
        if !(mod == boardId || (mod == 0 && boardId == nSkip)) {
          var out := SendEmpty();
          return Returned(true, out);
        }
      }
      if mode != 0 {
        requests := requests + [RangeStart(blockCountMax, evCounter)];
      }
      var filled := FillEvent(blockCountMax, stopFrom, dtc, TsState(highest, loops, None));
      if filled.Threw? {
        dtc := filled.dtc;
        return Thrown;
      }
      var f := filled.fill;
      o := Returned(true, [Mu2eFragment(evCounter, fragmentId, Metadata(mode, run, boardId), f.ts.fragTs, f.subEvents)]);
      evCounter, highest, loops, dtc := U64(evCounter + 1), f.ts.highest, f.ts.loops, f.dtc;
    }

    /** `sendEmpty_`: one empty fragment numbered with the counter, which then moves on. */
    method SendEmpty() returns (out: seq<Output>)
      modifies this
      ensures out == [EmptyFragment(old(evCounter), fragmentId)] && evCounter == U64(old(evCounter) + 1)
      ensures highest == old(highest) && loops == old(loops) && dtc == old(dtc) && requests == old(requests)
    {
      out := [EmptyFragment(evCounter, fragmentId)];
      evCounter := U64(evCounter + 1);
    }
  }

  /** The block loop of one event, from the replies still to come and the timestamp state. */
  method FillEvent(blockCountMax: nat, stopFrom: Option<nat>, dtc0: seq<seq<DataBlock>>, ts0: TsState) returns (r: Filled)
    ensures r == BlockLoop(blockCountMax, stopFrom, EventFill(0, [], dtc0, ts0))
  {
    var fill := EventFill(0, [], dtc0, ts0);
    while fill.blockCount < blockCountMax
      invariant BlockLoop(blockCountMax, stopFrom, EventFill(0, [], dtc0, ts0)) == BlockLoop(blockCountMax, stopFrom, fill)
      decreases blockCountMax - fill.blockCount
    {
      var end, next := FillStep(blockCountMax, stopFrom, fill);
      if end.Some? {
        return end.value;
      }
      fill := next;
    }
    r := Done(fill);
  }

  /**
   * One pass of the block loop: the stop check, the read with retries (an
   * empty first block throws, a later one ends the loop), the copy of the
   * sub-event and the block count.
   */
  method FillStep(blockCountMax: nat, stopFrom: Option<nat>, f: EventFill) returns (end: Option<Filled>, next: EventFill)
    requires f.blockCount < blockCountMax
    ensures end.Some? ==> BlockLoop(blockCountMax, stopFrom, f) == end.value
    ensures end.None? ==> (next.blockCount == f.blockCount + 1 &&
      BlockLoop(blockCountMax, stopFrom, f) == BlockLoop(blockCountMax, stopFrom, next))
  {
    next := f;
    if Stopped(stopFrom, 1 + f.blockCount) {
      return Some(Done(f)), f;
    }
    var data, rest := ReadWithRetries(f.dtc);
    if data == [] {
      if f.blockCount == 0 {
        return Some(Threw(rest)), f;
      }
      return Some(Done(f.(dtc := rest))), f;
    }
    var bytes, ts := CopySubEvent(f.ts, data);
    next := EventFill(f.blockCount + 1, f.subEvents + [bytes], rest, ts);
    end := None;
  }

  /** The copy loop of one sub-event: one copy per run of contiguous blocks. */
  method CopySubEvent(ts0: TsState, data: seq<DataBlock>) returns (bytes: seq<Byte>, ts: TsState)
    ensures (bytes, ts) == CopyFrom(ts0, data, 0)
  {
    bytes, ts := [], ts0;
    var i := 0;
    while i < |data|
      invariant 0 <= i <= |data|
      invariant CopyFrom(ts0, data, 0).0 == bytes + CopyFrom(ts, data, i).0
      invariant CopyFrom(ts0, data, 0).1 == CopyFrom(ts, data, i).1
      decreases |data| - i
    {
      var last, size := ExtendRun(data, i);
      CopyFromStep(ts, data, i, bytes);
      bytes := bytes + Flatten(data[i..last + 1]);
      ts := Stamp(ts, data[i].timestamp);
      i := last + 1;
    }
    assert bytes + [] == bytes;
  }

  /** Copying from block `i` is copying its run, then the rest after the run's stamp. */
  lemma CopyFromStep(ts: TsState, data: seq<DataBlock>, i: nat, bytes: seq<Byte>)
    requires i < |data|
    ensures var (last, _) := RunFrom(data, data[i].address, i, data[i].byteSize);
      var rest := CopyFrom(Stamp(ts, data[i].timestamp), data, last + 1);
      bytes + CopyFrom(ts, data, i).0 == (bytes + Flatten(data[i..last + 1])) + rest.0 && CopyFrom(ts, data, i).1 == rest.1
  {
  }

  /**
   * The inner `while` of the copy loop, with the bounds check: extend the run
   * from block `i` while the next block starts where the run ends.
   */
  method ExtendRun(data: seq<DataBlock>, i0: nat) returns (i: nat, size: nat)
    requires i0 < |data|
    ensures (i, size) == RunFrom(data, data[i0].address, i0, data[i0].byteSize)
  {
    i := i0;
    var begin := data[i0].address;
    size := data[i0].byteSize;
    while i + 1 < |data| && data[i + 1].address == begin + size
      invariant i0 <= i < |data|
      invariant RunFrom(data, begin, i0, data[i0].byteSize) == RunFrom(data, begin, i, size)
      decreases |data| - i
    {
      size := size + data[i + 1].byteSize;
      i := i + 1;
    }
  }
}
