/**
 * What the DTC fragment generators share: the data the DTC library hands
 * back, the artdaq fragments they build from it, the bounded retry loop
 * around `GetData`, the timestamp "unwrap" for playback mode, the sequence-ID
 * formula of a DTC in a chain and the time-stamped raw-output file name.
 *
 * The DTC library itself is not modelled: what its reads return is an input.
 */
module DtcReads {

  import opened Common

  type Byte = bv8

  /** `sizeof(packet_t)`: a DTC packet is 16 bytes. */
  const PACKET_BYTES: nat := 16

  /** A DTC data block: the packet count its header packet gives, and the block's memory from the header on. */
  datatype DtcBlock = DtcBlock(packetCount: nat, bytes: seq<Byte>)

  /** The blocks the DTC hands back: their memory holds the header packet and the packets it counts. */
  type PacketBlock = b: DtcBlock | |b.bytes| >= PACKET_BYTES * (1 + b.packetCount)
    witness DtcBlock(0, seq(16, _ => 0))

  /** A `DTC_Event` as `GetData` returns it: its event-window tag, EVB mode and raw bytes. */
  datatype DtcEvent = DtcEvent(tag: nat, evbMode: nat, bytes: seq<Byte>)

  /** A `DTC_SubEvent` as `GetSubEventData` returns it. */
  datatype DtcSubEvent = DtcSubEvent(tag: nat, bytes: seq<Byte>)

  /** The `DTC_EventHeader` fields a generator fills in when it builds an event itself. */
  datatype DtcEventHeader = DtcEventHeader(inclusiveByteCount: nat, numDtcs: nat, tagLow: nat, tagHigh: nat)

  /** The artdaq fragment types these generators produce. */
  datatype FragmentType = DTCEVT | DTC | MU2EEVENT | MU2E | CRV | STM | ContainerType | EmptyType

  /**
   * The payload of an artdaq fragment: raw bytes, storage of a given size
   * that nothing was copied into, the entries of a container fragment, or
   * the DTC events a `Mu2eEventFragmentWriter` filled in, or one DTC event
   * built from a header and a body.
   */
  datatype Payload = Bytes(data: seq<Byte>)
                   | Unwritten(size: nat)
                   | Entries(entries: seq<Fragment>)
                   | Events(tag: nat, evbMode: nat, events: seq<DtcEvent>)
                   | Event(header: DtcEventHeader, tag: nat, body: seq<Byte>)

  datatype Fragment = Fragment(sequenceId: nat, fragmentId: nat, fragType: FragmentType,
                               timestamp: nat, payload: Payload)

  // The retry loop around the DTC reads.

  /** `retryCount` counts down from 5 while it is at least 0: six reads at most. */
  const MAX_READS: nat := 6

  /** The reply to read `i`; past the end of the given replies every read comes back empty. */
  function ReplyAt<T>(replies: seq<seq<T>>, i: nat): seq<T>
  {
    if i < |replies| then replies[i] else []
  }

  /** The replies left after `n` reads. */
  function AfterReads<T>(replies: seq<seq<T>>, n: nat): (rest: seq<seq<T>>)
    ensures |rest| <= |replies|
  {
    if n <= |replies| then replies[n..] else []
  }

  /** The retry loop from read `k` on: the data it ends with and the number of reads made. */
  function RetryFrom<T>(replies: seq<seq<T>>, k: nat): (r: (seq<T>, nat))
    requires k < MAX_READS
    decreases MAX_READS - k
  {
    if ReplyAt(replies, k) != [] || k == MAX_READS - 1 then (ReplyAt(replies, k), k + 1)
    else RetryFrom(replies, k + 1)
  }

  /** The retry loop: read until a read returns data, six reads at most. */
  function Retry<T>(replies: seq<seq<T>>): (r: (seq<T>, nat))
  {
    RetryFrom(replies, 0)
  }

  lemma {:induction false} RetryFromFacts<T>(replies: seq<seq<T>>, k: nat)
    requires k < MAX_READS
    ensures var (data, n) := RetryFrom(replies, k);
      k < n <= MAX_READS && data == ReplyAt(replies, n - 1) &&
      (forall i :: k <= i < n - 1 ==> ReplyAt(replies, i) == []) &&
      (data == [] ==> n == MAX_READS)
    decreases MAX_READS - k
  {
    if !(ReplyAt(replies, k) != [] || k == MAX_READS - 1) {
      RetryFromFacts(replies, k + 1);
    }
  }

  /**
   * The loop returns the first non-empty reply among the first six and makes
   * one read more than the empty replies before it; it ends empty-handed
   * exactly when all six reads were empty.
   */
  lemma RetryFirstData<T>(replies: seq<seq<T>>)
    ensures var (data, n) := Retry(replies);
      1 <= n <= MAX_READS && data == ReplyAt(replies, n - 1) &&
      (forall i :: 0 <= i < n - 1 ==> ReplyAt(replies, i) == [])
    ensures Retry(replies).0 == [] <==> forall i :: 0 <= i < MAX_READS ==> ReplyAt(replies, i) == []
  {
    RetryFromFacts(replies, 0);
    var (data, n) := Retry(replies);
    if data == [] {
      assert n == MAX_READS;
      forall i | 0 <= i < MAX_READS ensures ReplyAt(replies, i) == [] {
        if i < n - 1 { } else { assert i == n - 1; }
      }
    }
  }

  /** The `while (data.size() == 0 && retryCount >= 0)` loop over the replies still to come. */
  method ReadWithRetries<T>(replies: seq<seq<T>>) returns (data: seq<T>, rest: seq<seq<T>>)
    ensures data == Retry(replies).0
    ensures rest == AfterReads(replies, Retry(replies).1)
  {
    var retryCount: int := 5;
    var attempts: nat := 0;
    data := [];
    while |data| == 0 && retryCount >= 0
      invariant 0 <= attempts <= MAX_READS && retryCount == 5 - attempts
      invariant data == [] ==> attempts < MAX_READS ==> Retry(replies) == RetryFrom(replies, attempts)
      invariant data != [] || attempts == MAX_READS ==> Retry(replies) == (data, attempts)
      decreases retryCount + 1
    {
      data := ReplyAt(replies, attempts);
      attempts := attempts + 1;
      retryCount := retryCount - 1;
    }
    rest := AfterReads(replies, attempts);
  }

  // Timestamp unwrapping for playback mode.

  /** `highest_timestamp_seen_` and `timestamp_loops_`. */
  datatype Unwrapper = Unwrapper(highest: nat, loops: nat)

  /**
   * A timestamp below the highest seen is offset by loops × highest; a new
   * highest passes unchanged and is remembered; a repeat of the highest is
   * offset and bumps the loop count. The arithmetic is `size_t`.
   */
  function Unwrap(u: Unwrapper, ts: nat): (r: (nat, Unwrapper))
  {
    if ts < u.highest then (U64(ts + u.loops * u.highest), u)
    else if ts > u.highest then (ts, u.(highest := ts))
    else (U64(ts + u.loops * u.highest), u.(loops := u.loops + 1))
  }

  /** Unwrap a stream of timestamps: the stamped values and the final state. */
  function UnwrapAll(u: Unwrapper, tss: seq<nat>): (r: (seq<nat>, Unwrapper))
    ensures |r.0| == |tss|
    decreases |tss|
  {
    if tss == [] then ([], u)
    else
      var (t, u1) := Unwrap(u, tss[0]);
      var (rest, un) := UnwrapAll(u1, tss[1..]);
      ([t] + rest, un)
  }

  function MaxOf(m: nat, tss: seq<nat>): (r: nat)
    ensures r >= m && forall i :: 0 <= i < |tss| ==> r >= tss[i]
    ensures r == m || r in tss
    decreases |tss|
  {
    if tss == [] then m else MaxOf(if tss[0] > m then tss[0] else m, tss[1..])
  }

  /** After a stream, the highest timestamp seen is the largest of the stream and the old value. */
  lemma {:induction false} UnwrapAllHighest(u: Unwrapper, tss: seq<nat>)
    ensures UnwrapAll(u, tss).1.highest == MaxOf(u.highest, tss)
    ensures UnwrapAll(u, tss).1.loops >= u.loops
    decreases |tss|
  {
    if tss != [] {
      UnwrapAllHighest(Unwrap(u, tss[0]).1, tss[1..]);
    }
  }

  /** The loop count only moves when a timestamp equals the highest seen, and then by one. */
  lemma UnwrapLoops(u: Unwrapper, ts: nat)
    ensures Unwrap(u, ts).1.loops == u.loops + (if ts == u.highest then 1 else 0)
    ensures Unwrap(u, ts).1.highest >= u.highest && Unwrap(u, ts).1.highest >= ts
  {
  }

  predicate StrictlyIncreasing(tss: seq<nat>)
  {
    forall i, j :: 0 <= i < j < |tss| ==> tss[i] < tss[j]
  }

  /** A strictly increasing stream above the highest seen passes through untouched. */
  lemma {:induction false} UnwrapIncreasingUnchanged(u: Unwrapper, tss: seq<nat>)
    requires StrictlyIncreasing(tss) && forall i :: 0 <= i < |tss| ==> tss[i] > u.highest
    ensures UnwrapAll(u, tss).0 == tss
    ensures UnwrapAll(u, tss).1.loops == u.loops
    decreases |tss|
  {
    if tss != [] {
      var u1 := Unwrap(u, tss[0]).1;
      assert u1.highest == tss[0];
      assert forall i :: 0 <= i < |tss[1..]| ==> tss[1..][i] == tss[i + 1];
      UnwrapIncreasingUnchanged(u1, tss[1..]);
    }
  }

  /**
   * A second pass over a played-back stream repeats the first pass's
   * timestamps: the offset only grows after the highest value comes back.
   */
  lemma UnwrapSecondPassRepeats()
    ensures UnwrapAll(Unwrapper(0, 0), [1, 2, 1, 2]).0 == [1, 2, 1, 2]
    ensures UnwrapAll(Unwrapper(0, 0), [1, 2, 1, 2, 1, 2]).0 == [1, 2, 1, 2, 3, 4]
  {
    var u0, u1, u2, u3, u4 := Unwrapper(0, 0), Unwrapper(1, 0), Unwrapper(2, 0), Unwrapper(2, 1), Unwrapper(2, 2);
    assert UnwrapAll(u4, []) == ([], u4);
    UnwrapAllCons(u3, 2, []);
    UnwrapAllCons(u3, 1, [2]);
    UnwrapAllCons(u2, 2, [1, 2]);
    UnwrapAllCons(u2, 1, [2, 1, 2]);
    UnwrapAllCons(u1, 2, [1, 2, 1, 2]);
    UnwrapAllCons(u0, 1, [2, 1, 2, 1, 2]);
    assert UnwrapAll(u3, []) == ([], u3);
    UnwrapAllCons(u2, 2, []);
    UnwrapAllCons(u2, 1, [2]);
    UnwrapAllCons(u1, 2, [1, 2]);
    UnwrapAllCons(u0, 1, [2, 1, 2]);
  }

  /** Unwrapping a stream is unwrapping its first timestamp, then the rest. */
  lemma UnwrapAllCons(u: Unwrapper, t: nat, rest: seq<nat>)
    ensures UnwrapAll(u, [t] + rest) ==
            ([Unwrap(u, t).0] + UnwrapAll(Unwrap(u, t).1, rest).0, UnwrapAll(Unwrap(u, t).1, rest).1)
  {
    assert ([t] + rest)[0] == t && ([t] + rest)[1..] == rest;
  }

  // Sequence IDs of a DTC in a chain.

  /** `getCurrentSequenceID`: (ev_counter − 1) × n_dtcs + dtc_offset + 1, in `size_t` arithmetic. */
  function SequenceId(evCounter: nat, nDtcs: nat, dtcOffset: nat): (id: nat)
    ensures id < TWO_64
  {
    U64(U64(U64(evCounter + TWO_64 - 1) * nDtcs) + dtcOffset + 1)
  }

  lemma MulMonotone(a: nat, b: nat, n: nat)
    requires a <= b
    ensures a * n <= b * n
  {
  }

  /**
   * Without overflow the formula is exact, and the DTCs of a chain (offsets
   * below the chain length) never share a sequence ID: each event counter and
   * offset give a different ID.
   */
  lemma SequenceIdsInterleave(c1: nat, o1: nat, c2: nat, o2: nat, nDtcs: nat)
    requires 1 <= c1 && 1 <= c2 && o1 < nDtcs && o2 < nDtcs
    requires c1 * nDtcs < TWO_64 && c2 * nDtcs < TWO_64
    ensures SequenceId(c1, nDtcs, o1) == (c1 - 1) * nDtcs + o1 + 1
    ensures SequenceId(c1, nDtcs, o1) == SequenceId(c2, nDtcs, o2) <==> c1 == c2 && o1 == o2
  {
    SequenceIdExact(c1, o1, nDtcs);
    SequenceIdExact(c2, o2, nDtcs);
    if c1 < c2 {
      MulMonotone(c1, c2 - 1, nDtcs);
      assert (c1 - 1) * nDtcs + nDtcs == c1 * nDtcs;
    } else if c2 < c1 {
      MulMonotone(c2, c1 - 1, nDtcs);
      assert (c2 - 1) * nDtcs + nDtcs == c2 * nDtcs;
    }
  }

  lemma SequenceIdExact(c: nat, o: nat, nDtcs: nat)
    requires 1 <= c && o < nDtcs && c * nDtcs < TWO_64
    ensures SequenceId(c, nDtcs, o) == (c - 1) * nDtcs + o + 1
  {
    assert U64(c + TWO_64 - 1) == c - 1;
    MulMonotone(c - 1, c, nDtcs);
    assert (c - 1) * nDtcs + nDtcs == c * nDtcs;
  }

  // The time-stamped raw-output file name.

  const BIN: string := ".bin"

  /** `.bin` starts at position `j` of `s`. */
  predicate BinAt(s: string, j: int)
  {
    0 <= j && j + |BIN| <= |s| && s[j..j + |BIN|] == BIN
  }

  /** The position of the first `.bin` at or after `k`. */
  function FindBinFrom(s: string, k: nat): (i: Option<nat>)
    requires k <= |s|
    ensures i.Some? ==> k <= i.value && BinAt(s, i.value)
    ensures i.Some? ==> forall j :: k <= j < i.value ==> !BinAt(s, j)
    ensures i.None? ==> forall j :: k <= j ==> !BinAt(s, j)
    decreases |s| - k
  {
    if k + |BIN| > |s| then None
    else if BinAt(s, k) then Some(k)
    else FindBinFrom(s, k + 1)
  }

  /** `std::string::find(".bin")`: the first `.bin`, if any. */
  function FindBin(s: string): (i: Option<nat>)
    ensures i.Some? ==> BinAt(s, i.value) && forall j :: 0 <= j < i.value ==> !BinAt(s, j)
    ensures i.None? ==> forall j :: !BinAt(s, j)
  {
    FindBinFrom(s, 0)
  }

  /** `"_" + std::to_string(time(0))`. */
  function TimeStamp(now: nat): (t: string)
    ensures |t| >= 2 && t[0] == '_'
  {
    "_" + NatToString(now)
  }

  /** `start()`: "_<time>" goes in front of the first `.bin`; a name without `.bin` is kept. */
  function TimestampedFileName(name: string, now: nat): string
  {
    match FindBin(name)
    case Some(i) => name[..i] + TimeStamp(now) + name[i..]
    case None => name
  }

  /**
   * The stamp lands right in front of the first `.bin`, and taking it out
   * again gives the configured name back; without `.bin` nothing changes.
   */
  lemma TimestampedFileNameInserts(name: string, now: nat)
    ensures FindBin(name).None? ==> TimestampedFileName(name, now) == name
    ensures FindBin(name).Some? ==>
      var i := FindBin(name).value;
      var r := TimestampedFileName(name, now);
      var n := |TimeStamp(now)|;
      |r| == |name| + n && r[..i] == name[..i] && r[i..i + n] == TimeStamp(now) &&
      r[i + n..] == name[i..] && r[i + n..i + n + |BIN|] == BIN
  {
    if FindBin(name).Some? {
      var i := FindBin(name).value;
      var r := TimestampedFileName(name, now);
      var n := |TimeStamp(now)|;
      assert r[i + n..] == name[i..];
      assert r[i + n..i + n + |BIN|] == name[i..i + |BIN|];
    }
  }
}
