/**
 * `Mu2eSubEventReceiver`: reads DTCs that do not build events in hardware.
 * Each sub-event the DTC returns is wrapped into a DTC event of its own (a
 * header for one DTC followed by the sub-event's bytes) and sent as one
 * DTCEVT fragment under the next sequence ID of the chain.
 */
module SubEventReceiver {

  import opened Common
  import opened DtcReads

  const TWO_32: nat := 0x1_0000_0000
  const TWO_16: nat := 0x1_0000

  /** `event_tag_low`: the low 32 bits of the event-window tag. */
  function TagLow(tag: nat): (low: nat)
    ensures low < TWO_32
  {
    tag % TWO_32
  }

  /** `event_tag_high`: bits 32 to 47 of the event-window tag. */
  function TagHigh(tag: nat): (high: nat)
    ensures high < TWO_16
  {
    (tag / TWO_32) % TWO_16
  }

  /** A 48-bit event-window tag survives the split into the two header fields. */
  lemma TagSplitRoundTrip(tag: nat)
    requires tag < TWO_32 * TWO_16
    ensures TagHigh(tag) * TWO_32 + TagLow(tag) == tag
  {
    assert tag / TWO_32 < TWO_16;
  }

  /** The generator's configuration; `headerBytes` is `sizeof(DTC_EventHeader)`. */
  datatype Config = Config(mode: nat, nDtcs: nat, dtcOffset: nat, fragmentId: nat, headerBytes: nat)

  /** Event counter, timestamp unwrap state and first tag seen. */
  datatype Counters = Counters(evCounter: nat, unwrapper: Unwrapper, firstTimestampSeen: nat)

  /** The DTC event built around one sub-event carrying the event-window tag `tag`. */
  function BuildEvent(c: Config, tag: nat, sub: DtcSubEvent): (p: Payload)
    ensures p.Event? && p.header.numDtcs == 1 && p.tag == tag && p.body == sub.bytes
    ensures p.header.inclusiveByteCount == c.headerBytes + |sub.bytes|
  {
    Event(DtcEventHeader(c.headerBytes + |sub.bytes|, 1, TagLow(tag), TagHigh(tag)), tag, sub.bytes)
  }

  /** The fragment of one sub-event stamped with `tag`, and the counters after it. */
  function PackOne(c: Config, k: Counters, tag: nat, sub: DtcSubEvent): (r: (Fragment, Counters))
  {
    var first := if k.firstTimestampSeen == 0 then tag else k.firstTimestampSeen;
    var (ts, u) := Unwrap(k.unwrapper, tag);
    (Fragment(SequenceId(k.evCounter, c.nDtcs, c.dtcOffset), c.fragmentId, DTCEVT, ts, BuildEvent(c, tag, sub)),
     Counters(U64(k.evCounter + 1), u, first))
  }

  /**
   * One fragment per sub-event, in order. With `sharedTag` set, every
   * sub-event is stamped with that one tag; without it each carries its own.
   */
  function PackSubEvents(c: Config, k: Counters, subs: seq<DtcSubEvent>, sharedTag: Option<nat>): (r: (seq<Fragment>, Counters))
    ensures |r.0| == |subs|
    decreases |subs|
  {
    if subs == [] then ([], k)
    else
      var tag := if sharedTag.Some? then sharedTag.value else subs[0].tag;
      var (f, k1) := PackOne(c, k, tag, subs[0]);
      var (fs, kn) := PackSubEvents(c, k1, subs[1..], sharedTag);
      ([f] + fs, kn)
  }

  /** Adding one to a `size_t` counter and then `j` is adding `j + 1`. */
  lemma U64Step(a: nat, j: nat)
    requires a < TWO_64
    ensures U64(U64(a + 1) + j) == U64(a + 1 + j)
  {
    if a + 1 == TWO_64 {
      assert (j + TWO_64) % TWO_64 == j % TWO_64;
    }
  }

  /** Packing moves the event counter once per sub-event, in `size_t` arithmetic. */
  lemma {:induction false} PackSubEventsCounter(c: Config, k: Counters, subs: seq<DtcSubEvent>, sharedTag: Option<nat>)
    requires k.evCounter < TWO_64
    ensures PackSubEvents(c, k, subs, sharedTag).1.evCounter == U64(k.evCounter + |subs|)
    decreases |subs|
  {
    if subs != [] {
      var tag := if sharedTag.Some? then sharedTag.value else subs[0].tag;
      var k1 := PackOne(c, k, tag, subs[0]).1;
      PackSubEventsCounter(c, k1, subs[1..], sharedTag);
      U64Step(k.evCounter, |subs| - 1);
    }
  }

  /**
   * Each sub-event becomes the j-th fragment: it carries its own tag, split
   * into the header's low and high fields, its own bytes, and the sequence
   * ID of the j-th counter value after the starting one.
   */
  lemma {:induction false} EachSubEventOwnTag(c: Config, k: Counters, subs: seq<DtcSubEvent>, j: nat)
    requires k.evCounter < TWO_64 && j < |subs|
    ensures var f := PackSubEvents(c, k, subs, None).0[j];
      f.payload == BuildEvent(c, subs[j].tag, subs[j]) && f.fragType == DTCEVT && f.fragmentId == c.fragmentId &&
      f.payload.header.tagLow == TagLow(subs[j].tag) && f.payload.header.tagHigh == TagHigh(subs[j].tag) &&
      f.sequenceId == SequenceId(U64(k.evCounter + j), c.nDtcs, c.dtcOffset)
    decreases j
  {
    if j > 0 {
      var k1 := PackOne(c, k, subs[0].tag, subs[0]).1;
      EachSubEventOwnTag(c, k1, subs[1..], j - 1);
      U64Step(k.evCounter, j - 1);
      assert PackSubEvents(c, k, subs, None).0[j] == PackSubEvents(c, k1, subs[1..], None).0[j - 1];
      assert U64(k1.evCounter + (j - 1)) == U64(k.evCounter + j);
    } else {
      assert U64(k.evCounter + j) == k.evCounter;
    }
  }

  /** Consecutive counter values of one chain position give distinct sequence IDs while nothing overflows. */
  lemma CounterIdsDistinct(e: nat, i: nat, j: nat, m: nat, n: nat, o: nat)
    requires 1 <= e && o < n && (e + m) * n < TWO_64 && i < j < m
    ensures e < TWO_64
    ensures SequenceId(U64(e + i), n, o) != SequenceId(U64(e + j), n, o)
  {
    DtcReads.MulMonotone(e + j, e + m, n);
    DtcReads.MulMonotone(e + i, e + m, n);
    DtcReads.MulMonotone(1, n, e + j);
    assert U64(e + j) == e + j;
    assert U64(e + i) == e + i;
    SequenceIdsInterleave(e + i, o, e + j, o, n);
  }

  /**
   * In a chain of DTCs (offset below the chain length) the sub-events of one
   * read get distinct sequence IDs, as long as the counter does not overflow.
   */
  lemma SubEventSequenceIdsDistinct(c: Config, k: Counters, subs: seq<DtcSubEvent>, i: nat, j: nat)
    requires 1 <= k.evCounter && c.dtcOffset < c.nDtcs && (k.evCounter + |subs|) * c.nDtcs < TWO_64
    requires i < j < |subs|
    ensures PackSubEvents(c, k, subs, None).0[i].sequenceId != PackSubEvents(c, k, subs, None).0[j].sequenceId
  {
    CounterIdsDistinct(k.evCounter, i, j, |subs|, c.nDtcs, c.dtcOffset);
    EachSubEventOwnTag(c, k, subs, i);
    EachSubEventOwnTag(c, k, subs, j);
  }

  /**
   * As written, every sub-event of a read is stamped with the tag of the
   * first: two sub-events with tags 10 and 11 both go out with tag 10 and
   * timestamp 10; each keeping its own tag gives 10 and 11.
   */
  lemma SharedTagAsWritten(c: Config)
    ensures var subs := [DtcSubEvent(10, []), DtcSubEvent(11, [])];
      var k := Counters(1, Unwrapper(0, 0), 0);
      var (w, _) := PackSubEvents(c, k, subs, Some(subs[0].tag));
      var (f, _) := PackSubEvents(c, k, subs, None);
      w[0].payload.tag == 10 && w[1].payload.tag == 10 && w[0].timestamp == 10 && w[1].timestamp == 10 &&
      f[0].payload.tag == 10 && f[1].payload.tag == 11 && f[0].timestamp == 10 && f[1].timestamp == 11
  {
    var subs := [DtcSubEvent(10, []), DtcSubEvent(11, [])];
    assert subs[1..] == [DtcSubEvent(11, [])];
    assert subs[1..][1..] == [];
  }

  /** The generator's changing fields, the DTC replies still to come and the requests sent to the CFO. */
  datatype SubState = SubState(counters: Counters, dtc: seq<seq<DtcSubEvent>>, requests: seq<nat>)

  /** `getCurrentEventWindowTag`: 0 until a first tag is seen, then sequence ID + first tag. */
  function EventWindowTag(c: Config, k: Counters): (tag: nat)
    ensures k.firstTimestampSeen == 0 ==> tag == 0
  {
    if k.firstTimestampSeen > 0 then U64(SequenceId(k.evCounter, c.nDtcs, c.dtcOffset) + k.firstTimestampSeen)
    else 0
  }

  /** One `getNext_` call. */
  function GetNextSpec(c: Config, s: SubState, shouldStop: bool): (r: (bool, seq<Fragment>, SubState))
  {
    if shouldStop then (false, [], s)
    else
      var requests := if c.mode != 0 then s.requests + [EventWindowTag(c, s.counters)] else s.requests;
      var (data, n) := Retry(s.dtc);
      var s1 := SubState(s.counters, AfterReads(s.dtc, n), requests);
      if data == [] then (c.mode == 0, [], s1)
      else
        var (fs, k) := PackSubEvents(c, s.counters, data, None);
        (true, fs, s1.(counters := k))
  }

  /**
   * A stop request ends the call at once; otherwise, with the simulator on,
   * the next event-window tag is requested first; six empty reads give no
   * fragment and success only with the simulator off; a read with data gives
   * one fragment per sub-event.
   */
  lemma GetNextOutcomes(c: Config, s: SubState, shouldStop: bool)
    ensures shouldStop ==> GetNextSpec(c, s, shouldStop) == (false, [], s)
    ensures !shouldStop && c.mode != 0 ==>
      GetNextSpec(c, s, shouldStop).2.requests == s.requests + [EventWindowTag(c, s.counters)]
    ensures !shouldStop && c.mode == 0 ==> GetNextSpec(c, s, shouldStop).2.requests == s.requests
    ensures !shouldStop && (forall i :: 0 <= i < MAX_READS ==> ReplyAt(s.dtc, i) == []) ==>
      GetNextSpec(c, s, shouldStop).0 == (c.mode == 0) && GetNextSpec(c, s, shouldStop).1 == [] &&
      GetNextSpec(c, s, shouldStop).2.counters == s.counters
    ensures !shouldStop && Retry(s.dtc).0 != [] ==>
      GetNextSpec(c, s, shouldStop).0 && |GetNextSpec(c, s, shouldStop).1| == |Retry(s.dtc).0|
  {
    RetryFirstData(s.dtc);
  }

  class Mu2eSubEventReceiver {
    var evCounter: nat
    var unwrapper: Unwrapper
    var firstTimestampSeen: nat
    /** What `GetSubEventData` will return, read by read. */
    var dtc: seq<seq<DtcSubEvent>>
    /** The event-window tags requested from the software CFO so far. */
    var requests: seq<nat>
    const mode: nat
    const nDtcs: nat
    const dtcOffset: nat
    const fragmentId: nat
    const headerBytes: nat

    function Cfg(): Config
    {
      Config(mode, nDtcs, dtcOffset, fragmentId, headerBytes)
    }

    function State(): SubState
      reads this
    {
      SubState(Counters(evCounter, unwrapper, firstTimestampSeen), dtc, requests)
    }

    constructor (evCounter: nat, dtc: seq<seq<DtcSubEvent>>, mode: nat, fragmentId: nat, headerBytes: nat,
                 nDtcs: nat := 1, dtcOffset: nat := 0)
      ensures State() == SubState(Counters(evCounter, Unwrapper(0, 0), 0), dtc, [])
      ensures Cfg() == Config(mode, nDtcs, dtcOffset, fragmentId, headerBytes)
    {
      this.evCounter, this.dtc, this.mode, this.fragmentId := evCounter, dtc, mode, fragmentId;
      this.headerBytes, this.nDtcs, this.dtcOffset := headerBytes, nDtcs, dtcOffset;
      unwrapper, firstTimestampSeen, requests := Unwrapper(0, 0), 0, [];
    }

    method GetNext(shouldStop: bool) returns (ok: bool, frags: seq<Fragment>)
      modifies this
      ensures var r := GetNextSpec(Cfg(), old(State()), shouldStop);
        ok == r.0 && frags == r.1 && State() == r.2
    {
      if shouldStop {
        return false, [];
      }
      if mode != 0 {
        requests := requests + [EventWindowTag(Cfg(), Counters(evCounter, unwrapper, firstTimestampSeen))];
      }
      ok, frags := GetNextDTCFragment();
    }

    /** `getNextDTCFragment`: read sub-events and emit one fragment for each. */
    method GetNextDTCFragment() returns (ok: bool, frags: seq<Fragment>)
      modifies this
      ensures var (data, n) := Retry(old(dtc));
        dtc == AfterReads(old(dtc), n) && requests == old(requests) &&
        (data == [] ==> ok == (mode == 0) && frags == [] && State().counters == old(State().counters)) &&
        (data != [] ==> ok && (frags, State().counters) == PackSubEvents(Cfg(), old(State().counters), data, None))
    {
      var data, rest := ReadWithRetries(dtc);
      dtc := rest;
      if data == [] {
        return mode == 0, [];
      }
      var k;
      frags, k := PackAll(Cfg(), Counters(evCounter, unwrapper, firstTimestampSeen), data);
      evCounter, unwrapper, firstTimestampSeen := k.evCounter, k.unwrapper, k.firstTimestampSeen;
      ok := true;
    }
  }

  /** The loop over the sub-events of one read, on the generator's counters. */
  method PackAll(c: Config, k0: Counters, data: seq<DtcSubEvent>) returns (frags: seq<Fragment>, k: Counters)
    ensures (frags, k) == PackSubEvents(c, k0, data, None)
  {
    frags := [];
    var evCounter, highest, loops, firstTimestampSeen := k0.evCounter, k0.unwrapper.highest, k0.unwrapper.loops, k0.firstTimestampSeen;
    assert data[0..] == data;
    for i := 0 to |data|
      invariant PackSubEvents(c, k0, data, None).0 ==
        frags + PackSubEvents(c, Counters(evCounter, Unwrapper(highest, loops), firstTimestampSeen), data[i..], None).0
      invariant PackSubEvents(c, k0, data, None).1 ==
        PackSubEvents(c, Counters(evCounter, Unwrapper(highest, loops), firstTimestampSeen), data[i..], None).1
    {
      var cur := Counters(evCounter, Unwrapper(highest, loops), firstTimestampSeen);
      PackSubEventsStep(c, cur, data, i);
      var f, next := PackStep(c, cur, data[i]);
      frags := frags + [f];
      evCounter, highest, loops, firstTimestampSeen := next.evCounter, next.unwrapper.highest, next.unwrapper.loops, next.firstTimestampSeen;
      assert next == Counters(evCounter, Unwrapper(highest, loops), firstTimestampSeen);
    }
    k := Counters(evCounter, Unwrapper(highest, loops), firstTimestampSeen);
    assert data[|data|..] == [];
    assert PackSubEvents(c, k, data[|data|..], None) == ([], k);
    assert frags + [] == frags;
  }

  /** The body of the sub-event loop: unwrap the tag, build the event, count it. */
  method PackStep(c: Config, cur: Counters, sub: DtcSubEvent) returns (f: Fragment, next: Counters)
    ensures (f, next) == PackOne(c, cur, sub.tag, sub)
  {
    var evCounter, highest, loops, firstTimestampSeen := cur.evCounter, cur.unwrapper.highest, cur.unwrapper.loops, cur.firstTimestampSeen;
    var fragmentTimestamp := sub.tag;
    if firstTimestampSeen == 0 {
      firstTimestampSeen := fragmentTimestamp;
    }
    if fragmentTimestamp < highest {
      fragmentTimestamp := U64(fragmentTimestamp + loops * highest);
    } else if fragmentTimestamp > highest {
      highest := fragmentTimestamp;
    } else {
      fragmentTimestamp := U64(fragmentTimestamp + loops * highest);
      loops := loops + 1;
    }
    assert (fragmentTimestamp, Unwrapper(highest, loops)) == Unwrap(cur.unwrapper, sub.tag);
    f := Fragment(SequenceId(evCounter, c.nDtcs, c.dtcOffset), c.fragmentId, DTCEVT, fragmentTimestamp,
                  BuildEvent(c, sub.tag, sub));
    next := Counters(U64(evCounter + 1), Unwrapper(highest, loops), firstTimestampSeen);
  }

  /** Packing from position `i` is packing sub-event `i` and then the rest. */
  lemma PackSubEventsStep(c: Config, k: Counters, data: seq<DtcSubEvent>, i: nat)
    requires i < |data|
    ensures PackSubEvents(c, k, data[i..], None) ==
      (var (f, k1) := PackOne(c, k, data[i].tag, data[i]);
       var (fs, kn) := PackSubEvents(c, k1, data[i + 1..], None);
       ([f] + fs, kn))
  {
    assert data[i..][1..] == data[i + 1..];
  }
}
