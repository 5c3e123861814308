/**
 * `Mu2eEventReceiverBase`: the shared read step of the event-building DTC
 * generators. One call reads DTC events (six reads at most), stamps them with
 * the unwrapped event-window tag of the first one and emits either one
 * DTCEVT fragment or, for several events, a container fragment with one
 * entry per event; the event counter then moves on by one.
 */
module EventReceiverBase {

  import opened Common
  import opened DtcReads

  /** The generator's configuration: sim mode (0 is disabled), chain length and position, fragment ID. */
  datatype Config = Config(mode: nat, nDtcs: nat, dtcOffset: nat, fragmentId: nat)

  /** The generator's changing fields, and the DTC replies still to come. */
  datatype BaseState = BaseState(evCounter: nat, unwrapper: Unwrapper, firstTimestampSeen: nat,
                                 dtc: seq<seq<DtcEvent>>)

  /** The DTCEVT fragment of one event. */
  function EventFragment(seqId: nat, fragmentId: nat, ts: nat, e: DtcEvent): Fragment
  {
    Fragment(seqId, fragmentId, DTCEVT, ts, Bytes(e.bytes))
  }

  /** One event gives a plain DTCEVT fragment, several a container with one entry each. */
  function PackEvents(seqId: nat, fragmentId: nat, ts: nat, data: seq<DtcEvent>): (f: Fragment)
    requires data != []
  {
    if |data| == 1 then EventFragment(seqId, fragmentId, ts, data[0])
    else Fragment(seqId, fragmentId, ContainerType, ts,
                  Entries(seq(|data|, i requires 0 <= i < |data| => EventFragment(seqId, fragmentId, ts, data[i]))))
  }

  /** The raw event bytes a fragment carries, entry by entry. */
  function Carried(f: Fragment): seq<seq<Byte>>
  {
    match f.payload
    case Bytes(d) => [d]
    case Entries(es) => seq(|es|, i requires 0 <= i < |es| => if es[i].payload.Bytes? then es[i].payload.data else [])
    case Unwritten(_) => []
    case Events(_, _, _) => []
    case Event(_, _, body) => [body]
  }

  /**
   * The packed fragment carries the bytes of every event read, in order,
   * under the sequence ID and timestamp it was given.
   */
  lemma PackEventsCarriesAll(seqId: nat, fragmentId: nat, ts: nat, data: seq<DtcEvent>)
    requires data != []
    ensures var f := PackEvents(seqId, fragmentId, ts, data);
      f.sequenceId == seqId && f.fragmentId == fragmentId && f.timestamp == ts &&
      (f.fragType == DTCEVT <==> |data| == 1) &&
      |Carried(f)| == |data| && forall i :: 0 <= i < |data| ==> Carried(f)[i] == data[i].bytes
  {
  }

  /** One `getNextDTCFragment` call with the given `seq_in`. */
  function NextFragment(c: Config, s: BaseState, seqIn: nat): (r: (bool, seq<Fragment>, BaseState))
  {
    var (data, n) := Retry(s.dtc);
    var dtc := AfterReads(s.dtc, n);
    if data == [] then (c.mode == 0, [], s.(dtc := dtc))
    else
      var seqOut := if seqIn == 0 then SequenceId(s.evCounter, c.nDtcs, c.dtcOffset) else seqIn;
      var tag := data[0].tag;
      var first := if s.firstTimestampSeen == 0 then tag else s.firstTimestampSeen;
      var (ts, u) := Unwrap(s.unwrapper, tag);
      (true, [PackEvents(seqOut, c.fragmentId, ts, data)], BaseState(U64(s.evCounter + 1), u, first, dtc))
  }

  /**
   * After six empty reads the call emits nothing, leaves the counters alone
   * and reports success only with the simulator disabled.
   */
  lemma NoDataNoFragment(c: Config, s: BaseState, seqIn: nat)
    requires forall i :: 0 <= i < MAX_READS ==> ReplyAt(s.dtc, i) == []
    ensures NextFragment(c, s, seqIn) == (c.mode == 0, [], s.(dtc := AfterReads(s.dtc, MAX_READS)))
  {
    RetryFirstData(s.dtc);
    RetryFromFacts(s.dtc, 0);
  }

  /**
   * A read that returns data gives exactly one fragment, under `seq_in` when
   * that is non-zero and the chain's sequence ID otherwise, timestamped with
   * the unwrapped tag of the first event; the counter moves by one, the
   * highest tag seen never drops and the first tag seen is set only once.
   */
  lemma DataGivesOneFragment(c: Config, s: BaseState, seqIn: nat)
    requires Retry(s.dtc).0 != []
    ensures var (ok, frags, s') := NextFragment(c, s, seqIn);
      var data := Retry(s.dtc).0;
      ok && |frags| == 1 &&
      frags[0] == PackEvents(if seqIn == 0 then SequenceId(s.evCounter, c.nDtcs, c.dtcOffset) else seqIn,
                             c.fragmentId, Unwrap(s.unwrapper, data[0].tag).0, data) &&
      s'.evCounter == U64(s.evCounter + 1) && s'.unwrapper.highest >= s.unwrapper.highest &&
      s'.unwrapper.highest >= data[0].tag &&
      (s.firstTimestampSeen != 0 ==> s'.firstTimestampSeen == s.firstTimestampSeen) &&
      (s.firstTimestampSeen == 0 ==> s'.firstTimestampSeen == data[0].tag)
  {
  }

  /**
   * The container as written: each event is copied into the container's own
   * storage instead of into the entry made for it, so every entry is added
   * with storage of the event's size that nothing was written to.
   */
  function ContainerAsWritten(seqId: nat, fragmentId: nat, ts: nat, data: seq<DtcEvent>): (f: Fragment)
    requires |data| > 1
  {
    Fragment(seqId, fragmentId, ContainerType, ts,
             Entries(seq(|data|, i requires 0 <= i < |data| =>
                           Fragment(seqId, fragmentId, DTCEVT, ts, Unwritten(|data[i].bytes|)))))
  }

  /** Two events read together: as written, neither entry carries its event's bytes. */
  lemma ContainerEntriesEmptyAsWritten(a: DtcEvent, b: DtcEvent)
    requires a.bytes != [] && b.bytes != []
    ensures Carried(ContainerAsWritten(1, 0, 0, [a, b])) == [[], []]
    ensures Carried(PackEvents(1, 0, 0, [a, b])) == [a.bytes, b.bytes]
  {
    var w := ContainerAsWritten(1, 0, 0, [a, b]);
    assert w.payload.entries[0].payload == Unwritten(|a.bytes|);
    assert w.payload.entries[1].payload == Unwritten(|b.bytes|);
  }

  class Mu2eEventReceiverBase {
    var evCounter: nat
    var unwrapper: Unwrapper
    var firstTimestampSeen: nat
    /** What the DTC's `GetData` will return, read by read. */
    var dtc: seq<seq<DtcEvent>>
    const mode: nat
    const nDtcs: nat
    const dtcOffset: nat
    const fragmentId: nat
    const rawOutput: bool
    const rawOutputFile: string

    function State(): BaseState
      reads this
    {
      BaseState(evCounter, unwrapper, firstTimestampSeen, dtc)
    }

    function Cfg(): Config
    {
      Config(mode, nDtcs, dtcOffset, fragmentId)
    }

    /**
     * `n_dtcs_in_chain` defaults to 1, `dtc_position_in_chain` to 0 and
     * `raw_output_file` to "/tmp/Mu2eReceiver.bin"; the event counter is the
     * one the artdaq base class starts with.
     */
    constructor (evCounter: nat, dtc: seq<seq<DtcEvent>>, mode: nat, fragmentId: nat, nDtcs: nat := 1,
                 dtcOffset: nat := 0, rawOutput: bool := false, rawOutputFile: string := "/tmp/Mu2eReceiver.bin")
      ensures State() == BaseState(evCounter, Unwrapper(0, 0), 0, dtc)
      ensures Cfg() == Config(mode, nDtcs, dtcOffset, fragmentId)
      ensures this.rawOutput == rawOutput && this.rawOutputFile == rawOutputFile
    {
      this.evCounter, this.dtc, this.mode, this.fragmentId := evCounter, dtc, mode, fragmentId;
      this.nDtcs, this.dtcOffset, this.rawOutput, this.rawOutputFile := nDtcs, dtcOffset, rawOutput, rawOutputFile;
      unwrapper, firstTimestampSeen := Unwrapper(0, 0), 0;
    }

    /** `getCurrentSequenceID`. */
    function CurrentSequenceId(): (id: nat)
      reads this
      ensures 1 <= evCounter && nDtcs * evCounter < TWO_64 && dtcOffset < nDtcs ==>
                id == (evCounter - 1) * nDtcs + dtcOffset + 1
    {
      if 1 <= evCounter && nDtcs * evCounter < TWO_64 && dtcOffset < nDtcs then
        SequenceIdExact(evCounter, dtcOffset, nDtcs);
        SequenceId(evCounter, nDtcs, dtcOffset)
      else SequenceId(evCounter, nDtcs, dtcOffset)
    }

    /** `start()`: the name the raw-output stream is opened under, when raw output is on. */
    method Start(now: nat) returns (streamName: Option<string>)
      ensures streamName == if rawOutput then Some(TimestampedFileName(rawOutputFile, now)) else None
    {
      if rawOutput {
        var fileName := rawOutputFile;
        var at := FindBin(fileName);
        if at.Some? {
          fileName := fileName[..at.value] + TimeStamp(now) + fileName[at.value..];
        }
        streamName := Some(fileName);
      } else {
        streamName := None;
      }
    }

    /** `getNextDTCFragment`: read, stamp and pack one event window, appending to `frags`. */
    method GetNextDTCFragment(frags: seq<Fragment>, seqIn: nat) returns (ok: bool, out: seq<Fragment>)
      modifies this
      ensures var r := NextFragment(Cfg(), old(State()), seqIn);
        ok == r.0 && out == frags + r.1 && State() == r.2
    {
      var data, rest := ReadWithRetries(dtc);
      dtc := rest;
      if data == [] {
        return mode == 0, frags;
      }
      var seqOut := if seqIn == 0 then CurrentSequenceId() else seqIn;
      var fragmentTimestamp := data[0].tag;
      if firstTimestampSeen == 0 {
        firstTimestampSeen := fragmentTimestamp;
      }
      if fragmentTimestamp < unwrapper.highest {
        fragmentTimestamp := U64(fragmentTimestamp + unwrapper.loops * unwrapper.highest);
      } else if fragmentTimestamp > unwrapper.highest {
        unwrapper := unwrapper.(highest := fragmentTimestamp);
      } else {
        fragmentTimestamp := U64(fragmentTimestamp + unwrapper.loops * unwrapper.highest);
        unwrapper := unwrapper.(loops := unwrapper.loops + 1);
      }
      if |data| == 1 {
        out := frags + [EventFragment(seqOut, fragmentId, fragmentTimestamp, data[0])];
      } else {
        var entries: seq<Fragment> := [];
        for i := 0 to |data|
          invariant entries == seq(i, k requires 0 <= k < i => EventFragment(seqOut, fragmentId, fragmentTimestamp, data[k]))
        {
          entries := entries + [EventFragment(seqOut, fragmentId, fragmentTimestamp, data[i])];
        }
        out := frags + [Fragment(seqOut, fragmentId, ContainerType, fragmentTimestamp, Entries(entries))];
      }
      evCounter := U64(evCounter + 1);
      ok := true;
    }
  }
}
