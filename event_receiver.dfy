/**
 * `Mu2eEventReceiver`: the event-building DTC generator. Each call (in
 * simulation mode after asking the software CFO for the event window equal to
 * the event counter) reads DTC events, six reads at most, and writes all of
 * them into one fragment numbered with the event counter and stamped with the
 * unwrapped tag of the first event.
 *
 * Two copies exist. The artdaq-mu2e one emits MU2EEVENT fragments and, when
 * nothing arrives, reports success exactly when the simulator is off; the
 * mu2e-artdaq one emits DTC fragments and reports failure when nothing arrives.
 */
module EventReceiver {

  import opened Common
  import opened DtcReads

  /** Which copy of the generator: their fragment type and their answer to six empty reads. */
  datatype Flavour = ArtdaqMu2e | Mu2eArtdaq

  function FragmentTypeOf(v: Flavour): FragmentType
  {
    match v
    case ArtdaqMu2e => MU2EEVENT
    case Mu2eArtdaq => DTC
  }

  /** What `getNext_` returns after six empty reads. */
  function NoDataResult(v: Flavour, mode: nat): bool
  {
    match v
    case ArtdaqMu2e => mode == 0
    case Mu2eArtdaq => false
  }

  /** The generator's changing fields, the DTC replies still to come and the tags requested from the CFO. */
  datatype EvState = EvState(evCounter: nat, unwrapper: Unwrapper, dtc: seq<seq<DtcEvent>>, requests: seq<nat>)

  /** One `getNext_` call. */
  function GetNextSpec(v: Flavour, mode: nat, fragmentId: nat, s: EvState, shouldStop: bool): (r: (bool, seq<Fragment>, EvState))
  {
    if shouldStop then (false, [], s)
    else
      var requests := if mode != 0 then s.requests + [s.evCounter] else s.requests;
      var (data, n) := Retry(s.dtc);
      var dtc := AfterReads(s.dtc, n);
      if data == [] then (NoDataResult(v, mode), [], EvState(s.evCounter, s.unwrapper, dtc, requests))
      else
        var (ts, u) := Unwrap(s.unwrapper, data[0].tag);
        (true, [Fragment(s.evCounter, fragmentId, FragmentTypeOf(v), ts, Events(data[0].tag, data[0].evbMode, data))],
         EvState(U64(s.evCounter + 1), u, dtc, requests))
  }

  /**
   * A stop request ends the call before anything is requested or read; in
   * simulation mode the event counter's window is requested first; six empty
   * reads emit nothing and leave the counters alone.
   */
  lemma GetNextNoData(v: Flavour, mode: nat, fragmentId: nat, s: EvState, shouldStop: bool)
    ensures shouldStop ==> GetNextSpec(v, mode, fragmentId, s, shouldStop) == (false, [], s)
    ensures !shouldStop ==>
      GetNextSpec(v, mode, fragmentId, s, shouldStop).2.requests == s.requests + (if mode != 0 then [s.evCounter] else [])
    ensures !shouldStop && (forall i :: 0 <= i < MAX_READS ==> ReplyAt(s.dtc, i) == []) ==>
      var (ok, frags, s') := GetNextSpec(v, mode, fragmentId, s, shouldStop);
      ok == NoDataResult(v, mode) && frags == [] && s'.evCounter == s.evCounter && s'.unwrapper == s.unwrapper &&
      s'.dtc == AfterReads(s.dtc, MAX_READS)
  {
    RetryFirstData(s.dtc);
    RetryFromFacts(s.dtc, 0);
  }

  /**
   * A read with data gives one fragment numbered with the event counter
   * before the increment, holding every event read behind the first event's
   * tag and EVB mode; the counter goes up once and the highest tag seen never drops.
   */
  lemma GetNextData(v: Flavour, mode: nat, fragmentId: nat, s: EvState)
    requires Retry(s.dtc).0 != []
    ensures var (ok, frags, s') := GetNextSpec(v, mode, fragmentId, s, false);
      var data := Retry(s.dtc).0;
      ok && |frags| == 1 && frags[0].sequenceId == s.evCounter && frags[0].fragType == FragmentTypeOf(v) &&
      frags[0].payload == Events(data[0].tag, data[0].evbMode, data) &&
      frags[0].timestamp == Unwrap(s.unwrapper, data[0].tag).0 &&
      s'.evCounter == U64(s.evCounter + 1) &&
      s'.unwrapper.highest >= s.unwrapper.highest && s'.unwrapper.highest >= data[0].tag
  {
  }

  /**
   * Two calls in a row that both emit number their fragments with
   * consecutive event counters, so while the counter does not overflow no
   * sequence ID repeats.
   */
  lemma SuccessiveFragmentsConsecutive(v: Flavour, mode: nat, fragmentId: nat, s: EvState)
    requires s.evCounter + 1 < TWO_64
    requires GetNextSpec(v, mode, fragmentId, s, false).1 != []
    requires GetNextSpec(v, mode, fragmentId, GetNextSpec(v, mode, fragmentId, s, false).2, false).1 != []
    ensures GetNextSpec(v, mode, fragmentId, GetNextSpec(v, mode, fragmentId, s, false).2, false).1[0].sequenceId ==
            GetNextSpec(v, mode, fragmentId, s, false).1[0].sequenceId + 1
  {
  }

  /** The artdaq-mu2e generator (MU2EEVENT fragments, raw output with a time-stamped file name). */
  class Mu2eEventReceiver {
    var evCounter: nat
    var unwrapper: Unwrapper
    /** What the DTC's `GetData` will return, read by read. */
    var dtc: seq<seq<DtcEvent>>
    /** The event-window tags requested from the software CFO so far. */
    var requests: seq<nat>
    const mode: nat
    const fragmentId: nat
    const rawOutput: bool
    const rawOutputFile: string

    function State(): EvState
      reads this
    {
      EvState(evCounter, unwrapper, dtc, requests)
    }

    /** `raw_output_file` defaults to "/tmp/Mu2eReceiver.bin"; the event counter is the artdaq base class's. */
    constructor (evCounter: nat, dtc: seq<seq<DtcEvent>>, mode: nat, fragmentId: nat,
                 rawOutput: bool := false, rawOutputFile: string := "/tmp/Mu2eReceiver.bin")
      ensures State() == EvState(evCounter, Unwrapper(0, 0), dtc, [])
      ensures this.mode == mode && this.fragmentId == fragmentId
      ensures this.rawOutput == rawOutput && this.rawOutputFile == rawOutputFile
    {
      this.evCounter, this.dtc, this.mode, this.fragmentId := evCounter, dtc, mode, fragmentId;
      this.rawOutput, this.rawOutputFile := rawOutput, rawOutputFile;
      unwrapper, requests := Unwrapper(0, 0), [];
    }

    /** `start()`: the name the raw-output stream is opened under, when raw output is on. */
    method Start(now: nat) returns (streamName: Option<string>)
      ensures streamName == if rawOutput then Some(TimestampedFileName(rawOutputFile, now)) else None
    {
      streamName := None;
      if rawOutput {
        var fileName := rawOutputFile;
        var at := FindBin(fileName);
        if at.Some? {
          fileName := fileName[..at.value] + TimeStamp(now) + fileName[at.value..];
        }
        streamName := Some(fileName);
      }
    }

    method GetNext(shouldStop: bool) returns (ok: bool, frags: seq<Fragment>)
      modifies this
      ensures var r := GetNextSpec(ArtdaqMu2e, mode, fragmentId, old(State()), shouldStop);
        ok == r.0 && frags == r.1 && State() == r.2
    {
      if shouldStop {
        return false, [];
      }
      if mode != 0 {
        requests := requests + [evCounter];
      }
      var data, rest := ReadWithRetries(dtc);
      dtc := rest;
      if data == [] {
        return mode == 0, [];
      }
      var tag := data[0].tag;
      var fragmentTimestamp := tag;
      if fragmentTimestamp < unwrapper.highest {
        fragmentTimestamp := U64(fragmentTimestamp + unwrapper.loops * unwrapper.highest);
      } else if fragmentTimestamp > unwrapper.highest {
        unwrapper := unwrapper.(highest := fragmentTimestamp);
      } else {
        fragmentTimestamp := U64(fragmentTimestamp + unwrapper.loops * unwrapper.highest);
        unwrapper := unwrapper.(loops := unwrapper.loops + 1);
      }
      frags := [Fragment(evCounter, fragmentId, MU2EEVENT, fragmentTimestamp, Events(tag, data[0].evbMode, data))];
      evCounter := U64(evCounter + 1);
      ok := true;
    }
  }

  /** The mu2e-artdaq generator (DTC fragments, no raw output). */
  class LegacyMu2eEventReceiver {
    var evCounter: nat
    var unwrapper: Unwrapper
    /** What the DTC's `GetData` will return, read by read. */
    var dtc: seq<seq<DtcEvent>>
    /** The event-window tags requested from the software CFO so far. */
    var requests: seq<nat>
    const mode: nat
    const fragmentId: nat

    function State(): EvState
      reads this
    {
      EvState(evCounter, unwrapper, dtc, requests)
    }

    constructor (evCounter: nat, dtc: seq<seq<DtcEvent>>, mode: nat, fragmentId: nat)
      ensures State() == EvState(evCounter, Unwrapper(0, 0), dtc, [])
      ensures this.mode == mode && this.fragmentId == fragmentId
    {
      this.evCounter, this.dtc, this.mode, this.fragmentId := evCounter, dtc, mode, fragmentId;
      unwrapper, requests := Unwrapper(0, 0), [];
    }

    method GetNext(shouldStop: bool) returns (ok: bool, frags: seq<Fragment>)
      modifies this
      ensures var r := GetNextSpec(Mu2eArtdaq, mode, fragmentId, old(State()), shouldStop);
        ok == r.0 && frags == r.1 && State() == r.2
    {
      if shouldStop {
        return false, [];
      }
      if mode != 0 {
        requests := requests + [evCounter];
      }
      var data, rest := ReadWithRetries(dtc);
      dtc := rest;
      if data == [] {
        return false, [];
      }
      var tag := data[0].tag;
      var fragmentTimestamp := tag;
      if fragmentTimestamp < unwrapper.highest {
        fragmentTimestamp := U64(fragmentTimestamp + unwrapper.loops * unwrapper.highest);
      } else if fragmentTimestamp > unwrapper.highest {
        unwrapper := unwrapper.(highest := fragmentTimestamp);
      } else {
        fragmentTimestamp := U64(fragmentTimestamp + unwrapper.loops * unwrapper.highest);
        unwrapper := unwrapper.(loops := unwrapper.loops + 1);
      }
      frags := [Fragment(evCounter, fragmentId, DTC, fragmentTimestamp, Events(tag, data[0].evbMode, data))];
      evCounter := U64(evCounter + 1);
      ok := true;
    }
  }
}
