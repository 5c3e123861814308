/**
 * `EventIDHandler`: the offline input source numbers the events it reads. It
 * remembers the run and subrun of the last raw event and counts events within
 * them; a new run or subrun restarts the count.
 */
module EventIds {

  /** Number of values of the 32-bit unsigned ids (`run_id_t`, `subrun_id_t`, `EventNumber_t`). */
  const TWO_32: nat := 0x1_0000_0000

  /** The run and subrun a raw event's header carries. */
  datatype RawEventIds = RawEventIds(run: nat, subrun: nat)

  /** The handler's three fields as a value. */
  datatype IdState = IdState(run: nat, subRun: nat, event: nat)

  const INITIAL: IdState := IdState(0, 0, 0)

  /** One `update`: take over changed ids with the count reset, then count the event (32-bit). */
  function Next(s: IdState, re: RawEventIds): (r: IdState)
    ensures r.run == re.run && r.subRun == re.subrun
    ensures r.event < TWO_32
  {
    var afterRun := if re.run != s.run then IdState(re.run, s.subRun, 0) else s;
    var afterSubRun := if re.subrun != afterRun.subRun then afterRun.(subRun := re.subrun, event := 0)
                       else afterRun;
    afterSubRun.(event := (afterSubRun.event + 1) % TWO_32)
  }

  class EventIDHandler {
    var run: nat
    var subRun: nat
    var event: nat

    function State(): IdState
      reads this
    {
      IdState(run, subRun, event)
    }

    /** All three ids start at zero. */
    constructor ()
      ensures State() == INITIAL
    {
      run, subRun, event := 0, 0, 0;
    }

    method Update(re: RawEventIds)
      modifies this
      ensures State() == Next(old(State()), re)
    {
      if re.run != run {
        run := re.run;
        event := 0;
      }
      if re.subrun != subRun {
        subRun := re.subrun;
        event := 0;
      }
      event := (event + 1) % TWO_32;
    }
  }

  /**
   * A raw event of a different run or subrun starts the count again at 1;
   * one of the same run and subrun counts on from the previous number.
   */
  lemma NextCounts(s: IdState, re: RawEventIds)
    requires s.event < TWO_32
    ensures re.run != s.run || re.subrun != s.subRun ==> Next(s, re).event == 1
    ensures re.run == s.run && re.subrun == s.subRun ==> Next(s, re).event == (s.event + 1) % TWO_32
    ensures Next(s, re).event >= 1 <==> (re.run != s.run || re.subrun != s.subRun || s.event + 1 < TWO_32)
  {
  }

  /** The handler's state after a sequence of raw events. */
  function Replay(evs: seq<RawEventIds>): (s: IdState)
  {
    if evs == [] then INITIAL else Next(Replay(evs[..|evs| - 1]), evs[|evs| - 1])
  }

  /**
   * How many raw events at the end of the sequence carry the last event's ids,
   * counting the handler's initial ids (0, 0) as a run of no events.
   */
  function Streak(evs: seq<RawEventIds>): (n: nat)
    ensures evs != [] ==> n >= 1
    ensures n <= |evs|
  {
    if evs == [] then 0
    else if |evs| >= 2 && evs[|evs| - 2] == evs[|evs| - 1] then Streak(evs[..|evs| - 1]) + 1
    else 1
  }

  /**
   * The reference reading of the handler: after any sequence of raw events it
   * holds the last event's run and subrun, and its event number is the length
   * of the final streak of events with those ids, taken modulo 2^32.
   */
  lemma {:induction false} ReplayIsStreak(evs: seq<RawEventIds>)
    ensures evs != [] ==> Replay(evs).run == evs[|evs| - 1].run && Replay(evs).subRun == evs[|evs| - 1].subrun
    ensures evs == [] ==> Replay(evs) == INITIAL
    ensures Replay(evs).event == Streak(evs) % TWO_32
  {
    if evs != [] {
      var prefix := evs[..|evs| - 1];
      var last := evs[|evs| - 1];
      ReplayIsStreak(prefix);
      var s := Replay(prefix);
      assert Replay(evs) == Next(s, last);
      NextCounts(s, last);
      if |evs| >= 2 {
        assert prefix[|prefix| - 1] == evs[|evs| - 2];
        if evs[|evs| - 2] == last {
          ModSucc(Streak(prefix));
        }
      } else {
        assert prefix == [];
      }
    }
  }

  /** Counting on modulo 2^32 from a reduced count is counting on from the count. */
  lemma ModSucc(n: nat)
    ensures (n % TWO_32 + 1) % TWO_32 == (n + 1) % TWO_32
  {
    var q, r := n / TWO_32, n % TWO_32;
    assert n == q * TWO_32 + r;
    if r + 1 == TWO_32 {
      assert n + 1 == (q + 1) * TWO_32;
    } else {
      assert n + 1 == q * TWO_32 + (r + 1);
    }
  }

  /** Within one run and subrun, fewer than 2^32 events are numbered 1, 2, 3, ... without a zero. */
  lemma {:induction false} EventNumberPositive(evs: seq<RawEventIds>)
    requires evs != [] && Streak(evs) < TWO_32
    ensures Replay(evs).event == Streak(evs) >= 1
  {
    ReplayIsStreak(evs);
  }
}
