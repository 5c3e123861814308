/**
 * `STMUDPReceiver`: the fragment generator that reads stopping-target
 * monitor data from a UDP socket. Each call receives a batch of packets into
 * a buffer of 16-bit words, counts receive time-outs until it gives up, and
 * otherwise cuts the received words into one STM fragment per event, each
 * event being three header words followed by as many data words as the
 * header's event-length word says.
 *
 * The UDP socket is not part of this model: what `recv` returns and the
 * words it leaves in the receive buffer are inputs of a call, and the
 * socket's time-out limit is a constant of the receiver. The position of the
 * event-length word within the header comes from the STM fragment overlay,
 * which is not part of this model either, and is a constant too.
 */
module StmUdpReceivers {

  /** An `int16_t` of the receive buffer. */
  type Int16 = x: int | -0x8000 <= x < 0x8000

  /** `header_len`: the words of an event header. */
  const HEADER_WORDS: int := 3

  /** `packet_len`: the words a received packet accounts for. */
  const PACKET_WORDS: int := 30003

  /** An artdaq fragment of type STM with timestamp 0, holding the words of one event. */
  datatype StmFragment = StmFragment(sequenceId: nat, fragmentId: nat, words: seq<Int16>)

  /**
   * Where cutting ended: past the received words, at an event of length
   * -3 that would not move the cursor forward, at an event whose length is
   * below -3 (its fragment's size, as a `size_t`, cannot be allocated), or
   * at an event that runs out of the buffer.
   */
  datatype CutEnd = Done(at: nat) | NoProgress(at: nat) | Negative(at: nat) | Overrun(at: nat)

  function Flatten(events: seq<seq<Int16>>): seq<Int16>
  {
    if events == [] then [] else events[0] + Flatten(events[1..])
  }

  /**
   * The events cut from `buf` from `pos` on while the cursor is below
   * `limit`, and where cutting ended. An event whose length word is -3 or
   * less is not cut: one of -3 would stall the loop as written (see
   * `StepAsWritten`), and one below -3 makes it throw.
   */
  function Cut(buf: seq<Int16>, evLen: nat, pos: nat, limit: int): (r: (seq<seq<Int16>>, CutEnd))
    requires pos <= |buf|
    ensures pos <= r.1.at <= |buf|
    ensures r.1.Done? ==> r.1.at >= limit
    ensures r.1.NoProgress? ==>
      r.1.at < limit && r.1.at + evLen < |buf| && HEADER_WORDS + buf[r.1.at + evLen] == 0
    ensures r.1.Negative? ==>
      r.1.at < limit && r.1.at + evLen < |buf| && HEADER_WORDS + buf[r.1.at + evLen] < 0
    ensures r.1.Overrun? ==>
      r.1.at < limit &&
      (r.1.at + evLen >= |buf| || r.1.at + HEADER_WORDS + buf[r.1.at + evLen] > |buf|)
    decreases limit - pos
  {
    if pos >= limit then ([], Done(pos))
    else if pos + evLen >= |buf| then ([], Overrun(pos))
    else
      var len := buf[pos + evLen] as int;
      if HEADER_WORDS + len < 0 then ([], Negative(pos))
      else if HEADER_WORDS + len == 0 then ([], NoProgress(pos))
      else if pos + HEADER_WORDS + len > |buf| then ([], Overrun(pos))
      else
        var rest := Cut(buf, evLen, pos + HEADER_WORDS + len, limit);
        ([buf[pos .. pos + HEADER_WORDS + len]] + rest.0, rest.1)
  }

  /** Where the event at `pos` is missing, cut short or of no length, cutting ends there. */
  lemma CutStops(buf: seq<Int16>, evLen: nat, pos: nat, limit: int)
    requires pos <= |buf|
    requires pos >= limit || pos + evLen >= |buf| || HEADER_WORDS + buf[pos + evLen] <= 0 ||
             pos + HEADER_WORDS + buf[pos + evLen] > |buf|
    ensures Cut(buf, evLen, pos, limit).0 == []
  {
  }

  /** Otherwise the event at `pos` is the first one cut, and cutting goes on right after it. */
  lemma CutSteps(buf: seq<Int16>, evLen: nat, pos: nat, limit: int)
    requires pos < limit && pos + evLen < |buf| && HEADER_WORDS + buf[pos + evLen] > 0 &&
             pos + HEADER_WORDS + buf[pos + evLen] <= |buf|
    ensures var next := pos + HEADER_WORDS + buf[pos + evLen];
      Cut(buf, evLen, pos, limit).0 == [buf[pos .. next]] + Cut(buf, evLen, next, limit).0
  {
  }

  lemma ConcatAssoc<T>(a: seq<T>, b: seq<T>, c: seq<T>)
    ensures a + (b + c) == (a + b) + c
  {
  }

  /**
   * `events` lie back to back in `buf` from `pos` to `end`, each made of the
   * three header words and as many more as its own event-length word says.
   */
  predicate Tiles(buf: seq<Int16>, evLen: nat, pos: nat, events: seq<seq<Int16>>, end: nat)
    decreases |events|
  {
    if events == [] then pos == end
    else
      pos + evLen < |buf| && |events[0]| == HEADER_WORDS + buf[pos + evLen] &&
      pos + |events[0]| <= |buf| && events[0] == buf[pos .. pos + |events[0]|] &&
      Tiles(buf, evLen, pos + |events[0]|, events[1..], end)
  }

  /**
   * The events cut tile the buffer from the starting cursor to where cutting
   * ended, so that together they are exactly the words in between.
   */
  lemma {:induction false} CutTiles(buf: seq<Int16>, evLen: nat, pos: nat, limit: int)
    requires pos <= |buf|
    ensures var r := Cut(buf, evLen, pos, limit);
      Tiles(buf, evLen, pos, r.0, r.1.at) && Flatten(r.0) == buf[pos .. r.1.at]
    decreases limit - pos
  {
    var r := Cut(buf, evLen, pos, limit);
    if pos < limit && pos + evLen < |buf| {
      var len := buf[pos + evLen] as int;
      if HEADER_WORDS + len > 0 && pos + HEADER_WORDS + len <= |buf| {
        var next := pos + HEADER_WORDS + len;
        var rest := Cut(buf, evLen, next, limit);
        CutTiles(buf, evLen, next, limit);
        assert r.0 == [buf[pos .. next]] + rest.0;
        assert r.0[1..] == rest.0;
        assert Flatten(r.0) == buf[pos .. next] + buf[next .. rest.1.at];
        assert buf[pos .. next] + buf[next .. rest.1.at] == buf[pos .. rest.1.at];
      }
    }
  }

  /**
   * One pass of the splitting loop as written: the words copied into the
   * fragment and the cursor after it. Below a length of -3 the copy's size
   * is negative, so the pass is only given for lengths of -3 and above.
   */
  function StepAsWritten(buf: seq<Int16>, evLen: nat, pos: nat): (r: (seq<Int16>, int))
    requires pos + evLen < |buf|
    requires HEADER_WORDS + buf[pos + evLen] >= 0 && pos + HEADER_WORDS + buf[pos + evLen] <= |buf|
    ensures r.1 == pos + |r.0| <= |buf|
    ensures r.0 == buf[pos .. r.1]
  {
    var len := buf[pos + evLen] as int;
    (buf[pos .. pos + HEADER_WORDS + len], pos + HEADER_WORDS + len)
  }

  /**
   * An event-length word of -3 makes the loop as written copy nothing and
   * leave the cursor where it was, so it repeats the same pass for ever;
   * the corrected cut stops there instead.
   */
  lemma MinusThreeStallsAsWritten(buf: seq<Int16>, evLen: nat, pos: nat, limit: int)
    requires pos < limit && pos + evLen < |buf| && buf[pos + evLen] == -3
    ensures StepAsWritten(buf, evLen, pos) == ([], pos)
    ensures Cut(buf, evLen, pos, limit) == ([], NoProgress(pos))
  {
  }

  /** Wherever the corrected cut takes an event, it takes what the loop as written copies. */
  lemma CutAgreesWithStepAsWritten(buf: seq<Int16>, evLen: nat, pos: nat, limit: int)
    requires pos <= |buf|
    requires Cut(buf, evLen, pos, limit).0 != []
    ensures pos + evLen < |buf| && HEADER_WORDS + buf[pos + evLen] > 0
    ensures pos + HEADER_WORDS + buf[pos + evLen] <= |buf|
    ensures Cut(buf, evLen, pos, limit).0[0] == StepAsWritten(buf, evLen, pos).0
  {
  }

  /** The fragments made of `events`, numbered from the event counter `first`. */
  function Numbered(events: seq<seq<Int16>>, first: nat, fragmentId: nat): (r: seq<StmFragment>)
    ensures |r| == |events|
    ensures forall k :: 0 <= k < |r| ==> r[k] == StmFragment(first + k, fragmentId, events[k])
  {
    if events == [] then []
    else [StmFragment(first, fragmentId, events[0])] + Numbered(events[1..], first + 1, fragmentId)
  }

  lemma NumberedSnoc(events: seq<seq<Int16>>, e: seq<Int16>, first: nat, fragmentId: nat)
    ensures Numbered(events + [e], first, fragmentId) ==
      Numbered(events, first, fragmentId) + [StmFragment(first + |events|, fragmentId, e)]
  {
    var a := Numbered(events + [e], first, fragmentId);
    var b := Numbered(events, first, fragmentId) + [StmFragment(first + |events|, fragmentId, e)];
    assert |a| == |b|;
    forall k | 0 <= k < |a| ensures a[k] == b[k] {
      assert (events + [e])[k] == if k < |events| then events[k] else e;
    }
  }

  datatype Config = Config(fragmentId: nat, timeoutMax: int, evLenOffset: nat)

  /** The socket's `timeout_counter`, the receiver's `recvCount` and the generator's event counter. */
  datatype StmState = StmState(timeoutCounter: int, recvCount: int, evCounter: nat)

  /**
   * How a call ends: it returns whether to go on and the fragments it made,
   * or `resizeBytes` throws on an event whose length is below -3. The
   * fragments made before the throw are left out, since the call does not
   * return them.
   */
  datatype Outcome = Returned(ok: bool, frags: seq<StmFragment>) | Thrown

  /** The fragments an outcome hands back: none after a throw. */
  function Emitted(o: Outcome): seq<StmFragment>
  {
    if o.Returned? then o.frags else []
  }

  /**
   * `getNext_`: how the call ends and the new state, given whether a stop
   * was requested, what `recv` returned and the words then in the receive
   * buffer. A throw leaves the event counter moved on by the events cut
   * before the bad one.
   */
  function GetNextSpec(c: Config, s: StmState, stop: bool, retval: int, buf: seq<Int16>)
    : (r: (Outcome, StmState))
    ensures r.0.Returned? ==> r.1.evCounter == s.evCounter + |r.0.frags|
  {
    if stop then (Returned(false, []), s.(recvCount := 0))
    else if retval <= 0 then
      var counter := s.timeoutCounter + 1;
      (Returned(counter != 10 * c.timeoutMax, []), s.(timeoutCounter := counter))
    else
      var cut := Cut(buf, c.evLenOffset, 0, retval * PACKET_WORDS);
      var s' := StmState(0, s.recvCount + retval, s.evCounter + |cut.0|);
      if cut.1.Negative? then (Thrown, s')
      else (Returned(true, Numbered(cut.0, s.evCounter, c.fragmentId)), s')
  }

  /**
   * What one call does: a stop resets the receive count and ends the run; a
   * receive of nothing counts a time-out and ends the run only when the
   * count reaches ten times the socket's limit; a receive of data clears the
   * time-out count, adds the packets to the receive count and cuts events
   * from the buffer's start, whose words together are the buffer up to
   * where cutting ended, at or past the received packets unless an event
   * was malformed. The call throws exactly when cutting reached an event
   * whose length is below -3; otherwise it returns true with one fragment
   * per event, numbered on from the event counter.
   */
  lemma GetNextOutcomes(c: Config, s: StmState, stop: bool, retval: int, buf: seq<Int16>)
    ensures var (o, s') := GetNextSpec(c, s, stop, retval, buf);
      (stop ==> o == Returned(false, []) && s' == s.(recvCount := 0)) &&
      (!stop && retval <= 0 ==>
        o.Returned? && o.frags == [] && s' == s.(timeoutCounter := s.timeoutCounter + 1) &&
        (!o.ok <==> s.timeoutCounter + 1 == 10 * c.timeoutMax)) &&
      (!stop && retval > 0 ==>
        var cut := Cut(buf, c.evLenOffset, 0, retval * PACKET_WORDS);
        s' == StmState(0, s.recvCount + retval, s.evCounter + |cut.0|) &&
        (o.Thrown? <==> cut.1.Negative?) &&
        (o.Returned? ==> o.ok && |o.frags| == |cut.0|) &&
        (forall k :: 0 <= k < |Emitted(o)| ==>
          Emitted(o)[k] == StmFragment(s.evCounter + k, c.fragmentId, cut.0[k])) &&
        Tiles(buf, c.evLenOffset, 0, cut.0, cut.1.at) &&
        Flatten(cut.0) == buf[.. cut.1.at] &&
        (cut.1.Done? ==> cut.1.at >= retval * PACKET_WORDS))
  {
    if !stop && retval > 0 {
      CutTiles(buf, c.evLenOffset, 0, retval * PACKET_WORDS);
    }
  }

  /**
   * A first event whose length word is below -3 makes the call throw with
   * no event cut: the time-out count is cleared and the packets are counted,
   * but the event counter stays.
   */
  lemma LengthBelowMinusThreeThrows(c: Config, s: StmState, retval: int, buf: seq<Int16>)
    requires retval > 0 && c.evLenOffset < |buf| && buf[c.evLenOffset] < -3
    ensures GetNextSpec(c, s, false, retval, buf) == (Thrown, StmState(0, s.recvCount + retval, s.evCounter))
  {
  }

  /** One call's inputs: whether a stop is requested, what `recv` returns and the buffer it leaves. */
  datatype Call = Call(stop: bool, retval: int, buf: seq<Int16>)

  /** Whether each of successive calls returned true, and the state after the last of them. */
  function Replay(c: Config, s: StmState, calls: seq<Call>): (r: (seq<bool>, StmState))
    ensures |r.0| == |calls|
    decreases |calls|
  {
    if calls == [] then ([], s)
    else
      var step := GetNextSpec(c, s, calls[0].stop, calls[0].retval, calls[0].buf);
      var rest := Replay(c, step.1, calls[1..]);
      ([step.0.Returned? && step.0.ok] + rest.0, rest.1)
  }

  predicate AllTimeouts(calls: seq<Call>)
  {
    forall i :: 0 <= i < |calls| ==> !calls[i].stop && calls[i].retval <= 0
  }

  /**
   * In a run of time-outs the counter goes up by one per call, and call `i`
   * returns false exactly when the count it reaches equals ten times the
   * socket's limit.
   */
  lemma {:induction false} TimeoutsInARow(c: Config, s: StmState, calls: seq<Call>)
    requires AllTimeouts(calls)
    ensures Replay(c, s, calls).1 == s.(timeoutCounter := s.timeoutCounter + |calls|)
    ensures forall i :: 0 <= i < |calls| ==>
      (!Replay(c, s, calls).0[i] <==> s.timeoutCounter + i + 1 == 10 * c.timeoutMax)
    decreases |calls|
  {
    if calls != [] {
      var s1 := s.(timeoutCounter := s.timeoutCounter + 1);
      assert GetNextSpec(c, s, false, calls[0].retval, calls[0].buf).1 == s1;
      assert AllTimeouts(calls[1..]) by {
        forall i | 0 <= i < |calls[1..]| ensures !calls[1..][i].stop && calls[1..][i].retval <= 0 {
          assert calls[1..][i] == calls[i + 1];
        }
      }
      TimeoutsInARow(c, s1, calls[1..]);
      var r := Replay(c, s, calls);
      forall i | 0 <= i < |calls|
        ensures !r.0[i] <==> s.timeoutCounter + i + 1 == 10 * c.timeoutMax
      {
        if i > 0 {
          assert r.0[i] == Replay(c, s1, calls[1..]).0[i - 1];
        }
      }
    }
  }

  /**
   * A run of time-outs ends the run at most once, and never once the count
   * has passed ten times the limit: the test is for equality, so a receiver
   * kept polling after reporting the time-out goes on returning true.
   */
  lemma TimeoutReportedOnce(c: Config, s: StmState, calls: seq<Call>)
    requires AllTimeouts(calls)
    ensures var oks := Replay(c, s, calls).0;
      forall i, j :: 0 <= i < |calls| && 0 <= j < |calls| && !oks[i] && !oks[j] ==> i == j
    ensures s.timeoutCounter >= 10 * c.timeoutMax ==>
      forall i :: 0 <= i < |calls| ==> Replay(c, s, calls).0[i]
  {
    TimeoutsInARow(c, s, calls);
  }

  /** The receiver, with the socket's time-out counter kept as one of its fields. */
  class StmUdpReceiver {
    var timeoutCounter: int
    var recvCount: int
    var evCounter: nat
    const fragmentId: nat
    const timeoutMax: int
    const evLenOffset: nat

    function Cfg(): Config
    {
      Config(fragmentId, timeoutMax, evLenOffset)
    }

    function State(): StmState
      reads this
    {
      StmState(timeoutCounter, recvCount, evCounter)
    }

    /** The receive count starts at 0, and so is the socket's time-out counter taken to. */
    constructor (evCounter: nat, fragmentId: nat, timeoutMax: int, evLenOffset: nat)
      ensures Cfg() == Config(fragmentId, timeoutMax, evLenOffset)
      ensures State() == StmState(0, 0, evCounter)
    {
      this.fragmentId := fragmentId;
      this.timeoutMax := timeoutMax;
      this.evLenOffset := evLenOffset;
      this.evCounter := evCounter;
      timeoutCounter := 0;
      recvCount := 0;
    }

    method GetNext(stop: bool, retval: int, buf: seq<Int16>) returns (o: Outcome)
      modifies this
      ensures (o, State()) == GetNextSpec(Cfg(), old(State()), stop, retval, buf)
    {
      if stop {
        recvCount := 0;
        return Returned(false, []);
      }
      if retval <= 0 {
        timeoutCounter := timeoutCounter + 1;
        if timeoutCounter == 10 * timeoutMax {
          return Returned(false, []);
        }
        return Returned(true, []);
      }
      timeoutCounter := 0;
      recvCount := recvCount + retval;
      var frags, thrown;
      frags, evCounter, thrown := SplitEvents(buf, evLenOffset, retval * PACKET_WORDS, fragmentId, evCounter);
      o := if thrown then Thrown else Returned(true, frags);
    }

    /**
     * One pass of the splitting loop: the event at `n`, or where splitting
     * stops and whether `resizeBytes` throws there.
     */
    static method NextEvent(buf: seq<Int16>, evLen: nat, n: nat, limit: int)
      returns (stop: bool, thrown: bool, words: seq<Int16>, next: nat)
      requires n < limit && n <= |buf|
      ensures stop ==> Cut(buf, evLen, n, limit).0 == [] && (thrown <==> Cut(buf, evLen, n, limit).1.Negative?)
      ensures !stop ==> n < next <= |buf| && Cut(buf, evLen, n, limit).0 == [words] + Cut(buf, evLen, next, limit).0 &&
                        Cut(buf, evLen, n, limit).1 == Cut(buf, evLen, next, limit).1
    {
      if n + evLen >= |buf| {
        CutStops(buf, evLen, n, limit);
        return true, false, [], n;
      }
      var len := buf[n + evLen] as int;
      if HEADER_WORDS + len <= 0 || n + HEADER_WORDS + len > |buf| {
        CutStops(buf, evLen, n, limit);
        return true, HEADER_WORDS + len < 0, [], n;
      }
      words := buf[n .. n + HEADER_WORDS + len];
      next := n + HEADER_WORDS + len;
      CutSteps(buf, evLen, n, limit);
      stop, thrown := false, false;
    }

    /**
     * The splitting loop: one fragment per event from the start of the
     * buffer while the cursor is below `limit`, each taking the event
     * counter and then incrementing it, until an event whose length is
     * below -3 makes it throw.
     */
    static method SplitEvents(buf: seq<Int16>, evLen: nat, limit: int, fragmentId: nat, first: nat)
      returns (frags: seq<StmFragment>, evCounter: nat, thrown: bool)
      ensures frags == Numbered(Cut(buf, evLen, 0, limit).0, first, fragmentId)
      ensures evCounter == first + |frags|
      ensures thrown <==> Cut(buf, evLen, 0, limit).1.Negative?
    {
      ghost var cut := Cut(buf, evLen, 0, limit);
      ghost var done: seq<seq<Int16>> := [];
      frags := [];
      evCounter := first;
      var n: nat := 0;
      thrown := false;
      assert cut.0 == done + cut.0;
      while n < limit
        invariant n <= |buf| && !thrown
        invariant evCounter == first + |done|
        invariant frags == Numbered(done, first, fragmentId)
        invariant cut == (done + Cut(buf, evLen, n, limit).0, Cut(buf, evLen, n, limit).1)
        decreases limit - n
      {
        var stop, bad, words, next := NextEvent(buf, evLen, n, limit);
        if stop {
          thrown := bad;
          break;
        }
        ghost var rest := Cut(buf, evLen, next, limit).0;
        NumberedSnoc(done, words, first, fragmentId);
        frags := frags + [StmFragment(evCounter, fragmentId, words)];
        ConcatAssoc(done, [words], rest);
        done := done + [words];
        n := next;
        evCounter := evCounter + 1;
      }
      CutStops(buf, evLen, n, limit);
      assert cut.0 == done + [] == done;
    }
  }
}
