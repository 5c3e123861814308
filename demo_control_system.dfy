/**
 * `SystemControl` in the run-control script: each transition command is sent
 * over XML-RPC to the artdaq processes, one group of processes (a wave) after
 * another. Toy boards that share a BoardReader are addressed through that
 * reader, once, by the first of its boards met in the wave.
 */
module SystemControl {

  import opened Common
  import opened CommandLineParser
  import ConfigGen

  /** What one XML-RPC call gave back: the reply text, or the exception it raised. */
  datatype Reply = Ok(text: string) | Failed(message: string)

  /**
   * The process a call goes to. `reader` is `Some(r)` when the call stands
   * for all the boards of the shared BoardReader `r`, `None` when it goes to
   * the named process itself.
   */
  datatype Target = Target(host: string, port: int, kind: string, reader: Option<nat>)

  /** One XML-RPC call as made: where to, the method, its argument and the client timeout. */
  datatype Call = Call(to: Target, methodName: string, arg: Option<string>, timeout: int)

  /** The client timeout, in seconds, of a transition call. */
  function Timeout(commandName: string, kind: string): (t: int)
    ensures commandName != "stop" ==> t == 60
    ensures commandName == "stop" ==> (t == 120 <==> kind == "ag")
    ensures commandName == "stop" ==> (t == 45 <==> kind == "eb" || kind == "multi-board")
    ensures commandName == "stop" ==> (t == 30 <==> kind != "ag" && kind != "eb" && kind != "multi-board")
  {
    if commandName == "stop" then
      if kind == "ag" then 120
      else if kind == "eb" || kind == "multi-board" then 45
      else 30
    else 60
  }

  function CallTo(t: Target, commandName: string, arg: Option<string>): Call
  {
    Call(t, "daq." + commandName, arg, Timeout(commandName, t.kind))
  }

  function CallsTo(ts: seq<Target>, commandName: string, arg: Option<string>): (cs: seq<Call>)
    ensures |cs| == |ts|
    ensures forall k :: 0 <= k < |ts| ==> cs[k].to == ts[k] && cs[k].methodName == "daq." + commandName
    ensures forall k :: 0 <= k < |ts| ==> cs[k].arg == arg && cs[k].timeout == Timeout(commandName, ts[k].kind)
  {
    seq(|ts|, k requires 0 <= k < |ts| => CallTo(ts[k], commandName, arg))
  }

  /**
   * The text logged for a reply. A failed call is logged as "Exception: "
   * followed by the message (the corrected behaviour; see `CommandResultAsWritten`).
   */
  function CommandResult(r: Reply): (s: string)
    ensures r.Ok? ==> s == r.text
    ensures r.Failed? ==> |s| == 11 + |r.message| && s[..11] == "Exception: " && s[11..] == r.message
  {
    match r
    case Ok(text) => text
    case Failed(message) => "Exception: " + message
  }

  /**
   * The rescue clause as written: `"Exception: " + msg` adds an exception
   * object to a string, which raises a TypeError, so a failed call yields no
   * result at all (`None`).
   */
  function CommandResultAsWritten(r: Reply): (s: Option<string>)
    ensures s.Some? <==> r.Ok?
    ensures r.Ok? ==> s == Some(CommandResult(r))
  {
    match r
    case Ok(text) => Some(text)
    case Failed(_) => None
  }

  function Results(rs: seq<Reply>): (ss: seq<string>)
    ensures |ss| == |rs| && forall k :: 0 <= k < |rs| ==> ss[k] == CommandResult(rs[k])
  {
    seq(|rs|, k requires 0 <= k < |rs| => CommandResult(rs[k]))
  }

  /** A process whose reader reads out more than one board. */
  predicate Shared(rs: seq<BoardReader>, p: Proc)
  {
    p.boardReaderIndex.Some? && p.boardReaderIndex.value < |rs| &&
    rs[p.boardReaderIndex.value].boardCount > 1
  }

  function Direct(p: Proc): Target
  {
    Target(p.host, p.port, p.kind, None)
  }

  function ForReader(rs: seq<BoardReader>, r: nat): Target
    requires r < |rs|
  {
    Target(rs[r].host, rs[r].port, rs[r].kind, Some(r))
  }

  /** One process of `sendCommandSet`: the calls it adds and the readers after it. */
  function Step(rs: seq<BoardReader>, p: Proc): (seq<Target>, seq<BoardReader>)
  {
    if Shared(rs, p) then
      var r := p.boardReaderIndex.value;
      if rs[r].commandHasBeenSent then ([], rs)
      else ([ForReader(rs, r)], rs[r := rs[r].(commandHasBeenSent := true)])
    else ([Direct(p)], rs)
  }

  /** The calls `sendCommandSet` makes for `procs`, in order, and the readers afterwards. */
  function Dispatch(rs: seq<BoardReader>, procs: seq<Proc>): (d: (seq<Target>, seq<BoardReader>))
    requires Indexed(|rs|, procs)
    ensures |d.1| == |rs| && |d.0| <= |procs|
    decreases |procs|
  {
    if procs == [] then ([], rs)
    else
      var (t, rs1) := Step(rs, procs[0]);
      var (ts, rs2) := Dispatch(rs1, procs[1..]);
      (t + ts, rs2)
  }

  /** `Dispatch` from position `i` on: the step for `procs[i]`, then the rest from the readers it leaves. */
  lemma DispatchFrom(rs: seq<BoardReader>, procs: seq<Proc>, i: nat)
    requires Indexed(|rs|, procs) && i < |procs|
    ensures Indexed(|rs|, procs[i..]) && Indexed(|Step(rs, procs[i]).1|, procs[i + 1..])
    ensures Dispatch(rs, procs[i..]) ==
            (Step(rs, procs[i]).0 + Dispatch(Step(rs, procs[i]).1, procs[i + 1..]).0,
             Dispatch(Step(rs, procs[i]).1, procs[i + 1..]).1)
  {
    assert procs[i..][0] == procs[i];
    assert procs[i..][1..] == procs[i + 1..];
  }

  /** The number of calls in `ts` that stand for the shared reader `r`. */
  function CountFor(ts: seq<Target>, r: nat): nat
  {
    if ts == [] then 0 else (if ts[0].reader == Some(r) then 1 else 0) + CountFor(ts[1..], r)
  }

  lemma {:induction false} CountForAppend(a: seq<Target>, b: seq<Target>, r: nat)
    ensures CountFor(a + b, r) == CountFor(a, r) + CountFor(b, r)
    decreases |a|
  {
    if a == [] {
      assert a + b == b;
    } else {
      assert (a + b)[1..] == a[1..] + b;
      CountForAppend(a[1..], b, r);
    }
  }

  lemma NamesSplit(procs: seq<Proc>, r: nat)
    requires procs != []
    ensures Names(procs, r) <==> procs[0].boardReaderIndex == Some(r) || Names(procs[1..], r)
  {
    if Names(procs, r) && procs[0].boardReaderIndex != Some(r) {
      var i :| 0 <= i < |procs| && procs[i].boardReaderIndex == Some(r);
      assert procs[1..][i - 1] == procs[i];
    }
    if Names(procs[1..], r) {
      var i :| 0 <= i < |procs[1..]| && procs[1..][i].boardReaderIndex == Some(r);
      assert procs[i + 1] == procs[1..][i];
    }
  }

  /** A reader whose only change is its "command sent" flag, which may go from false to true. */
  predicate FlagOnly(before: BoardReader, after: BoardReader)
  {
    after == before.(commandHasBeenSent := after.commandHasBeenSent) &&
    (before.commandHasBeenSent ==> after.commandHasBeenSent)
  }

  /** Dispatching changes nothing about the readers but their flags, and never clears a flag. */
  lemma {:induction false} DispatchFlagsOnly(rs: seq<BoardReader>, procs: seq<Proc>)
    requires Indexed(|rs|, procs)
    ensures forall j :: 0 <= j < |rs| ==> FlagOnly(rs[j], Dispatch(rs, procs).1[j])
    decreases |procs|
  {
    if procs != [] {
      var (t, rs1) := Step(rs, procs[0]);
      DispatchFlagsOnly(rs1, procs[1..]);
    }
  }

  /**
   * A reader with more than one board receives the command exactly once if
   * one of its boards is in `procs` and its flag was clear, and never
   * otherwise; afterwards its flag is set exactly when it was set before or
   * one of its boards was in `procs`.
   */
  lemma {:induction false} DispatchSharedOnce(rs: seq<BoardReader>, procs: seq<Proc>, r: nat)
    requires Indexed(|rs|, procs) && r < |rs| && rs[r].boardCount > 1
    ensures CountFor(Dispatch(rs, procs).0, r) ==
            (if !rs[r].commandHasBeenSent && Names(procs, r) then 1 else 0)
    ensures Dispatch(rs, procs).1[r].commandHasBeenSent ==
            (rs[r].commandHasBeenSent || Names(procs, r))
    decreases |procs|
  {
    if procs != [] {
      var (t, rs1) := Step(rs, procs[0]);
      var (ts, rs2) := Dispatch(rs1, procs[1..]);
      DispatchSharedOnce(rs1, procs[1..], r);
      CountForAppend(t, ts, r);
      NamesSplit(procs, r);
      assert CountFor(t, r) == (if t != [] && t[0].reader == Some(r) then 1 else 0);
    }
  }

  /** A process that is not a board of a shared reader is always addressed itself. */
  lemma {:induction false} DispatchDirect(rs: seq<BoardReader>, procs: seq<Proc>, i: nat)
    requires Indexed(|rs|, procs) && i < |procs| && !Shared(rs, procs[i])
    ensures Direct(procs[i]) in Dispatch(rs, procs).0
    decreases |procs|
  {
    var (t, rs1) := Step(rs, procs[0]);
    if i > 0 {
      DispatchFlagsOnly(rs, procs[..1]);
      assert procs[1..][i - 1] == procs[i];
      assert !Shared(rs1, procs[1..][i - 1]) by {
        if procs[i].boardReaderIndex.Some? {
          var b := procs[i].boardReaderIndex.value;
          assert rs1[b].boardCount == rs[b].boardCount;
        }
      }
      DispatchDirect(rs1, procs[1..], i - 1);
    }
  }

  /**
   * Every call goes either to one of `procs` that is not a board of a shared
   * reader, or to a shared reader one of whose boards is in `procs`.
   */
  lemma {:induction false} DispatchTargetsNamed(rs: seq<BoardReader>, procs: seq<Proc>, k: nat)
    requires Indexed(|rs|, procs) && k < |Dispatch(rs, procs).0|
    ensures var t := Dispatch(rs, procs).0[k];
            (t.reader.None? ==>
               exists i :: 0 <= i < |procs| && !Shared(rs, procs[i]) && t == Direct(procs[i])) &&
            (t.reader.Some? ==>
               t.reader.value < |rs| && rs[t.reader.value].boardCount > 1 &&
               Names(procs, t.reader.value) && t == ForReader(rs, t.reader.value))
    decreases |procs|
  {
    var (t, rs1) := Step(rs, procs[0]);
    var (ts, rs2) := Dispatch(rs1, procs[1..]);
    DispatchFlagsOnly(rs, procs[..1]);
    assert forall j :: 0 <= j < |rs| ==> FlagOnly(rs[j], rs1[j]);
    if k < |t| {
      if t[0].reader.Some? {
        NamesSplit(procs, t[0].reader.value);
      }
    } else {
      DispatchTargetsNamed(rs1, procs[1..], k - |t|);
      var u := ts[k - |t|];
      assert Dispatch(rs, procs).0[k] == u;
      if u.reader.None? {
        var i :| 0 <= i < |procs[1..]| && !Shared(rs1, procs[1..][i]) && u == Direct(procs[1..][i]);
        assert procs[i + 1] == procs[1..][i];
        if procs[i + 1].boardReaderIndex.Some? {
          var b := procs[i + 1].boardReaderIndex.value;
          assert rs1[b].boardCount == rs[b].boardCount;
        }
      } else {
        NamesSplit(procs, u.reader.value);
      }
    }
  }

  /** The calls of consecutive `sendCommandSet`s, wave by wave, and the readers afterwards. */
  function DispatchWaves(rs: seq<BoardReader>, waves: seq<seq<Proc>>): (d: (seq<seq<Target>>, seq<BoardReader>))
    requires forall w :: 0 <= w < |waves| ==> Indexed(|rs|, waves[w])
    ensures |d.0| == |waves| && |d.1| == |rs|
    decreases |waves|
  {
    if waves == [] then ([], rs)
    else
      var (ts, rs1) := Dispatch(rs, waves[0]);
      var (tss, rs2) := DispatchWaves(rs1, waves[1..]);
      ([ts] + tss, rs2)
  }

  /** `DispatchWaves` from wave `w` on: wave `w`, then the rest from the readers it leaves. */
  lemma WavesFrom(rs: seq<BoardReader>, waves: seq<seq<Proc>>, w: nat)
    requires (forall v :: 0 <= v < |waves| ==> Indexed(|rs|, waves[v])) && w < |waves|
    ensures forall v :: w + 1 <= v < |waves| ==> Indexed(|Dispatch(rs, waves[w]).1|, waves[v])
    ensures DispatchWaves(rs, waves[w..]) ==
            ([Dispatch(rs, waves[w]).0] + DispatchWaves(Dispatch(rs, waves[w]).1, waves[w + 1..]).0,
             DispatchWaves(Dispatch(rs, waves[w]).1, waves[w + 1..]).1)
  {
    assert waves[w..][0] == waves[w];
    assert waves[w..][1..] == waves[w + 1..];
  }

  /**
   * The waves of `stop`: all toys, then all event builders, then each
   * aggregator on its own, one after the other.
   */
  function StopWaves(toys: seq<Proc>, eventBuilders: seq<Proc>, aggregators: seq<Proc>): (ws: seq<seq<Proc>>)
    ensures |ws| == 2 + |aggregators| && ws[0] == toys && ws[1] == eventBuilders
    ensures forall a :: 0 <= a < |aggregators| ==> ws[2 + a] == [aggregators[a]]
  {
    [toys, eventBuilders] + seq(|aggregators|, a requires 0 <= a < |aggregators| => [aggregators[a]])
  }

  /**
   * The options of a command line: toys, event builders and aggregators
   * as the parser built them. Only toys carry a reader index.
   */
  predicate WellFormed(o: seq<BoardReader>, toys: seq<Proc>, eventBuilders: seq<Proc>,
                       aggregators: seq<Proc>)
  {
    Indexed(|o|, toys) &&
    (forall i :: 0 <= i < |eventBuilders| ==> eventBuilders[i].boardReaderIndex.None?) &&
    (forall i :: 0 <= i < |aggregators| ==> aggregators[i].boardReaderIndex.None?)
  }

  /**
   * The readers' flags start clear in each run of the script, so within one
   * transition a shared reader receives the command exactly once if it has a
   * board at all, whatever the order of the waves.
   */
  lemma {:induction false} WavesSharedOnce(rs: seq<BoardReader>, waves: seq<seq<Proc>>, r: nat)
    requires forall w :: 0 <= w < |waves| ==> Indexed(|rs|, waves[w])
    requires r < |rs| && rs[r].boardCount > 1
    ensures var (tss, rs') := DispatchWaves(rs, waves);
            rs'[r].commandHasBeenSent == (rs[r].commandHasBeenSent || exists w :: 0 <= w < |waves| && Names(waves[w], r)) &&
            (!rs[r].commandHasBeenSent ==>
               SumFor(tss, r) == (if exists w :: 0 <= w < |waves| && Names(waves[w], r) then 1 else 0))
    decreases |waves|
  {
    if waves != [] {
      var (ts, rs1) := Dispatch(rs, waves[0]);
      DispatchSharedOnce(rs, waves[0], r);
      DispatchFlagsOnly(rs, waves[0]);
      assert forall w :: 0 <= w < |waves[1..]| ==> Indexed(|rs1|, waves[1..][w]) by {
        forall w | 0 <= w < |waves[1..]| ensures Indexed(|rs1|, waves[1..][w]) {
          assert waves[1..][w] == waves[w + 1];
        }
      }
      WavesSharedOnce(rs1, waves[1..], r);
      var (tss, rs2) := DispatchWaves(rs1, waves[1..]);
      assert ([ts] + tss)[1..] == tss;
      if rs1[r].commandHasBeenSent && !rs[r].commandHasBeenSent {
        SumForNone(rs1, waves[1..], r);
      }
      if exists w :: 0 <= w < |waves[1..]| && Names(waves[1..][w], r) {
        var w :| 0 <= w < |waves[1..]| && Names(waves[1..][w], r);
        assert waves[w + 1] == waves[1..][w];
      }
      if exists w :: 0 <= w < |waves| && Names(waves[w], r) {
        var w :| 0 <= w < |waves| && Names(waves[w], r);
        if w > 0 {
          assert waves[1..][w - 1] == waves[w];
        }
      }
    }
  }

  /** The number of calls, over all waves, that stand for the shared reader `r`. */
  function SumFor(tss: seq<seq<Target>>, r: nat): nat
  {
    if tss == [] then 0 else CountFor(tss[0], r) + SumFor(tss[1..], r)
  }

  /** Once a reader's flag is set, no later wave addresses it. */
  lemma {:induction false} SumForNone(rs: seq<BoardReader>, waves: seq<seq<Proc>>, r: nat)
    requires forall w :: 0 <= w < |waves| ==> Indexed(|rs|, waves[w])
    requires r < |rs| && rs[r].boardCount > 1 && rs[r].commandHasBeenSent
    ensures SumFor(DispatchWaves(rs, waves).0, r) == 0
    decreases |waves|
  {
    if waves != [] {
      var (ts, rs1) := Dispatch(rs, waves[0]);
      DispatchSharedOnce(rs, waves[0], r);
      DispatchFlagsOnly(rs, waves[0]);
      assert forall w :: 0 <= w < |waves[1..]| ==> Indexed(|rs1|, waves[1..][w]) by {
        forall w | 0 <= w < |waves[1..]| ensures Indexed(|rs1|, waves[1..][w]) {
          assert waves[1..][w] == waves[w + 1];
        }
      }
      SumForNone(rs1, waves[1..], r);
      var (tss, rs2) := DispatchWaves(rs1, waves[1..]);
      assert ([ts] + tss)[1..] == tss;
    }
  }

  /** `replies` has a reply for every process of every wave. */
  predicate Answers(replies: seq<seq<Reply>>, waves: seq<seq<Proc>>)
  {
    |replies| == |waves| && forall w :: 0 <= w < |waves| ==> |replies[w]| >= |waves[w]|
  }

  /**
   * The record of a run of waves: the calls of each wave go to the targets
   * `DispatchWaves` picks, each with the reply given for it, and the readers
   * end as `DispatchWaves` leaves them.
   */
  predicate Transcript(rs0: seq<BoardReader>, rs: seq<BoardReader>, waves: seq<seq<Proc>>,
                       commandName: string, arg: Option<string>, replies: seq<seq<Reply>>,
                       calls: seq<seq<Call>>, results: seq<seq<string>>)
    requires forall w :: 0 <= w < |waves| ==> Indexed(|rs0|, waves[w])
    requires Answers(replies, waves)
  {
    var (tss, rs1) := DispatchWaves(rs0, waves);
    rs == rs1 && |calls| == |waves| && |results| == |waves| &&
    forall w :: 0 <= w < |waves| ==>
      |tss[w]| <= |replies[w]| &&
      calls[w] == CallsTo(tss[w], commandName, arg) && results[w] == Results(replies[w][..|tss[w]|])
  }

  /** How the polling of `stop` ended: the loop ended on this value, or the replies ran out first. */
  datatype PollOutcome<T> = Reached(value: T) | StillPolling

  /** A reply after which the poll asks once more, ten seconds later. */
  predicate Retry(r: Reply)
  {
    r == Ok("busy") || r == Ok("-1")
  }

  /**
   * The reply one poll acts on and the replies left after it: the first
   * reply, or the second one when the first asks for a retry.
   */
  function Fetch(replies: seq<Reply>): (f: Option<(Reply, seq<Reply>)>)
    ensures f.None? <==> |replies| == 0 || (|replies| == 1 && Retry(replies[0]))
    ensures f.Some? && !Retry(replies[0]) ==> f.value == (replies[0], replies[1..])
    ensures f.Some? && Retry(replies[0]) ==> f.value == (replies[1], replies[2..])
  {
    if |replies| == 0 then None
    else if Retry(replies[0]) then (if |replies| >= 2 then Some((replies[1], replies[2..])) else None)
    else Some((replies[0], replies[1..]))
  }

  /** The event count after a poll: the reported number, or the previous count when there is none. */
  function PolledCount(r: Reply, previous: int): int
  {
    match r
    case Ok(text) => (match ParseInteger(text) case Some(v) => v case None => previous)
    case Failed(_) => previous
  }

  /** A pause kept between 10 and 900 seconds. */
  function Clamp(x: int): (y: int)
    ensures 10 <= y <= 900
    ensures 10 <= x <= 900 ==> y == x
  {
    if x < 10 then 10 else if x > 900 then 900 else x
  }

  /**
   * The pause before the next poll of the event count: at the event rate of
   * the last interval, half the time the remaining events need; 10 seconds
   * when the count did not grow or there is no rate yet. Ruby's integer
   * division floors, as Dafny's does for a positive divisor.
   */
  function NextSleep(eventsInRun: int, count: int, previous: int, sleepTime: int): (s: int)
    ensures 10 <= s <= 900
    ensures !(count > 0 && previous > 0 && count > previous && sleepTime > 0) ==> s == 10
  {
    if count > 0 && previous > 0 && count > previous && sleepTime > 0 then
      var rate := (count - previous) / sleepTime;
      Clamp(if rate > 0 then ((eventsInRun - count) / 2) / rate else 10)
    else 10
  }

  /**
   * The event-count loop of `stop`, from a count and a pause, over the
   * replies still to come: how it ends and the pause taken before each poll.
   * It runs while 0 <= count < eventsInRun. When a poll starts, the count of
   * the poll before it is the current count.
   */
  function PollCount(eventsInRun: int, count: int, sleepTime: int, replies: seq<Reply>)
    : (PollOutcome<int>, seq<int>)
    decreases |replies|
  {
    if !(0 <= count < eventsInRun) then (Reached(count), [])
    else match Fetch(replies)
      case None => (StillPolling, [sleepTime])
      case Some((r, rest)) =>
        var c := PolledCount(r, count);
        var next := PollCount(eventsInRun, c, NextSleep(eventsInRun, c, count, sleepTime), rest);
        (next.0, [sleepTime] + next.1)
  }

  /** One poll of the event-count loop, unfolded. */
  lemma PollCountStep(eventsInRun: int, count: int, sleepTime: int, replies: seq<Reply>)
    requires 0 <= count < eventsInRun && Fetch(replies).Some?
    ensures var (r, rest) := Fetch(replies).value;
            var c := PolledCount(r, count);
            var next := PollCount(eventsInRun, c, NextSleep(eventsInRun, c, count, sleepTime), rest);
            PollCount(eventsInRun, count, sleepTime, replies) == (next.0, [sleepTime] + next.1)
  {
  }

  /** The first pause is the one the loop starts with; every later one lies within 10..900 seconds. */
  lemma {:induction false} PollSleepsBounded(eventsInRun: int, count: int, sleepTime: int,
                                             replies: seq<Reply>)
    ensures var ss := PollCount(eventsInRun, count, sleepTime, replies).1;
            (ss != [] ==> ss[0] == sleepTime) && forall k :: 1 <= k < |ss| ==> 10 <= ss[k] <= 900
    decreases |replies|
  {
    if 0 <= count < eventsInRun {
      match Fetch(replies)
      case None =>
      case Some((r, rest)) =>
        var c := PolledCount(r, count);
        PollSleepsBounded(eventsInRun, c, NextSleep(eventsInRun, c, count, sleepTime), rest);
    }
  }

  /** The loop ends only on a negative count or one that has reached the target. */
  lemma {:induction false} PollEndsAtTarget(eventsInRun: int, count: int, sleepTime: int,
                                            replies: seq<Reply>)
    ensures var o := PollCount(eventsInRun, count, sleepTime, replies).0;
            o.Reached? ==> o.value < 0 || o.value >= eventsInRun
    decreases |replies|
  {
    if 0 <= count < eventsInRun {
      match Fetch(replies)
      case None =>
      case Some((r, rest)) =>
        var c := PolledCount(r, count);
        PollEndsAtTarget(eventsInRun, c, NextSleep(eventsInRun, c, count, sleepTime), rest);
    }
  }

  /** A reported count at or past the target ends the loop after that one poll. */
  lemma PollStopsAtTarget(eventsInRun: int, count: int, sleepTime: int, n: int, rest: seq<Reply>)
    requires 0 <= count < eventsInRun <= n
    ensures PollCount(eventsInRun, count, sleepTime, [Ok(IntToString(n))] + rest) == (Reached(n), [sleepTime])
  {
    NotRetry(n);
    var replies := [Ok(IntToString(n))] + rest;
    assert replies[1..] == rest;
    assert Fetch(replies) == Some((Ok(IntToString(n)), rest));
    assert PolledCount(Ok(IntToString(n)), count) == n by {
      IntegerOfString(n);
    }
    assert [sleepTime] + [] == [sleepTime];
    assert PollCount(eventsInRun, count, sleepTime, replies) == (Reached(n), [sleepTime]);
  }

  /** The text of a positive count is never a reply that asks for a retry. */
  lemma NotRetry(n: int)
    requires n > 0
    ensures !Retry(Ok(IntToString(n)))
  {
    IntegerOfString(n);
    assert ParseInteger("busy") == None by {
      assert !AllDigits("busy") by { assert !IsDigit("busy"[0]); }
    }
  }

  /** "-1" twice in a row (the reply and its retry) ends the loop: no run is in progress. */
  lemma PollGivesUpOnMinusOne(eventsInRun: int, count: int, sleepTime: int, rest: seq<Reply>)
    requires 0 <= count < eventsInRun
    ensures PollCount(eventsInRun, count, sleepTime, [Ok("-1"), Ok("-1")] + rest) == (Reached(-1), [sleepTime])
  {
    assert ParseInteger("-1") == Some(-1) by {
      assert "-1"[1..] == "1";
      assert DigitsValue("1", 10) == 1 by { assert "1"[..0] == ""; }
    }
    var replies := [Ok("-1"), Ok("-1")] + rest;
    assert replies[2..] == rest;
    assert Fetch(replies) == Some((Ok("-1"), rest));
    assert [sleepTime] + [] == [sleepTime];
    assert PollCount(eventsInRun, count, sleepTime, replies) == (Reached(-1), [sleepTime]);
  }

  /** A failed poll keeps the count and tries again after 10 seconds. */
  lemma PollFailureKeepsCount(eventsInRun: int, count: int, sleepTime: int, message: string,
                              rest: seq<Reply>)
    requires 0 <= count < eventsInRun
    ensures var next := PollCount(eventsInRun, count, 10, rest);
            PollCount(eventsInRun, count, sleepTime, [Failed(message)] + rest) == (next.0, [sleepTime] + next.1)
  {
    assert ([Failed(message)] + rest)[1..] == rest;
  }

  /** The pause computation at the end of each event-count poll. */
  method NextPause(eventsInRun: int, count: int, previous: int, sleepTime: int) returns (s: int)
    ensures s == NextSleep(eventsInRun, count, previous, sleepTime)
  {
    if count > 0 && previous > 0 && count > previous && sleepTime > 0 {
      var remainingEvents := eventsInRun - count;
      var recentRate := (count - previous) / sleepTime;
      if recentRate > 0 {
        s := (remainingEvents / 2) / recentRate;
      } else {
        s := 10;
      }
      if s < 10 {
        s := 10;
      }
      if s > 900 {
        s := 900;
      }
    } else {
      s := 10;
    }
  }

  /**
   * One poll: the next reply, read once more when the first says the
   * aggregator is busy ("busy" or "-1"); `found` is false when the replies
   * run out first.
   */
  method TakeReply(rest: seq<Reply>) returns (found: bool, result: Reply, next: seq<Reply>)
    ensures found <==> Fetch(rest).Some?
    ensures found ==> Fetch(rest) == Some((result, next)) && |next| < |rest|
  {
    found, result, next := false, Failed(""), rest;
    if |rest| == 0 {
      return;
    }
    result := rest[0];
    next := rest[1..];
    if result == Ok("busy") || result == Ok("-1") {
      if |next| == 0 {
        return;
      }
      result := next[0];
      next := next[1..];
    }
    found := true;
  }

  /** The event-count loop of `stop` as it runs against the first aggregator. */
  method PollEventCount(eventsInRun: int, replies: seq<Reply>)
    returns (outcome: PollOutcome<int>, sleeps: seq<int>)
    ensures (outcome, sleeps) == PollCount(eventsInRun, 0, 0, replies)
  {
    var count := 0;
    var previous := 0;
    var sleepTime := 0;
    var rest := replies;
    sleeps := [];
    while count >= 0 && count < eventsInRun
      invariant previous == count
      invariant PollCount(eventsInRun, 0, 0, replies).0 == PollCount(eventsInRun, count, sleepTime, rest).0
      invariant PollCount(eventsInRun, 0, 0, replies).1 == sleeps + PollCount(eventsInRun, count, sleepTime, rest).1
      decreases |rest|
    {
      ghost var before := rest;
      ghost var sleptBefore := sleeps;
      sleeps := sleeps + [sleepTime];
      var found, result, next := TakeReply(rest);
      if !found {
        outcome := StillPolling;
        return;
      }
      rest := next;
      ghost var sleptFor := sleepTime;
      count := PolledCount(result, previous);
      sleepTime := NextPause(eventsInRun, count, previous, sleepTime);
      assert count == PolledCount(result, previous) && sleepTime == NextSleep(eventsInRun, count, previous, sleptFor);
      PollCountStep(eventsInRun, previous, sleptFor, before);
      assert sleptBefore + ([sleptFor] + PollCount(eventsInRun, count, sleepTime, rest).1) ==
             sleeps + PollCount(eventsInRun, count, sleepTime, rest).1;
      previous := count;
    }
    assert sleeps + [] == sleeps;
    outcome := Reached(count);
  }

  /**
   * The event-count loop as written: a failed call, or a reply that
   * `Integer()` rejects, reaches `"Exception: " + msg`, which raises a
   * TypeError and ends the script before any stop command is sent (`None`).
   */
  function PollCountAsWritten(eventsInRun: int, count: int, sleepTime: int, replies: seq<Reply>)
    : Option<(PollOutcome<int>, seq<int>)>
    decreases |replies|
  {
    if !(0 <= count < eventsInRun) then Some((Reached(count), []))
    else match Fetch(replies)
      case None => Some((StillPolling, [sleepTime]))
      case Some((r, rest)) =>
        if r.Failed? || ParseInteger(r.text).None? then None
        else
          var c := ParseInteger(r.text).value;
          match PollCountAsWritten(eventsInRun, c, NextSleep(eventsInRun, c, count, sleepTime), rest)
          case None => None
          case Some(next) => Some((next.0, [sleepTime] + next.1))
  }

  /**
   * One timed-out poll: as written the script dies, while the corrected loop
   * keeps the count, polls again and ends the run when the target is reported.
   */
  lemma PollFailureAbortsAsWritten()
    ensures PollCountAsWritten(5, 0, 0, [Failed("timeout"), Ok("5")]) == None
    ensures PollCount(5, 0, 0, [Failed("timeout"), Ok("5")]) == (Reached(5), [0, 10])
  {
    assert ParseInteger("5") == Some(5) by {
      assert DigitsValue("5", 10) == 5 by { assert "5"[..0] == ""; }
    }
    var replies := [Failed("timeout"), Ok("5")];
    assert Fetch(replies) == Some((Failed("timeout"), [Ok("5")]));
    assert Fetch([Ok("5")]) == Some((Ok("5"), []));
    assert PolledCount(Ok("5"), 0) == 5;
    assert PollCount(5, 5, NextSleep(5, 5, 0, 10), []) == (Reached(5), []);
    assert [10] + [] == [10];
    assert PollCount(5, 0, 10, [Ok("5")]) == (Reached(5), [10]);
    assert [0] + [10] == [0, 10];
  }


  /** Powers of ten, for the fraction digits of a decimal number. */
  function Pow10(n: nat): (p: nat)
    ensures p >= 1
  {
    if n == 0 then 1 else 10 * Pow10(n - 1)
  }

  /** The first position of `c` in `s`, if any. */
  function IndexOf(s: string, c: char): (r: Option<nat>)
    ensures r.Some? ==> r.value < |s| && s[r.value] == c && forall i :: 0 <= i < r.value ==> s[i] != c
    ensures r.None? ==> forall i :: 0 <= i < |s| ==> s[i] != c
    decreases |s|
  {
    if s == [] then None
    else if s[0] == c then Some(0)
    else match IndexOf(s[1..], c)
         case None => None
         case Some(i) => Some(i + 1)
  }

  /** Digits, optionally followed by a point and more digits, as a non-negative number. */
  function ParseUnsignedReal(s: string): (r: Option<real>)
    ensures r.Some? ==> r.value >= 0.0
  {
    match IndexOf(s, '.')
    case None => if |s| > 0 && AllDigits(s) then Some(DigitsValue(s, 10) as real) else None
    case Some(i) =>
      var whole := s[..i];
      var fraction := s[i + 1..];
      if |whole| > 0 && |fraction| > 0 && AllDigits(whole) && AllDigits(fraction) then
        Some(DigitsValue(whole, 10) as real + DigitsValue(fraction, 10) as real / Pow10(|fraction|) as real)
      else None
  }

  /**
   * Ruby's `Float(text)` for an optional sign, digits and an optional
   * fraction; anything else is rejected (`None`), where Ruby raises.
   */
  function ParseFloat(s: string): (r: Option<real>)
  {
    var body := if |s| > 0 && (s[0] == '-' || s[0] == '+') then s[1..] else s;
    match ParseUnsignedReal(body)
    case None => None
    case Some(v) => Some(if |s| > 0 && s[0] == '-' then -v else v)
  }

  /** The decimal text of a natural number reads back as that number. */
  lemma UnsignedRealOfNat(n: nat)
    ensures ParseUnsignedReal(NatToString(n)) == Some(n as real)
  {
    var d := NatToString(n);
    DigitsValueOfNatToString(n);
    assert !IsDigit('.');
    assert IndexOf(d, '.') == None;
  }

  /** Whole seconds printed as an integer read back as that number of seconds. */
  lemma FloatOfIntegerText(i: int)
    ensures ParseFloat(IntToString(i)) == Some(i as real)
  {
    var n: nat := if i < 0 then -i else i;
    var d := NatToString(n);
    var s := IntToString(i);
    UnsignedRealOfNat(n);
    if i < 0 {
      assert s == "-" + d;
      assert s[1..] == d;
    } else {
      assert s == d && IsDigit(d[0]);
      assert s[0] != '-' && s[0] != '+';
    }
  }


  /** The run duration after a poll: the reported seconds, or 0 when there is no number. */
  function PolledDuration(r: Reply): real
  {
    match r
    case Ok(text) => (match ParseFloat(text) case Some(v) => v case None => 0.0)
    case Failed(_) => 0.0
  }

  /**
   * The pause before the next poll of the run duration: half the remaining
   * time, kept within 10..900 seconds; 10 seconds while no duration is known.
   */
  function NextDurationSleep(runDurationSeconds: int, duration: real): (s: real)
    ensures 10.0 <= s <= 900.0
    ensures duration <= 0.0 ==> s == 10.0
  {
    if duration > 0.0 then
      var half := (runDurationSeconds as real - duration) / 2.0;
      if half < 10.0 then 10.0 else if half > 900.0 then 900.0 else half
    else 10.0
  }

  /** The run-duration loop of `stop`: it runs while 0 <= duration < runDurationSeconds. */
  function PollDuration(runDurationSeconds: int, duration: real, sleepTime: real, replies: seq<Reply>)
    : (PollOutcome<real>, seq<real>)
    decreases |replies|
  {
    if !(0.0 <= duration < runDurationSeconds as real) then (Reached(duration), [])
    else match Fetch(replies)
      case None => (StillPolling, [sleepTime])
      case Some((r, rest)) =>
        var d := PolledDuration(r);
        var next := PollDuration(runDurationSeconds, d, NextDurationSleep(runDurationSeconds, d), rest);
        (next.0, [sleepTime] + next.1)
  }

  /** As for the event count: after the first pause, every pause lies within 10..900 seconds. */
  lemma {:induction false} PollDurationSleepsBounded(runDurationSeconds: int, duration: real,
                                                     sleepTime: real, replies: seq<Reply>)
    ensures var ss := PollDuration(runDurationSeconds, duration, sleepTime, replies).1;
            (ss != [] ==> ss[0] == sleepTime) && forall k :: 1 <= k < |ss| ==> 10.0 <= ss[k] <= 900.0
    decreases |replies|
  {
    if 0.0 <= duration < runDurationSeconds as real {
      match Fetch(replies)
      case None =>
      case Some((r, rest)) =>
        var d := PolledDuration(r);
        PollDurationSleepsBounded(runDurationSeconds, d, NextDurationSleep(runDurationSeconds, d), rest);
    }
  }

  /** The loop ends only on a negative duration or one that has reached the target. */
  lemma {:induction false} PollDurationEndsAtTarget(runDurationSeconds: int, duration: real,
                                                    sleepTime: real, replies: seq<Reply>)
    ensures var o := PollDuration(runDurationSeconds, duration, sleepTime, replies).0;
            o.Reached? ==> o.value < 0.0 || o.value >= runDurationSeconds as real
    decreases |replies|
  {
    if 0.0 <= duration < runDurationSeconds as real {
      match Fetch(replies)
      case None =>
      case Some((r, rest)) =>
        var d := PolledDuration(r);
        PollDurationEndsAtTarget(runDurationSeconds, d, NextDurationSleep(runDurationSeconds, d), rest);
    }
  }

  /** A reported duration, in whole seconds, at or past the target ends the loop after that poll. */
  lemma PollDurationStopsAtTarget(runDurationSeconds: int, duration: real, sleepTime: real, n: int,
                                  rest: seq<Reply>)
    requires 0.0 <= duration < runDurationSeconds as real && runDurationSeconds <= n
    ensures PollDuration(runDurationSeconds, duration, sleepTime, [Ok(IntToString(n))] + rest) ==
            (Reached(n as real), [sleepTime])
  {
    NotRetry(n);
    var replies := [Ok(IntToString(n))] + rest;
    assert replies[1..] == rest;
    assert Fetch(replies) == Some((Ok(IntToString(n)), rest));
    assert PolledDuration(Ok(IntToString(n))) == n as real by {
      FloatOfIntegerText(n);
    }
    assert [sleepTime] + [] == [sleepTime];
    assert PollDuration(runDurationSeconds, duration, sleepTime, replies) == (Reached(n as real), [sleepTime]);
  }

  /** A failed poll forgets the duration and tries again after 10 seconds. */
  lemma PollDurationFailureResets(runDurationSeconds: int, duration: real, sleepTime: real,
                                  message: string, rest: seq<Reply>)
    requires 0.0 <= duration < runDurationSeconds as real
    ensures var next := PollDuration(runDurationSeconds, 0.0, 10.0, rest);
            PollDuration(runDurationSeconds, duration, sleepTime, [Failed(message)] + rest) ==
            (next.0, [sleepTime] + next.1)
  {
    assert ([Failed(message)] + rest)[1..] == rest;
  }

  /** The pause before the next poll of the run duration, as `stop` computes it. */
  method DurationSleep(runDurationSeconds: int, duration: real) returns (sleepTime: real)
    ensures sleepTime == NextDurationSleep(runDurationSeconds, duration)
  {
    if duration > 0.0 {
      var remainingTime := runDurationSeconds as real - duration;
      sleepTime := remainingTime / 2.0;
      if sleepTime < 10.0 {
        sleepTime := 10.0;
      }
      if sleepTime > 900.0 {
        sleepTime := 900.0;
      }
    } else {
      sleepTime := 10.0;
    }
  }

  /** The run-duration loop of `stop` as it runs against the first aggregator. */
  method PollRunDuration(runDurationSeconds: int, replies: seq<Reply>)
    returns (outcome: PollOutcome<real>, sleeps: seq<real>)
    ensures (outcome, sleeps) == PollDuration(runDurationSeconds, 0.0, 0.0, replies)
  {
    var duration := 0.0;
    var sleepTime := 0.0;
    var rest := replies;
    sleeps := [];
    while duration >= 0.0 && duration < runDurationSeconds as real
      invariant PollDuration(runDurationSeconds, 0.0, 0.0, replies).0 ==
                PollDuration(runDurationSeconds, duration, sleepTime, rest).0
      invariant PollDuration(runDurationSeconds, 0.0, 0.0, replies).1 ==
                sleeps + PollDuration(runDurationSeconds, duration, sleepTime, rest).1
      decreases |rest|
    {
      ghost var sleptBefore := sleeps;
      ghost var sleptFor := sleepTime;
      sleeps := sleeps + [sleepTime];
      var found, result, next := TakeReply(rest);
      if !found {
        outcome := StillPolling;
        return;
      }
      rest := next;
      duration := PolledDuration(result);
      sleepTime := DurationSleep(runDurationSeconds, duration);
      assert PollDuration(runDurationSeconds, 0.0, 0.0, replies).1 ==
             sleptBefore + ([sleptFor] + PollDuration(runDurationSeconds, duration, sleepTime, rest).1);
      assert sleptBefore + ([sleptFor] + PollDuration(runDurationSeconds, duration, sleepTime, rest).1) ==
             sleeps + PollDuration(runDurationSeconds, duration, sleepTime, rest).1;
    }
    assert sleeps + [] == sleeps;
    outcome := Reached(duration);
  }

  /** The run-duration loop as written: a failed call or a rejected reply raises a TypeError (`None`). */
  function PollDurationAsWritten(runDurationSeconds: int, duration: real, sleepTime: real,
                                 replies: seq<Reply>): Option<(PollOutcome<real>, seq<real>)>
    decreases |replies|
  {
    if !(0.0 <= duration < runDurationSeconds as real) then Some((Reached(duration), []))
    else match Fetch(replies)
      case None => Some((StillPolling, [sleepTime]))
      case Some((r, rest)) =>
        if r.Failed? || ParseFloat(r.text).None? then None
        else
          var d := ParseFloat(r.text).value;
          match PollDurationAsWritten(runDurationSeconds, d, NextDurationSleep(runDurationSeconds, d), rest)
          case None => None
          case Some(next) => Some((next.0, [sleepTime] + next.1))
  }

  lemma DurationFailureAbortsAsWritten()
    ensures PollDurationAsWritten(60, 0.0, 0.0, [Failed("timeout"), Ok("75")]) == None
    ensures PollDuration(60, 0.0, 0.0, [Failed("timeout"), Ok("75")]) == (Reached(75.0), [0.0, 10.0])
  {
    FloatOfIntegerText(75);
    assert IntToString(75) == "75";
    var replies := [Failed("timeout"), Ok("75")];
    assert Fetch(replies) == Some((Failed("timeout"), [Ok("75")]));
    assert !Retry(Ok("75")) by {
      assert "75"[0] != "busy"[0] && "75"[0] != "-1"[0];
    }
    assert [Ok("75")][1..] == [];
    assert Fetch([Ok("75")]) == Some((Ok("75"), []));
    assert PolledDuration(Ok("75")) == 75.0;
    assert PollDuration(60, 75.0, NextDurationSleep(60, 75.0), []) == (Reached(75.0), []);
    assert [10.0] + [] == [10.0];
    assert PollDuration(60, 0.0, 10.0, [Ok("75")]) == (Reached(75.0), [10.0]);
    assert [0.0] + [10.0] == [0.0, 10.0];
  }


  /** What `stop` waited for before sending the stop commands. */
  datatype StopWait =
    | NoWait
    | EventCount(events: PollOutcome<int>, eventSleeps: seq<int>)
    | RunDuration(duration: PollOutcome<real>, durationSleeps: seq<real>)
  {
    /** The waiting is over, so the stop commands go out. */
    predicate Over()
    {
      !(EventCount? && events.StillPolling?) && !(RunDuration? && duration.StillPolling?)
    }
  }

  /**
   * `stop` waits for the event target when one is set, else for the
   * duration target when one is set, and only when an aggregator can be
   * asked; the first aggregator is the one polled.
   */
  function StopWaitFor(eventsInRun: int, runDurationSeconds: int, totalAGs: nat, pollReplies: seq<Reply>)
    : (w: StopWait)
    ensures w.EventCount? <==> eventsInRun > 0 && totalAGs > 0
    ensures w.RunDuration? <==> eventsInRun <= 0 && runDurationSeconds > 0 && totalAGs > 0
  {
    if eventsInRun > 0 then
      if totalAGs > 0 then
        var p := PollCount(eventsInRun, 0, 0, pollReplies);
        EventCount(p.0, p.1)
      else NoWait
    else if runDurationSeconds > 0 then
      if totalAGs > 0 then
        var p := PollDuration(runDurationSeconds, 0.0, 0.0, pollReplies);
        RunDuration(p.0, p.1)
      else NoWait
    else NoWait
  }

  /**
   * The control side of the script: it sends the transition commands and
   * keeps the reader flags in the parsed options.
   */
  /**
   * The client timeout of every `init` call: `init` sets none, so the
   * XML-RPC client's default of 30 seconds applies.
   */
  const DEFAULT_TIMEOUT := 30

  function InitCall(t: Target, cfg: Option<string>): Call
  {
    Call(t, "daq.init", cfg, DEFAULT_TIMEOUT)
  }

  /** Position `l` of reader `br` holds the kind and board index of board `p`. */
  predicate SlotMatches(br: BoardReader, p: Proc, l: nat)
  {
    l < |br.kindList| && l < |br.boardIndexList| &&
    br.kindList[l] == p.kind && br.boardIndexList[l] == p.index
  }

  /** The first position from `l` on that holds board `p`. */
  function SlotFrom(br: BoardReader, p: Proc, l: nat): (s: Option<nat>)
    ensures s.Some? ==> l <= s.value && SlotMatches(br, p, s.value)
    ensures s.Some? ==> forall m :: l <= m < s.value ==> !SlotMatches(br, p, m)
    ensures s.None? ==> forall m :: l <= m < |br.kindList| ==> !SlotMatches(br, p, m)
    decreases |br.kindList| - l
  {
    if l >= |br.kindList| then None
    else if SlotMatches(br, p, l) then Some(l)
    else SlotFrom(br, p, l + 1)
  }

  /** The configuration slot of board `p` in its reader: the first position holding its kind and index. */
  function SlotOf(br: BoardReader, p: Proc): Option<nat>
  {
    SlotFrom(br, p, 0)
  }

  /** The slot of a board depends only on the reader's lists of kinds and board indices. */
  lemma {:induction false} SlotFromSame(b1: BoardReader, b2: BoardReader, p: Proc, l: nat)
    requires b1.kindList == b2.kindList && b1.boardIndexList == b2.boardIndexList
    ensures SlotFrom(b1, p, l) == SlotFrom(b2, p, l)
    decreases |b1.kindList| - l
  {
    if l < |b1.kindList| && !SlotMatches(b1, p, l) {
      SlotFromSame(b1, b2, p, l + 1);
    }
  }

  /** `init` stores the configuration of board `p` in its slot, if it finds one. */
  function PlaceConfig(rs: seq<BoardReader>, p: Proc, cfg: string): (rs': seq<BoardReader>)
    requires p.boardReaderIndex.Some? && p.boardReaderIndex.value < |rs|
    ensures |rs'| == |rs|
  {
    var r := p.boardReaderIndex.value;
    match SlotOf(rs[r], p)
    case Some(l) =>
      if l < |rs[r].cfgList| then rs[r := rs[r].(cfgList := rs[r].cfgList[l := cfg])] else rs
    case None => rs
  }

  /** The scan of `init` along a reader's kinds for the slot of board `p`. */
  method FindSlot(br: BoardReader, p: Proc) returns (slot: Option<nat>)
    ensures slot == SlotOf(br, p)
  {
    var listIndex := 0;
    while listIndex < |br.kindList|
      invariant listIndex <= |br.kindList|
      invariant SlotOf(br, p) == SlotFrom(br, p, listIndex)
    {
      if br.kindList[listIndex] == p.kind && listIndex < |br.boardIndexList| &&
         br.boardIndexList[listIndex] == p.index {
        return Some(listIndex);
      }
      listIndex := listIndex + 1;
    }
    return None;
  }

  /** The readers after `init` has stored `cfgs[t]` for every toy `toys[t]`, in order. */
  function PlaceConfigs(rs: seq<BoardReader>, toys: seq<Proc>, cfgs: seq<string>): (rs': seq<BoardReader>)
    requires ConfigGen.ToysIndexed(|rs|, toys) && |cfgs| == |toys|
    ensures |rs'| == |rs|
    decreases |toys|
  {
    if toys == [] then rs
    else
      var n := |toys| - 1;
      assert ConfigGen.ToysIndexed(|rs|, toys[..n]) by {
        assert forall i :: 0 <= i < n ==> toys[..n][i] == toys[i];
      }
      PlaceConfig(PlaceConfigs(rs, toys[..n], cfgs[..n]), toys[n], cfgs[n])
  }

  /** A reader whose only change is its configuration list, whose length stays. */
  predicate CfgOnly(before: BoardReader, after: BoardReader)
  {
    after == before.(cfgList := after.cfgList) && |after.cfgList| == |before.cfgList|
  }

  /** Storing configurations changes no reader's lists of kinds and indices, flags or count. */
  lemma {:induction false} PlaceConfigsCfgOnly(rs: seq<BoardReader>, toys: seq<Proc>, cfgs: seq<string>)
    requires ConfigGen.ToysIndexed(|rs|, toys) && |cfgs| == |toys|
    ensures forall j :: 0 <= j < |rs| ==> CfgOnly(rs[j], PlaceConfigs(rs, toys, cfgs)[j])
    decreases |toys|
  {
    if toys != [] {
      var n := |toys| - 1;
      assert ConfigGen.ToysIndexed(|rs|, toys[..n]) by {
        assert forall i :: 0 <= i < n ==> toys[..n][i] == toys[i];
      }
      PlaceConfigsCfgOnly(rs, toys[..n], cfgs[..n]);
    }
  }

  /**
   * A toy whose slot no later toy of the same reader shares ends with its own
   * configuration in that slot.
   */
  lemma {:induction false} PlaceConfigsStores(rs: seq<BoardReader>, toys: seq<Proc>, cfgs: seq<string>,
                                              t: nat, l: nat)
    requires ConfigGen.ToysIndexed(|rs|, toys) && |cfgs| == |toys| && t < |toys|
    requires SlotOf(rs[toys[t].boardReaderIndex.value], toys[t]) == Some(l)
    requires l < |rs[toys[t].boardReaderIndex.value].cfgList|
    requires forall u :: t < u < |toys| && toys[u].boardReaderIndex == toys[t].boardReaderIndex ==>
               SlotOf(rs[toys[u].boardReaderIndex.value], toys[u]) != Some(l)
    ensures l < |PlaceConfigs(rs, toys, cfgs)[toys[t].boardReaderIndex.value].cfgList|
    ensures PlaceConfigs(rs, toys, cfgs)[toys[t].boardReaderIndex.value].cfgList[l] == cfgs[t]
    decreases |toys|
  {
    PlaceConfigsCfgOnly(rs, toys, cfgs);
    var n := |toys| - 1;
    var r := toys[t].boardReaderIndex.value;
    assert ConfigGen.ToysIndexed(|rs|, toys[..n]) by {
      assert forall i :: 0 <= i < n ==> toys[..n][i] == toys[i];
    }
    var prev := PlaceConfigs(rs, toys[..n], cfgs[..n]);
    PlaceConfigsCfgOnly(rs, toys[..n], cfgs[..n]);
    var q := toys[n].boardReaderIndex.value;
    assert prev[q].kindList == rs[q].kindList && prev[q].boardIndexList == rs[q].boardIndexList;
    SlotFromSame(prev[q], rs[q], toys[n], 0);
    if t < n {
      PlaceConfigsStores(rs, toys[..n], cfgs[..n], t, l);
    }
  }

  /**
   * What `init` sends a shared reader: `generateComposite` of the reader's
   * configurations, with the numbers of event builders and of readers.
   */
  function Composer(totalEBs: int, totalFRs: int): seq<string> -> string
  {
    cfgs => ConfigGen.Composite(totalEBs, totalFRs, cfgs)
  }

  /**
   * One toy of the `init` fan-out: the first board of a shared reader sends
   * the reader the composite of all its boards' configurations and marks it;
   * later boards of that reader send nothing; a board with a reader of its
   * own sends that reader's first configuration (nil if it has none).
   */
  function InitStep(rs: seq<BoardReader>, p: Proc, compose: seq<string> -> string): (seq<Call>, seq<BoardReader>)
    requires p.boardReaderIndex.Some? && p.boardReaderIndex.value < |rs|
  {
    var r := p.boardReaderIndex.value;
    if Shared(rs, p) then
      if rs[r].commandHasBeenSent then ([], rs)
      else ([InitCall(ForReader(rs, r), Some(compose(rs[r].cfgList)))],
            rs[r := rs[r].(commandHasBeenSent := true)])
    else ([InitCall(Direct(p), if rs[r].cfgList == [] then None else Some(rs[r].cfgList[0]))], rs)
  }

  /** The `init` calls to the toys' readers, in order, and the readers afterwards. */
  function InitDispatch(rs: seq<BoardReader>, toys: seq<Proc>, compose: seq<string> -> string)
    : (d: (seq<Call>, seq<BoardReader>))
    requires ConfigGen.ToysIndexed(|rs|, toys)
    ensures |d.1| == |rs| && |d.0| <= |toys|
    decreases |toys|
  {
    if toys == [] then ([], rs)
    else
      var (c, rs1) := InitStep(rs, toys[0], compose);
      var (cs, rs2) := InitDispatch(rs1, toys[1..], compose);
      (c + cs, rs2)
  }

  /** The `init` fan-out addresses exactly the targets that `sendCommandSet` would, and leaves the same flags. */
  lemma {:induction false} InitFollowsDispatch(rs: seq<BoardReader>, toys: seq<Proc>, compose: seq<string> -> string)
    requires ConfigGen.ToysIndexed(|rs|, toys)
    ensures Indexed(|rs|, toys)
    ensures var (cs, rs') := InitDispatch(rs, toys, compose);
            var (ts, rs'') := Dispatch(rs, toys);
            rs' == rs'' && |cs| == |ts| && forall k :: 0 <= k < |cs| ==> cs[k].to == ts[k]
    decreases |toys|
  {
    if toys != [] {
      var (c, rs1) := InitStep(rs, toys[0], compose);
      assert ConfigGen.ToysIndexed(|rs1|, toys[1..]) by {
        assert forall i :: 0 <= i < |toys| - 1 ==> toys[1..][i] == toys[i + 1];
      }
      InitFollowsDispatch(rs1, toys[1..], compose);
      var (t, rs1') := Step(rs, toys[0]);
      assert rs1' == rs1;
    }
  }

  /** The configuration `init` sends to a board with a reader of its own: the reader's first (nil if none). */
  function FirstConfig(rs: seq<BoardReader>, p: Proc): Option<string>
    requires p.boardReaderIndex.Some? && p.boardReaderIndex.value < |rs|
  {
    var r := p.boardReaderIndex.value;
    if rs[r].cfgList == [] then None else Some(rs[r].cfgList[0])
  }

  /**
   * What one `init` call to a toy's reader carries: `daq.init` with the
   * default timeout, and for a shared reader the composite of its boards'
   * configurations.
   */
  predicate InitArgs(rs: seq<BoardReader>, compose: seq<string> -> string, c: Call)
  {
    c.methodName == "daq.init" && c.timeout == DEFAULT_TIMEOUT &&
    (c.to.reader.Some? ==>
       c.to.reader.value < |rs| &&
       c.arg == Some(compose(rs[c.to.reader.value].cfgList)))
  }

  /** Every call of the `init` fan-out carries what `InitArgs` says, read from the readers before it. */
  lemma {:induction false} InitDispatchArgs(rs: seq<BoardReader>, toys: seq<Proc>, compose: seq<string> -> string)
    requires ConfigGen.ToysIndexed(|rs|, toys)
    ensures forall k :: 0 <= k < |InitDispatch(rs, toys, compose).0| ==>
              InitArgs(rs, compose, InitDispatch(rs, toys, compose).0[k])
    decreases |toys|
  {
    if toys != [] {
      var (c, rs1) := InitStep(rs, toys[0], compose);
      assert ConfigGen.ToysIndexed(|rs1|, toys[1..]) by {
        assert forall i :: 0 <= i < |toys| - 1 ==> toys[1..][i] == toys[i + 1];
      }
      InitDispatchArgs(rs1, toys[1..], compose);
      var cs := InitDispatch(rs1, toys[1..], compose).0;
      var all := InitDispatch(rs, toys, compose).0;
      assert all == c + cs;
      forall k | 0 <= k < |all| ensures InitArgs(rs, compose, all[k]) {
        if k >= |c| {
          assert all[k] == cs[k - |c|];
          InitArgsKept(rs, rs1, compose, cs[k - |c|]);
        }
      }
    }
  }

  lemma InitArgsKept(rs: seq<BoardReader>, rs1: seq<BoardReader>, compose: seq<string> -> string, c: Call)
    requires |rs1| == |rs| && forall j :: 0 <= j < |rs| ==> rs1[j].cfgList == rs[j].cfgList
    requires InitArgs(rs1, compose, c)
    ensures InitArgs(rs, compose, c)
  {
  }

  lemma ToysIndexedDrop(n: nat, toys: seq<Proc>)
    requires ConfigGen.ToysIndexed(n, toys) && toys != []
    ensures ConfigGen.ToysIndexed(n, toys[1..])
  {
    assert forall i :: 0 <= i < |toys| - 1 ==> toys[1..][i] == toys[i + 1];
  }

  /** A board with a reader of its own is sent that reader's first configuration. */
  lemma {:induction false} InitDispatchDirect(rs: seq<BoardReader>, toys: seq<Proc>, compose: seq<string> -> string, i: nat)
    requires ConfigGen.ToysIndexed(|rs|, toys) && i < |toys| && !Shared(rs, toys[i])
    ensures InitCall(Direct(toys[i]), FirstConfig(rs, toys[i])) in InitDispatch(rs, toys, compose).0
    decreases |toys|
  {
    var (c, rs1) := InitStep(rs, toys[0], compose);
    if i > 0 {
      assert ConfigGen.ToysIndexed(|rs1|, toys[1..]) by {
        assert forall j :: 0 <= j < |toys| - 1 ==> toys[1..][j] == toys[j + 1];
      }
      assert toys[1..][i - 1] == toys[i];
      var b := toys[i].boardReaderIndex.value;
      assert rs1[b].boardCount == rs[b].boardCount && rs1[b].cfgList == rs[b].cfgList;
      InitDispatchDirect(rs1, toys[1..], compose, i - 1);
    }
  }

  /** The `init` calls to the event builders or aggregators `procs`, each with its own configuration. */
  function InitCalls(procs: seq<Proc>, cfgs: seq<string>): (cs: seq<Call>)
    requires |cfgs| == |procs|
    ensures |cs| == |procs|
    ensures forall k :: 0 <= k < |procs| ==> cs[k] == InitCall(Direct(procs[k]), Some(cfgs[k]))
  {
    seq(|procs|, k requires 0 <= k < |procs| => InitCall(Direct(procs[k]), Some(cfgs[k])))
  }

  /** No reply is an exception. */
  predicate AllOk(replies: seq<Reply>)
  {
    forall k :: 0 <= k < |replies| ==> replies[k].Ok?
  }

  /**
   * A transition as written: the first wave with a failed call raises a
   * TypeError from the rescue clause when its threads are joined, so that
   * wave is the last one sent. The result is the number of waves sent.
   */
  function WavesSentAsWritten(used: seq<seq<Reply>>): (n: nat)
    ensures n <= |used|
    ensures forall w :: 0 <= w < n - 1 ==> AllOk(used[w])
    ensures n < |used| ==> 0 < n && !AllOk(used[n - 1])
    decreases |used|
  {
    if used == [] then 0
    else if !AllOk(used[0]) then 1
    else 1 + WavesSentAsWritten(used[1..])
  }

  /**
   * A failed call to a toy at `shutdown`, `pause` or `stop`, whose first wave
   * is the toys, keeps the command from the event builders and aggregators as
   * written, while `RunWaves` sends every wave.
   */
  lemma FailedToyStopsWavesAsWritten(message: string)
    ensures WavesSentAsWritten([[Failed(message)], [Ok("Success")], [Ok("Success")]]) == 1
  {
    assert [Failed(message)][0].Failed?;
  }

  class Controller {
    const options: Options

    constructor (options: Options)
      ensures this.options == options
    {
      this.options := options;
    }

    /**
     * `init`: list the XML-RPC clients, store each toy's configuration in its
     * reader, send `daq.init` to the toys' readers and, once every one of
     * those calls has returned without an exception, to every event builder
     * and aggregator. The configurations the generators build are given.
     */
    method Init(boardConfigs: seq<string>, ebConfigs: seq<string>, agConfigs: seq<string>,
                readerReplies: seq<Reply>)
      returns (xmlrpcClients: string, readerCalls: seq<Call>, processCalls: seq<Call>)
      requires ConfigGen.ToysIndexed(|options.boardReaders|, options.toys)
      requires |boardConfigs| == |options.toys| && |ebConfigs| == |options.eventBuilders|
      requires |agConfigs| == |options.aggregators| && |readerReplies| >= |options.toys|
      modifies options
      ensures xmlrpcClients == ConfigGen.XmlRpcClients(old(options.boardReaders), old(options.toys),
                                                       old(options.eventBuilders), old(options.aggregators))
      ensures var listed := ConfigGen.ReaderClients(old(options.boardReaders), old(options.toys)).1;
              var configured := PlaceConfigs(listed, old(options.toys), boardConfigs);
              var (calls, rs) := InitDispatch(configured, old(options.toys),
                                              Composer(|old(options.eventBuilders)|, |old(options.boardReaders)|));
              readerCalls == calls && options.boardReaders == rs &&
              processCalls == (if AllOk(readerReplies[..|calls|])
                               then InitCalls(old(options.eventBuilders), ebConfigs) +
                                    InitCalls(old(options.aggregators), agConfigs)
                               else [])
      ensures options.toys == old(options.toys) && options.eventBuilders == old(options.eventBuilders)
      ensures options.aggregators == old(options.aggregators)
    {
      var totalFRs := |options.boardReaders|;
      var totalEBs := |options.eventBuilders|;
      xmlrpcClients := ConfigGen.GenerateXmlRpcClientList(options);
      ghost var listed := options.boardReaders;
      PlaceBoardConfigs(boardConfigs);
      ghost var configured := options.boardReaders;
      assert configured == PlaceConfigs(listed, old(options.toys), boardConfigs);
      var readers;
      readerCalls, readers := InitReaders(options.boardReaders, options.toys, Composer(totalEBs, totalFRs));
      options.boardReaders := readers;
      processCalls := InitAfterReaders(readerCalls, readerReplies, ebConfigs, agConfigs);
    }

    /**
     * The end of `init`: joining the readers' threads re-raises the first
     * exception among their calls, so the event builders and aggregators are
     * sent `daq.init` only when every reader call returned.
     */
    method InitAfterReaders(readerCalls: seq<Call>, readerReplies: seq<Reply>, ebConfigs: seq<string>,
                            agConfigs: seq<string>)
      returns (processCalls: seq<Call>)
      requires |readerCalls| <= |readerReplies|
      requires |ebConfigs| == |options.eventBuilders| && |agConfigs| == |options.aggregators|
      ensures processCalls == (if AllOk(readerReplies[..|readerCalls|])
                               then InitCalls(options.eventBuilders, ebConfigs) +
                                    InitCalls(options.aggregators, agConfigs)
                               else [])
    {
      var failed := false;
      for k := 0 to |readerCalls|
        invariant failed == !AllOk(readerReplies[..k])
      {
        assert readerReplies[..k + 1] == readerReplies[..k] + [readerReplies[k]];
        failed := failed || readerReplies[k].Failed?;
      }
      processCalls := [];
      if failed {
        return;
      }
      var ebCalls := InitProcesses(options.eventBuilders, ebConfigs);
      var agCalls := InitProcesses(options.aggregators, agConfigs);
      processCalls := ebCalls + agCalls;
    }

    /** The loop of `init` that stores each toy's configuration in its slot of its reader. */
    method PlaceBoardConfigs(boardConfigs: seq<string>)
      requires ConfigGen.ToysIndexed(|options.boardReaders|, options.toys)
      requires |boardConfigs| == |options.toys|
      modifies options
      ensures options.boardReaders == PlaceConfigs(old(options.boardReaders), old(options.toys), boardConfigs)
      ensures options.toys == old(options.toys) && options.eventBuilders == old(options.eventBuilders)
      ensures options.aggregators == old(options.aggregators)
    {
      var toys := options.toys;
      var readers := options.boardReaders;
      for i := 0 to |toys|
        modifies {}
        invariant ConfigGen.ToysIndexed(|old(options.boardReaders)|, toys[..i])
        invariant readers == PlaceConfigs(old(options.boardReaders), toys[..i], boardConfigs[..i])
      {
        assert toys[..i + 1][..i] == toys[..i] && boardConfigs[..i + 1][..i] == boardConfigs[..i];
        assert toys[..i + 1][i] == toys[i] && boardConfigs[..i + 1][i] == boardConfigs[i];
        var proc := toys[i];
        var r := proc.boardReaderIndex.value;
        var br := readers[r];
        var slot := FindSlot(br, proc);
        if slot.Some? && slot.value < |br.cfgList| {
          readers := readers[r := br.(cfgList := br.cfgList[slot.value := boardConfigs[i]])];
        }
      }
      assert toys[..|toys|] == toys && boardConfigs[..|toys|] == boardConfigs;
      options.boardReaders := readers;
    }

    /** The loop of `init` that sends `daq.init` to the toys' readers, a shared reader once. */
    static method InitReaders(readers0: seq<BoardReader>, toys: seq<Proc>, compose: seq<string> -> string)
      returns (calls: seq<Call>, readers: seq<BoardReader>)
      requires ConfigGen.ToysIndexed(|readers0|, toys)
      ensures calls == InitDispatch(readers0, toys, compose).0
      ensures readers == InitDispatch(readers0, toys, compose).1
    {
      readers := readers0;
      calls := [];
      assert toys[0..] == toys;
      assert calls + InitDispatch(readers, toys, compose).0 ==
             InitDispatch(readers, toys, compose).0;
      for i := 0 to |toys|
        invariant |readers| == |readers0|
        invariant ConfigGen.ToysIndexed(|readers|, toys[i..])
        invariant InitDispatch(readers0, toys, compose).0 ==
                  calls + InitDispatch(readers, toys[i..], compose).0
        invariant InitDispatch(readers0, toys, compose).1 ==
                  InitDispatch(readers, toys[i..], compose).1
      {
        assert toys[i..][1..] == toys[i + 1..] && toys[i..][0] == toys[i];
        ToysIndexedDrop(|readers|, toys[i..]);
        ghost var step := InitStep(readers, toys[i], compose);
        ghost var rest := InitDispatch(step.1, toys[i + 1..], compose);
        assert InitDispatch(readers, toys[i..], compose) == (step.0 + rest.0, rest.1);
        ghost var before := calls;
        var sent;
        sent, readers := InitOne(readers, toys[i], compose);
        calls := calls + sent;
        assert before + (step.0 + rest.0) == calls + rest.0;
      }
      assert toys[|toys|..] == [];
      assert calls + [] == calls;
    }

    /** The body of the loop of `init` over the toys: the call made for board `proc`, if any. */
    static method InitOne(readers: seq<BoardReader>, proc: Proc, compose: seq<string> -> string)
      returns (sent: seq<Call>, readers': seq<BoardReader>)
      requires proc.boardReaderIndex.Some? && proc.boardReaderIndex.value < |readers|
      ensures (sent, readers') == InitStep(readers, proc, compose)
    {
      readers' := readers;
      sent := [];
      var r := proc.boardReaderIndex.value;
      var br := readers[r];
      if br.boardCount > 1 {
        if !br.commandHasBeenSent {
          readers' := readers[r := br.(commandHasBeenSent := true)];
          sent := [InitCall(Target(br.host, br.port, br.kind, Some(r)),
                            Some(compose(br.cfgList)))];
        }
      } else {
        var cfg := if br.cfgList == [] then None else Some(br.cfgList[0]);
        sent := [InitCall(Target(proc.host, proc.port, proc.kind, None), cfg)];
      }
    }

    /** `init` for event builders or aggregators: one call per process, with its configuration. */
    method InitProcesses(procs: seq<Proc>, cfgs: seq<string>) returns (calls: seq<Call>)
      requires |cfgs| == |procs|
      ensures calls == InitCalls(procs, cfgs)
    {
      calls := [];
      for k := 0 to |procs|
        invariant calls == InitCalls(procs[..k], cfgs[..k])
      {
        calls := calls + [InitCall(Target(procs[k].host, procs[k].port, procs[k].kind, None), Some(cfgs[k]))];
      }
      assert procs[..|procs|] == procs && cfgs[..|procs|] == cfgs;
    }

    /**
     * `sendCommandSet`: one call per process, except that the boards of a
     * shared reader are replaced by one call to the reader; `replies[k]` is
     * the reply to the k-th call made.
     */
    method SendCommandSet(commandName: string, procs: seq<Proc>, commandArg: Option<string>,
                          replies: seq<Reply>)
      returns (calls: seq<Call>, results: seq<string>)
      requires Indexed(|options.boardReaders|, procs) && |replies| >= |procs|
      modifies options
      ensures var (ts, rs) := Dispatch(old(options.boardReaders), procs);
              options.boardReaders == rs && calls == CallsTo(ts, commandName, commandArg) &&
              results == Results(replies[..|ts|])
      ensures options.toys == old(options.toys) && options.eventBuilders == old(options.eventBuilders)
      ensures options.aggregators == old(options.aggregators)
      ensures options.eventsInRun == old(options.eventsInRun)
      ensures options.runDurationSeconds == old(options.runDurationSeconds)
    {
      var readers := options.boardReaders;
      var targets: seq<Target> := [];
      results := [];
      var i := 0;
      assert procs[0..] == procs;
      while i < |procs|
        modifies {}
        invariant 0 <= i <= |procs| && |targets| <= i
        invariant |readers| == |old(options.boardReaders)|
        invariant Dispatch(old(options.boardReaders), procs).0 == targets + Dispatch(readers, procs[i..]).0
        invariant Dispatch(old(options.boardReaders), procs).1 == Dispatch(readers, procs[i..]).1
        invariant results == Results(replies[..|targets|])
      {
        readers, targets, results := SendOne(old(options.boardReaders), procs, i, readers, targets, results, replies);
        i := i + 1;
      }
      options.boardReaders := readers;
      calls := CallsTo(targets, commandName, commandArg);
    }

    /** One pass of the loop of `sendCommandSet`, as `Dispatch` accounts for it. */
    static method SendOne(ghost rs0: seq<BoardReader>, procs: seq<Proc>, i: nat, readers: seq<BoardReader>,
                          targets: seq<Target>, results: seq<string>, replies: seq<Reply>)
      returns (readers1: seq<BoardReader>, targets1: seq<Target>, results1: seq<string>)
      requires Indexed(|rs0|, procs) && i < |procs| <= |replies| && |targets| <= i && |readers| == |rs0|
      requires Dispatch(rs0, procs).0 == targets + Dispatch(readers, procs[i..]).0
      requires Dispatch(rs0, procs).1 == Dispatch(readers, procs[i..]).1
      requires results == Results(replies[..|targets|])
      ensures |targets1| <= i + 1 && |readers1| == |rs0|
      ensures Dispatch(rs0, procs).0 == targets1 + Dispatch(readers1, procs[i + 1..]).0
      ensures Dispatch(rs0, procs).1 == Dispatch(readers1, procs[i + 1..]).1
      ensures results1 == Results(replies[..|targets1|])
    {
      DispatchFrom(readers, procs, i);
      ghost var rest := Dispatch(Step(readers, procs[i]).1, procs[i + 1..]);
      var skip, target;
      skip, target, readers1 := SendStep(readers, procs[i]);
      targets1, results1 := targets, results;
      if !skip {
        assert replies[..|targets| + 1] == replies[..|targets|] + [replies[|targets|]];
        results1 := results + [CommandResult(replies[|targets|])];
        targets1 := targets + [target];
        assert targets + ([target] + rest.0) == targets1 + rest.0;
      } else {
        assert [] + rest.0 == rest.0;
      }
    }

    /**
     * The body of the loop of `sendCommandSet` for process `proc`: the first
     * board of a shared reader addresses the reader and marks it, later boards
     * of that reader are skipped, any other process is addressed itself.
     */
    static method SendStep(readers: seq<BoardReader>, proc: Proc)
      returns (skip: bool, target: Target, readers': seq<BoardReader>)
      requires proc.boardReaderIndex.Some? ==> proc.boardReaderIndex.value < |readers|
      ensures (if skip then [] else [target], readers') == Step(readers, proc)
    {
      readers' := readers;
      target := Direct(proc);
      skip := false;
      if proc.boardReaderIndex.Some? {
        var br := readers[proc.boardReaderIndex.value];
        if br.boardCount > 1 {
          if br.commandHasBeenSent {
            skip := true;
          } else {
            readers' := readers[proc.boardReaderIndex.value := br.(commandHasBeenSent := true)];
            target := Target(br.host, br.port, br.kind, proc.boardReaderIndex);
          }
        }
      }
    }

    /** Consecutive `sendCommandSet`s, one per wave, each waiting for the one before. */
    method RunWaves(commandName: string, commandArg: Option<string>, waves: seq<seq<Proc>>,
                    replies: seq<seq<Reply>>)
      returns (calls: seq<seq<Call>>, results: seq<seq<string>>)
      requires forall w :: 0 <= w < |waves| ==> Indexed(|options.boardReaders|, waves[w])
      requires Answers(replies, waves)
      modifies options
      ensures Transcript(old(options.boardReaders), options.boardReaders, waves, commandName,
                         commandArg, replies, calls, results)
      ensures options.toys == old(options.toys) && options.eventBuilders == old(options.eventBuilders)
      ensures options.aggregators == old(options.aggregators)
      ensures options.eventsInRun == old(options.eventsInRun)
      ensures options.runDurationSeconds == old(options.runDurationSeconds)
    {
      ghost var rs0 := options.boardReaders;
      ghost var tss: seq<seq<Target>> := [];
      calls := [];
      results := [];
      var w := 0;
      assert waves[0..] == waves;
      while w < |waves|
        invariant 0 <= w <= |waves| && |calls| == w && |results| == w && |tss| == w
        invariant |options.boardReaders| == |rs0|
        invariant DispatchWaves(rs0, waves).0 == tss + DispatchWaves(options.boardReaders, waves[w..]).0
        invariant DispatchWaves(rs0, waves).1 == DispatchWaves(options.boardReaders, waves[w..]).1
        invariant forall v :: 0 <= v < w ==>
                    |tss[v]| <= |replies[v]| &&
                    calls[v] == CallsTo(tss[v], commandName, commandArg) &&
                    results[v] == Results(replies[v][..|tss[v]|])
        invariant options.toys == old(options.toys) && options.eventBuilders == old(options.eventBuilders)
        invariant options.aggregators == old(options.aggregators)
        invariant options.eventsInRun == old(options.eventsInRun)
        invariant options.runDurationSeconds == old(options.runDurationSeconds)
      {
        WavesFrom(options.boardReaders, waves, w);
        ghost var ts := Dispatch(options.boardReaders, waves[w]).0;
        ghost var rest := DispatchWaves(Dispatch(options.boardReaders, waves[w]).1, waves[w + 1..]);
        ghost var before := tss;
        var waveCalls, waveResults := SendCommandSet(commandName, waves[w], commandArg, replies[w]);
        tss := tss + [ts];
        calls := calls + [waveCalls];
        results := results + [waveResults];
        assert before + ([ts] + rest.0) == tss + rest.0;
        w := w + 1;
      }
    }

    /** The order of `start`, `resume`, `checkStatus` and `getLegalCommands`: aggregators first. */
    method Start(runNumber: string, replies: seq<seq<Reply>>)
      returns (calls: seq<seq<Call>>, results: seq<seq<string>>)
      requires WellFormed(options.boardReaders, options.toys, options.eventBuilders, options.aggregators)
      requires Answers(replies, [options.aggregators, options.eventBuilders, options.toys])
      modifies options
      ensures Transcript(old(options.boardReaders), options.boardReaders,
                         [old(options.aggregators), old(options.eventBuilders), old(options.toys)],
                         "start", Some(runNumber), replies, calls, results)
      ensures options.toys == old(options.toys) && options.eventBuilders == old(options.eventBuilders)
      ensures options.aggregators == old(options.aggregators)
    {
      calls, results := RunWaves("start", Some(runNumber),
                                 [options.aggregators, options.eventBuilders, options.toys], replies);
    }

    method Shutdown(replies: seq<seq<Reply>>)
      returns (calls: seq<seq<Call>>, results: seq<seq<string>>)
      requires WellFormed(options.boardReaders, options.toys, options.eventBuilders, options.aggregators)
      requires Answers(replies, [options.toys, options.eventBuilders, options.aggregators])
      modifies options
      ensures Transcript(old(options.boardReaders), options.boardReaders,
                         [old(options.toys), old(options.eventBuilders), old(options.aggregators)],
                         "shutdown", None, replies, calls, results)
      ensures options.toys == old(options.toys) && options.eventBuilders == old(options.eventBuilders)
      ensures options.aggregators == old(options.aggregators)
    {
      calls, results := RunWaves("shutdown", None,
                                 [options.toys, options.eventBuilders, options.aggregators], replies);
    }

    method Pause(replies: seq<seq<Reply>>)
      returns (calls: seq<seq<Call>>, results: seq<seq<string>>)
      requires WellFormed(options.boardReaders, options.toys, options.eventBuilders, options.aggregators)
      requires Answers(replies, [options.toys, options.eventBuilders, options.aggregators])
      modifies options
      ensures Transcript(old(options.boardReaders), options.boardReaders,
                         [old(options.toys), old(options.eventBuilders), old(options.aggregators)],
                         "pause", None, replies, calls, results)
      ensures options.toys == old(options.toys) && options.eventBuilders == old(options.eventBuilders)
      ensures options.aggregators == old(options.aggregators)
    {
      calls, results := RunWaves("pause", None,
                                 [options.toys, options.eventBuilders, options.aggregators], replies);
    }

    method Resume(replies: seq<seq<Reply>>)
      returns (calls: seq<seq<Call>>, results: seq<seq<string>>)
      requires WellFormed(options.boardReaders, options.toys, options.eventBuilders, options.aggregators)
      requires Answers(replies, [options.aggregators, options.eventBuilders, options.toys])
      modifies options
      ensures Transcript(old(options.boardReaders), options.boardReaders,
                         [old(options.aggregators), old(options.eventBuilders), old(options.toys)],
                         "resume", None, replies, calls, results)
      ensures options.toys == old(options.toys) && options.eventBuilders == old(options.eventBuilders)
      ensures options.aggregators == old(options.aggregators)
    {
      calls, results := RunWaves("resume", None,
                                 [options.aggregators, options.eventBuilders, options.toys], replies);
    }

    method CheckStatus(replies: seq<seq<Reply>>)
      returns (calls: seq<seq<Call>>, results: seq<seq<string>>)
      requires WellFormed(options.boardReaders, options.toys, options.eventBuilders, options.aggregators)
      requires Answers(replies, [options.aggregators, options.eventBuilders, options.toys])
      modifies options
      ensures Transcript(old(options.boardReaders), options.boardReaders,
                         [old(options.aggregators), old(options.eventBuilders), old(options.toys)],
                         "status", None, replies, calls, results)
      ensures options.toys == old(options.toys) && options.eventBuilders == old(options.eventBuilders)
      ensures options.aggregators == old(options.aggregators)
    {
      calls, results := RunWaves("status", None,
                                 [options.aggregators, options.eventBuilders, options.toys], replies);
    }

    method GetLegalCommands(replies: seq<seq<Reply>>)
      returns (calls: seq<seq<Call>>, results: seq<seq<string>>)
      requires WellFormed(options.boardReaders, options.toys, options.eventBuilders, options.aggregators)
      requires Answers(replies, [options.aggregators, options.eventBuilders, options.toys])
      modifies options
      ensures Transcript(old(options.boardReaders), options.boardReaders,
                         [old(options.aggregators), old(options.eventBuilders), old(options.toys)],
                         "legal_commands", None, replies, calls, results)
      ensures options.toys == old(options.toys) && options.eventBuilders == old(options.eventBuilders)
      ensures options.aggregators == old(options.aggregators)
    {
      calls, results := RunWaves("legal_commands", None,
                                 [options.aggregators, options.eventBuilders, options.toys], replies);
    }

    /**
     * `stop`: wait as `StopWaitFor` says, then send the stop command to the
     * toys, the event builders and each aggregator in turn. When the replies
     * of the poll run out first, nothing is sent.
     */
    method Stop(pollReplies: seq<Reply>, replies: seq<seq<Reply>>)
      returns (wait: StopWait, calls: seq<seq<Call>>, results: seq<seq<string>>)
      requires WellFormed(options.boardReaders, options.toys, options.eventBuilders, options.aggregators)
      requires Answers(replies, StopWaves(options.toys, options.eventBuilders, options.aggregators))
      modifies options
      ensures wait == StopWaitFor(options.eventsInRun, options.runDurationSeconds,
                                  |options.aggregators|, pollReplies)
      ensures wait.Over() ==>
                Transcript(old(options.boardReaders), options.boardReaders,
                           StopWaves(old(options.toys), old(options.eventBuilders), old(options.aggregators)),
                           "stop", None, replies, calls, results)
      ensures !wait.Over() ==> calls == [] && results == [] && options.boardReaders == old(options.boardReaders)
      ensures options.toys == old(options.toys) && options.eventBuilders == old(options.eventBuilders)
      ensures options.aggregators == old(options.aggregators)
      ensures options.eventsInRun == old(options.eventsInRun)
      ensures options.runDurationSeconds == old(options.runDurationSeconds)
    {
      var totalAGs := |options.aggregators|;
      wait := NoWait;
      if options.eventsInRun > 0 {
        if totalAGs > 0 {
          var outcome, sleeps := PollEventCount(options.eventsInRun, pollReplies);
          wait := EventCount(outcome, sleeps);
        }
      } else if options.runDurationSeconds > 0 {
        if totalAGs > 0 {
          var outcome, sleeps := PollRunDuration(options.runDurationSeconds, pollReplies);
          wait := RunDuration(outcome, sleeps);
        }
      }
      if !wait.Over() {
        calls, results := [], [];
        return;
      }
      calls, results := RunWaves("stop", None, StopWaves(options.toys, options.eventBuilders, options.aggregators),
                                 replies);
    }
  }
}
