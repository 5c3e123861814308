/**
 * `Mu2eRequestSender`: an art analyzer that, for every event, asks the
 * artdaq request sender to request the event's sequence ID again and keeps
 * the list of requested IDs bounded, dropping the oldest requests first.
 *
 * The artdaq `RequestSender` itself is not part of this model: its state is
 * taken to be the map of pending requests (sequence ID to timestamp) that
 * `AddRequest` writes and `RemoveRequest` erases, the request mode, the run
 * number and the messages `SendRequest` has sent.
 */
module RequestSenders {

  import opened Common

  /** `max_request_count`'s default. */
  const DEFAULT_MAX_REQUESTS: nat := 100

  datatype RequestMode = Normal | EndOfRun

  /** A data-request message: the mode, the run number and every pending request. */
  datatype Message = Message(mode: RequestMode, run: nat, requests: map<nat, nat>)

  datatype Sender = Sender(requests: map<nat, nat>, mode: RequestMode, run: nat, sent: seq<Message>)

  /** One `art::Handle<RawEventHeader>` of the event: whether it is valid, and the header it holds. */
  datatype HeaderHandle = HeaderHandle(valid: bool, sequenceId: nat, timestamp: nat)

  /** The position of the first valid header handle, if there is one. */
  function FirstValid(hs: seq<HeaderHandle>): (r: Option<nat>)
    ensures r.Some? ==> r.value < |hs| && hs[r.value].valid && forall j :: 0 <= j < r.value ==> !hs[j].valid
    ensures r.None? ==> forall j :: 0 <= j < |hs| ==> !hs[j].valid
  {
    if hs == [] then None
    else if hs[0].valid then Some(0)
    else
      match FirstValid(hs[1..])
      case None => None
      case Some(i) => Some(i + 1)
  }

  /**
   * The (sequence ID, timestamp) that `analyze` requests: those of the first
   * valid header. With no valid header the two locals are read uninitialised;
   * `stale` stands for whatever values they hold.
   */
  function Request(hs: seq<HeaderHandle>, stale: (nat, nat)): (nat, nat)
  {
    match FirstValid(hs)
    case Some(i) => (hs[i].sequenceId, hs[i].timestamp)
    case None => stale
  }

  /** The oldest entries the `while` loop pops so that at most `max` remain. */
  function Evicted(list: seq<nat>, max: nat): seq<nat>
  {
    if |list| > max then list[..|list| - max] else []
  }

  /** The entries that remain: the newest `max`. */
  function Kept(list: seq<nat>, max: nat): seq<nat>
  {
    if |list| > max then list[|list| - max..] else list
  }

  /** The pending requests without those for the given sequence IDs. */
  function Without(requests: map<nat, nat>, ids: seq<nat>): map<nat, nat>
  {
    map k | k in requests && k !in ids :: requests[k]
  }

  /**
   * One `analyze` on values: add the request, append its sequence ID to the
   * list, then remove the oldest IDs, and their requests, until the list
   * holds at most `max`.
   */
  function Analyze(sender: Sender, list: seq<nat>, max: nat, seqId: nat, ts: nat): (Sender, seq<nat>)
  {
    var all := list + [seqId];
    (sender.(requests := Without(sender.requests[seqId := ts], Evicted(all, max))), Kept(all, max))
  }

  /** Eviction is oldest first: the popped IDs and the kept ones make up the list, in order. */
  lemma EvictOldestFirst(list: seq<nat>, max: nat)
    ensures Evicted(list, max) + Kept(list, max) == list
    ensures |Kept(list, max)| == if |list| > max then max else |list|
  {
  }

  /**
   * After `analyze` the list holds at most `max` IDs, the newest last; it is
   * the old list with the new ID appended and its oldest entries dropped,
   * and a list that was within bound loses at most its one oldest entry.
   */
  lemma AnalyzeBounded(sender: Sender, list: seq<nat>, max: nat, seqId: nat, ts: nat)
    ensures var (_, list') := Analyze(sender, list, max, seqId, ts);
            |list'| <= max && Evicted(list + [seqId], max) + list' == list + [seqId] &&
            (max > 0 ==> list'[|list'| - 1] == seqId)
    ensures |list| <= max && max > 0 ==>
            Evicted(list + [seqId], max) == (if |list| == max then [list[0]] else [])
  {
    EvictOldestFirst(list + [seqId], max);
    if |list| <= max && |list| == max && max > 0 {
      assert (list + [seqId])[..1] == [list[0]];
    }
  }

  /** The request of the event is pending afterwards unless its own ID was popped at once. */
  lemma AnalyzeAddsRequest(sender: Sender, list: seq<nat>, max: nat, seqId: nat, ts: nat)
    requires seqId !in list
    ensures var (sender', _) := Analyze(sender, list, max, seqId, ts);
            (max > 0 ==> seqId in sender'.requests && sender'.requests[seqId] == ts) &&
            (max == 0 ==> seqId !in sender'.requests)
  {
    var all := list + [seqId];
    if max > 0 {
      assert seqId !in Evicted(all, max) by {
        if |all| > max {
          assert Evicted(all, max) == list[..|all| - max];
        }
      }
    } else {
      assert Evicted(all, max) == all;
    }
  }

  /** The pending requests are exactly the listed IDs, and the list names none twice. */
  ghost predicate InStep(requests: map<nat, nat>, list: seq<nat>)
  {
    (forall k :: k in requests <==> k in list) && forall i, j :: 0 <= i < j < |list| ==> list[i] != list[j]
  }

  /** Adding the request of a new ID and listing it keeps the two in step. */
  lemma AddKeepsInStep(requests: map<nat, nat>, list: seq<nat>, seqId: nat, ts: nat)
    requires InStep(requests, list) && seqId !in list
    ensures InStep(requests[seqId := ts], list + [seqId])
  {
    var all := list + [seqId];
    forall k ensures k in requests[seqId := ts] <==> k in all {
      assert k in list ==> k in all;
      assert k in all ==> k in list || k == seqId;
    }
    forall i, j | 0 <= i < j < |all| ensures all[i] != all[j] {
      assert all[i] == list[i];
    }
  }

  /** Popping the oldest `n` IDs, and their requests, keeps the two in step. */
  lemma DropKeepsInStep(requests: map<nat, nat>, all: seq<nat>, n: nat)
    requires n <= |all| && InStep(requests, all)
    ensures InStep(Without(requests, all[..n]), all[n..])
  {
    var ev, rest := all[..n], all[n..];
    forall k | k in rest ensures k in requests && k !in ev {
      var j :| 0 <= j < |rest| && rest[j] == k;
      assert all[n + j] == k;
      forall i | 0 <= i < n ensures ev[i] != k {
        assert ev[i] == all[i];
      }
    }
    forall k | k in requests && k !in ev ensures k in rest {
      var i :| 0 <= i < |all| && all[i] == k;
      assert forall i' :: 0 <= i' < n ==> ev[i'] == all[i'];
      assert rest[i - n] == k;
    }
    forall i, j | 0 <= i < j < |rest| ensures rest[i] != rest[j] {
      assert rest[i] == all[n + i] && rest[j] == all[n + j];
    }
  }

  /**
   * While every event brings a new sequence ID, the sender's pending requests
   * stay exactly the IDs on the list.
   */
  lemma AnalyzeKeepsInStep(sender: Sender, list: seq<nat>, max: nat, seqId: nat, ts: nat)
    requires InStep(sender.requests, list) && seqId !in list
    ensures var (sender', list') := Analyze(sender, list, max, seqId, ts); InStep(sender'.requests, list')
  {
    var all := list + [seqId];
    AddKeepsInStep(sender.requests, list, seqId, ts);
    var n := if |all| > max then |all| - max else 0;
    assert Evicted(all, max) == all[..n] && Kept(all, max) == all[n..];
    DropKeepsInStep(sender.requests[seqId := ts], all, n);
  }

  /**
   * An ID that comes back while its earlier copy is still listed breaks that:
   * popping the older copy erases the request, though the newer copy stays listed.
   */
  lemma RepeatedIdLosesRequest()
    ensures var (sender', list') := Analyze(Sender(map[5 := 1], Normal, 0, []), [5], 1, 5, 2);
            list' == [5] && 5 !in sender'.requests
  {
    assert Evicted([5, 5], 1) == [5];
    assert Kept([5, 5], 1) == [5];
  }

  class Mu2eRequestSender {
    /** `sent_requests_`, oldest first. */
    var sentRequests: seq<nat>
    /** `max_list_size_`. */
    const maxListSize: nat
    /** `request_sender_`. */
    var sender: Sender

    /** `max_request_count` defaults to 100; the sender starts with no requests, in normal mode. */
    constructor (maxRequestCount: nat := DEFAULT_MAX_REQUESTS)
      ensures sentRequests == [] && maxListSize == maxRequestCount
      ensures sender == Sender(map[], Normal, 0, [])
    {
      sentRequests := [];
      maxListSize := maxRequestCount;
      sender := Sender(map[], Normal, 0, []);
    }

    /** The loop over the event's header handles: the first valid one gives the request. */
    static method FindRequest(hs: seq<HeaderHandle>, stale: (nat, nat)) returns (seqId: nat, ts: nat)
      ensures (seqId, ts) == Request(hs, stale)
    {
      seqId, ts := stale.0, stale.1;
      var i := 0;
      while i < |hs|
        invariant 0 <= i <= |hs|
        invariant forall j :: 0 <= j < i ==> !hs[j].valid
      {
        if hs[i].valid {
          seqId, ts := hs[i].sequenceId, hs[i].timestamp;
          assert FirstValid(hs) == Some(i);
          return;
        }
        i := i + 1;
      }
    }

    /** `analyze`: request the event's sequence ID, list it, and pop the oldest beyond the bound. */
    method AnalyzeEvent(hs: seq<HeaderHandle>, stale: (nat, nat))
      modifies this
      ensures var (seqId, ts) := Request(hs, stale);
              (sender, sentRequests) == Analyze(old(sender), old(sentRequests), maxListSize, seqId, ts)
      ensures |sentRequests| <= maxListSize
    {
      var seqId, ts := FindRequest(hs, stale);
      var added := sender.requests[seqId := ts];
      var requests := added;
      var list := sentRequests + [seqId];
      ghost var all := list;
      while |list| > maxListSize
        modifies {}
        invariant |list| <= |all| && list == all[|all| - |list|..]
        invariant |list| >= maxListSize || list == all
        invariant requests == Without(added, all[..|all| - |list|])
      {
        ghost var n := |all| - |list|;
        assert all[..n + 1] == all[..n] + [list[0]];
        requests := map k | k in requests && k != list[0] :: requests[k];
        list := list[1..];
      }
      assert Evicted(all, maxListSize) == all[..|all| - |list|];
      sentRequests := list;
      sender := sender.(requests := requests);
    }

    /** `beginRun`: normal request mode and the run's number. */
    method BeginRun(run: nat)
      modifies this
      ensures sender == old(sender).(mode := Normal, run := run)
      ensures sentRequests == old(sentRequests)
    {
      sender := sender.(mode := Normal, run := run);
    }

    /** `endRun`: end-of-run mode, then one message carrying every pending request. */
    method EndRun()
      modifies this
      ensures sender == old(sender).(mode := EndOfRun,
                                     sent := old(sender.sent) + [Message(EndOfRun, old(sender.run), old(sender.requests))])
      ensures sentRequests == old(sentRequests)
    {
      sender := sender.(mode := EndOfRun);
      sender := sender.(sent := sender.sent + [Message(sender.mode, sender.run, sender.requests)]);
    }
  }
}
