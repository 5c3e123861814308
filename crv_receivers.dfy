/**
 * The CRV receivers: request-driven DTC generators. Each call takes the
 * pending data requests (sequence ID to event window tag, in ascending
 * sequence-ID order), skips the IDs already served, remembers the others in
 * a capped set and serves each of them with one DTC read, stopping at the
 * first read that fails.
 *
 * Two copies exist. The artdaq-mu2e one (`CrvReceiver`) serves a request
 * with the shared `Mu2eEventReceiverBase` read step under the request's
 * sequence ID and can run without requests, asking for the highest tag seen
 * plus one. The mu2e-artdaq one (`LegacyCrvReceiver`) asks the software CFO
 * for the tag itself and copies the data blocks' packets back to back into
 * one fragment stamped with the request's ID and tag.
 */
module CrvReceivers {

  import opened Common
  import opened DtcReads
  import opened SeenIds
  import EventReceiverBase

  /** A data request: the sequence ID and the event window tag it asks for. */
  type Request = (nat, nat)

  /** A `std::map` iterates its keys in ascending order. */
  predicate KeysAscending(reqs: seq<Request>)
  {
    forall i, j :: 0 <= i < j < |reqs| ==> reqs[i].0 < reqs[j].0
  }

  lemma ConcatAssoc<T>(a: seq<T>, b: seq<T>, c: seq<T>)
    ensures a + (b + c) == (a + b) + c
  {
  }

  /** The IDs of some requests. */
  function Ids(reqs: seq<Request>): (ids: seq<nat>)
    ensures |ids| == |reqs| && forall i :: 0 <= i < |reqs| ==> ids[i] == reqs[i].0
  {
    seq(|reqs|, i requires 0 <= i < |reqs| => reqs[i].0)
  }

  // The artdaq-mu2e receiver.

  /** How a pass over the requests ends, and the requests it passed on to the DTC. */
  datatype Served = Served(ok: bool, frags: seq<Fragment>, base: EventReceiverBase.BaseState, seen: seq<nat>,
                           forwarded: seq<Request>)

  /** The `for (auto& req : reqs)` loop. */
  function Serve(c: EventReceiverBase.Config, base: EventReceiverBase.BaseState, seen: seq<nat>, reqs: seq<Request>): (r: Served)
    requires Sorted(seen) && |seen| <= MAX_SEEN
    ensures Sorted(r.seen) && |r.seen| <= MAX_SEEN
    decreases |reqs|
  {
    if reqs == [] then Served(true, [], base, seen, [])
    else if reqs[0].0 in seen then Serve(c, base, seen, reqs[1..])
    else
      RememberFacts(seen, reqs[0].0, MAX_SEEN);
      var seen' := Remember(seen, reqs[0].0, MAX_SEEN);
      var (ok, out, base') := EventReceiverBase.NextFragment(c, base, reqs[0].0);
      if !ok then Served(false, out, base', seen', [reqs[0]])
      else
        var r := Serve(c, base', seen', reqs[1..]);
        Served(r.ok, out + r.frags, r.base, r.seen, [reqs[0]] + r.forwarded)
  }

  /** `Serve` from request `i` on, when that request is served now. */
  lemma ServeNewAt(c: EventReceiverBase.Config, base: EventReceiverBase.BaseState, seen: seq<nat>, reqs: seq<Request>, i: nat)
    requires Sorted(seen) && |seen| <= MAX_SEEN && i < |reqs| && reqs[i].0 !in seen
    ensures Sorted(Remember(seen, reqs[i].0, MAX_SEEN)) && |Remember(seen, reqs[i].0, MAX_SEEN)| <= MAX_SEEN
    ensures var seen' := Remember(seen, reqs[i].0, MAX_SEEN);
      var (ok, out, base') := EventReceiverBase.NextFragment(c, base, reqs[i].0);
      Serve(c, base, seen, reqs[i..]) ==
        if !ok then Served(false, out, base', seen', [reqs[i]])
        else
          var r := Serve(c, base', seen', reqs[i + 1..]);
          Served(r.ok, out + r.frags, r.base, r.seen, [reqs[i]] + r.forwarded)
  {
    RememberFacts(seen, reqs[i].0, MAX_SEEN);
    assert reqs[i..][1..] == reqs[i + 1..];
  }

  /** One read step gives at most one fragment, numbered with a non-zero `seq_in`, and none when it fails. */
  lemma NextFragmentShape(c: EventReceiverBase.Config, base: EventReceiverBase.BaseState, seqIn: nat)
    requires seqIn != 0
    ensures var (ok, out, _) := EventReceiverBase.NextFragment(c, base, seqIn);
      |out| <= 1 && (!ok ==> out == []) && forall f :: f in out ==> f.sequenceId == seqIn
  {
    var data := Retry(base.dtc).0;
    if data != [] {
      EventReceiverBase.PackEventsCarriesAll(seqIn, c.fragmentId, Unwrap(base.unwrapper, data[0].tag).0, data);
    }
  }

  /**
   * What a pass `r` over `reqs` promises: the requests passed on are, in
   * order, some of the requests given, none of them already served before,
   * and no ID twice; every fragment is numbered with the ID of a request
   * passed on; a pass that fails fails on the last request it passed on.
   */
  predicate ForwardsGiven(seen: seq<nat>, reqs: seq<Request>, r: Served)
  {
    KeysAscending(r.forwarded) &&
    (forall q :: q in r.forwarded ==> q in reqs && q.0 !in seen) &&
    |r.frags| <= |r.forwarded| &&
    (forall f :: f in r.frags ==> f.sequenceId in Ids(r.forwarded)) &&
    (!r.ok ==> r.forwarded != [] && r.forwarded[|r.forwarded| - 1] in reqs)
  }

  /** The requests the rest of a pass forwards come after the first request and were not served before it. */
  lemma ForwardedAfterFirst(seen: seq<nat>, reqs: seq<Request>, forwarded: seq<Request>)
    requires Sorted(seen) && |seen| <= MAX_SEEN && KeysAscending(reqs) && reqs != [] && reqs[0].0 !in seen
    requires forall q :: q in forwarded ==> q in reqs[1..] && q.0 !in Remember(seen, reqs[0].0, MAX_SEEN)
    ensures forall q :: q in forwarded ==> q in reqs && reqs[0].0 < q.0 && q.0 !in seen
  {
    TailAscending(reqs);
    forall q | q in forwarded ensures q in reqs && reqs[0].0 < q.0 && q.0 !in seen {
      NotEvicted(seen, reqs, q);
    }
  }

  /** Putting a smaller key in front keeps the keys ascending. */
  lemma ConsAscending(q0: Request, forwarded: seq<Request>)
    requires KeysAscending(forwarded) && forall q :: q in forwarded ==> q0.0 < q.0
    ensures KeysAscending([q0] + forwarded)
  {
    var fwd := [q0] + forwarded;
    forall i, j | 0 <= i < j < |fwd| ensures fwd[i].0 < fwd[j].0 {
      assert fwd[j] == forwarded[j - 1];
      assert forwarded[j - 1] in forwarded;
      if i > 0 {
        assert fwd[i] == forwarded[i - 1];
      }
    }
  }

  /** Fragments numbered by the first request or by a forwarded one are numbered by a request of the whole pass. */
  lemma ConsIds(q0: Request, forwarded: seq<Request>, out: seq<Fragment>, frags: seq<Fragment>)
    requires forall f :: f in out ==> f.sequenceId == q0.0
    requires forall f :: f in frags ==> f.sequenceId in Ids(forwarded)
    ensures forall f :: f in out + frags ==> f.sequenceId in Ids([q0] + forwarded)
  {
    var fwd := [q0] + forwarded;
    forall f | f in out + frags ensures f.sequenceId in Ids(fwd) {
      if f in out {
        assert Ids(fwd)[0] == q0.0;
      } else {
        var k :| 0 <= k < |forwarded| && Ids(forwarded)[k] == f.sequenceId;
        assert Ids(fwd)[k + 1] == f.sequenceId;
      }
    }
  }

  /** A pass that serves the first request and then makes pass `r` over the rest keeps the promise. */
  lemma ForwardsCons(seen: seq<nat>, reqs: seq<Request>, out: seq<Fragment>, r: Served)
    requires Sorted(seen) && |seen| <= MAX_SEEN && KeysAscending(reqs) && reqs != [] && reqs[0].0 !in seen
    requires |out| <= 1 && forall f :: f in out ==> f.sequenceId == reqs[0].0
    requires ForwardsGiven(Remember(seen, reqs[0].0, MAX_SEEN), reqs[1..], r)
    ensures ForwardsGiven(seen, reqs, Served(r.ok, out + r.frags, r.base, r.seen, [reqs[0]] + r.forwarded))
  {
    var fwd := [reqs[0]] + r.forwarded;
    ForwardedAfterFirst(seen, reqs, r.forwarded);
    ConsAscending(reqs[0], r.forwarded);
    ConsIds(reqs[0], r.forwarded, out, r.frags);
    if !r.ok {
      assert fwd[|fwd| - 1] == r.forwarded[|r.forwarded| - 1];
    }
  }

  /** Every pass over ascending requests keeps the promise of `ForwardsGiven`. */
  lemma {:induction false} ServeForwards(c: EventReceiverBase.Config, base: EventReceiverBase.BaseState, seen: seq<nat>,
                                         reqs: seq<Request>)
    requires Sorted(seen) && |seen| <= MAX_SEEN && KeysAscending(reqs)
    requires forall q :: q in reqs ==> q.0 != 0
    ensures ForwardsGiven(seen, reqs, Serve(c, base, seen, reqs))
    decreases |reqs|
  {
    if reqs != [] {
      var rest := reqs[1..];
      TailAscending(reqs);
      assert forall q :: q in rest ==> q in reqs;
      if reqs[0].0 in seen {
        ServeForwards(c, base, seen, rest);
      } else {
        RememberFacts(seen, reqs[0].0, MAX_SEEN);
        var seen' := Remember(seen, reqs[0].0, MAX_SEEN);
        NextFragmentShape(c, base, reqs[0].0);
        var (ok, out, base') := EventReceiverBase.NextFragment(c, base, reqs[0].0);
        if ok {
          ServeForwards(c, base', seen', rest);
          ForwardsCons(seen, reqs, out, Serve(c, base', seen', rest));
        } else {
          assert Ids([reqs[0]]) == [reqs[0].0];
        }
      }
    }
  }

  lemma TailAscending(reqs: seq<Request>)
    requires KeysAscending(reqs) && reqs != []
    ensures KeysAscending(reqs[1..]) && forall q :: q in reqs[1..] ==> reqs[0].0 < q.0
  {
    forall q | q in reqs[1..] ensures reqs[0].0 < q.0 {
      var k :| 0 <= k < |reqs[1..]| && reqs[1..][k] == q;
      assert reqs[k + 1] == q;
    }
  }

  /**
   * Remembering the first request can erase only an ID no larger than it, so
   * a later request (with a larger ID) forgotten afterwards was not remembered before.
   */
  lemma NotEvicted(seen: seq<nat>, reqs: seq<Request>, q: Request)
    requires Sorted(seen) && |seen| <= MAX_SEEN && KeysAscending(reqs) && reqs != [] && reqs[0].0 !in seen
    requires q in reqs[1..] && q.0 !in Remember(seen, reqs[0].0, MAX_SEEN)
    ensures q.0 !in seen
  {
    TailAscending(reqs);
    RememberFacts(seen, reqs[0].0, MAX_SEEN);
    FirstIsSmallest(Insert(seen, reqs[0].0), reqs[0].0);
  }

  /** The artdaq-mu2e receiver's changing state: the base generator's and the IDs served. */
  datatype CrvState = CrvState(base: EventReceiverBase.BaseState, seen: seq<nat>)

  /** The request no-request mode makes up: the highest tag seen plus one, as ID and as tag. */
  function MadeUpRequest(s: CrvState): (q: Request)
    ensures q.0 == q.1 && q.0 < TWO_64
    ensures s.base.unwrapper.highest + 1 < TWO_64 ==> q.0 == s.base.unwrapper.highest + 1
  {
    var next := U64(s.base.unwrapper.highest + 1);
    (next, next)
  }

  /**
   * One `getNext_` call: the requests taken from the request buffer (or made
   * up in no-request mode), whether the buffer exists and whether the
   * generator was told to stop once the wait was over.
   */
  function GetNextSpec(c: EventReceiverBase.Config, noRequestMode: bool, s: CrvState, haveBuffer: bool,
                       reqs: seq<Request>, stopped: bool): (r: (bool, seq<Fragment>, CrvState))
    requires Sorted(s.seen) && |s.seen| <= MAX_SEEN
  {
    if !noRequestMode && !haveBuffer then (false, [], s)
    else if stopped then (false, [], s)
    else
      var served := Serve(c, s.base, s.seen, if noRequestMode then [MadeUpRequest(s)] else reqs);
      (served.ok, served.frags, CrvState(served.base, served.seen))
  }

  /**
   * Without a request buffer, or when told to stop, a call returns false and
   * changes nothing; otherwise it serves the pending requests, never one whose
   * ID it served before, with fragments numbered by the requests' IDs.
   */
  lemma GetNextOutcomes(c: EventReceiverBase.Config, noRequestMode: bool, s: CrvState, haveBuffer: bool,
                        reqs: seq<Request>, stopped: bool)
    requires Sorted(s.seen) && |s.seen| <= MAX_SEEN && KeysAscending(reqs)
    requires forall q :: q in reqs ==> q.0 != 0
    ensures var (ok, frags, s') := GetNextSpec(c, noRequestMode, s, haveBuffer, reqs, stopped);
      ((!noRequestMode && !haveBuffer) || stopped ==> !ok && frags == [] && s' == s) &&
      (!noRequestMode && haveBuffer && !stopped ==>
         var served := Serve(c, s.base, s.seen, reqs);
         (forall q :: q in served.forwarded ==> q in reqs && q.0 !in s.seen) &&
         forall f :: f in frags ==> exists q :: q in reqs && q.0 !in s.seen && f.sequenceId == q.0)
  {
    if !noRequestMode && haveBuffer && !stopped {
      ServeForwards(c, s.base, s.seen, reqs);
      var served := Serve(c, s.base, s.seen, reqs);
      forall f | f in served.frags ensures exists q :: q in reqs && q.0 !in s.seen && f.sequenceId == q.0 {
        var k :| 0 <= k < |served.forwarded| && Ids(served.forwarded)[k] == f.sequenceId;
        assert served.forwarded[k] in served.forwarded;
      }
    }
  }

  /**
   * No-request mode asks again for the highest tag seen plus one. Once that
   * ID has been served, a call that finds it still remembered (the DTC's
   * reply did not raise the highest tag) serves nothing and reports success:
   * the receiver then idles until the highest tag changes, which it no longer can.
   */
  lemma NoRequestModeRepeatServesNothing(c: EventReceiverBase.Config, s: CrvState, reqs: seq<Request>)
    requires Sorted(s.seen) && |s.seen| <= MAX_SEEN
    requires MadeUpRequest(s).0 in s.seen
    ensures GetNextSpec(c, true, s, false, reqs, false) == (true, [], s)
    ensures GetNextSpec(c, true, s, false, reqs, false) == GetNextSpec(c, true, GetNextSpec(c, true, s, false, reqs, false).2, false, reqs, false)
  {
    var q := [MadeUpRequest(s)];
    assert q[1..] == [];
    assert Serve(c, s.base, s.seen, q) == Serve(c, s.base, s.seen, []);
  }

  /** A request whose read failed is remembered all the same: asked for again, it is skipped. */
  lemma FailedRequestNotRetried(c: EventReceiverBase.Config, s: CrvState, q: Request, later: seq<Request>)
    requires Sorted(s.seen) && |s.seen| < MAX_SEEN && q.0 !in s.seen
    requires !EventReceiverBase.NextFragment(c, s.base, q.0).0
    ensures var (ok, _, s') := GetNextSpec(c, false, s, true, [q], false);
      !ok && q.0 in s'.seen &&
      Serve(c, s'.base, s'.seen, [q] + later) == Serve(c, s'.base, s'.seen, later)
  {
    RememberFacts(s.seen, q.0, MAX_SEEN);
    var s' := GetNextSpec(c, false, s, true, [q], false).2;
    assert ([q] + later)[1..] == later;
  }

  /** `CRVReceiver` of artdaq-mu2e, holding the base generator it derives from. */
  class CrvReceiver {
    const base: EventReceiverBase.Mu2eEventReceiverBase
    /** `seen_sequence_ids_`. */
    var seen: seq<nat>
    const noRequestMode: bool

    predicate Valid()
      reads this
    {
      Sorted(seen) && |seen| <= MAX_SEEN
    }

    function State(): CrvState
      reads this, base
    {
      CrvState(base.State(), seen)
    }

    /**
     * The base generator is built first; then `highest_timestamp_seen_` is set
     * to `no_request_mode_first_timestamp` (default 0).
     */
    constructor (evCounter: nat, dtc: seq<seq<DtcEvent>>, mode: nat, fragmentId: nat, nDtcs: nat := 1,
                 dtcOffset: nat := 0, noRequestMode: bool := false, firstTimestamp: nat := 0)
      ensures Valid()
      ensures State() == CrvState(EventReceiverBase.BaseState(evCounter, Unwrapper(firstTimestamp, 0), 0, dtc), [])
      ensures base.Cfg() == EventReceiverBase.Config(mode, nDtcs, dtcOffset, fragmentId)
      ensures this.noRequestMode == noRequestMode
    {
      var b := new EventReceiverBase.Mu2eEventReceiverBase(evCounter, dtc, mode, fragmentId, nDtcs, dtcOffset);
      base := b;
      seen := [];
      this.noRequestMode := noRequestMode;
      new;
      b.unwrapper := Unwrapper(firstTimestamp, 0);
    }

    /** `getNext_`. */
    method GetNext(haveBuffer: bool, pending: seq<Request>, stopped: bool) returns (ok: bool, frags: seq<Fragment>)
      requires Valid()
      modifies this, base
      ensures Valid()
      ensures (ok, frags, State()) == GetNextSpec(base.Cfg(), noRequestMode, old(State()), haveBuffer, pending, stopped)
    {
      ghost var s0 := State();
      var reqs: seq<Request>;
      if noRequestMode {
        var next := U64(base.unwrapper.highest + 1);
        reqs := [(next, next)];
        assert reqs == [MadeUpRequest(s0)];
      } else {
        if !haveBuffer {
          return false, [];
        }
        reqs := pending;
      }
      if stopped {
        return false, [];
      }
      assert reqs == if noRequestMode then [MadeUpRequest(s0)] else pending;
      ok, frags := ServeAll(reqs);
    }

    /** The body of the loop for a request not served yet: remember its number, then read. */
    method ServeNew(seqIn: nat, frags: seq<Fragment>) returns (ok: bool, frags': seq<Fragment>)
      requires Valid() && seqIn !in seen
      modifies this, base
      ensures Valid()
      ensures var step := EventReceiverBase.NextFragment(base.Cfg(), old(base.State()), seqIn);
        ok == step.0 && frags' == frags + step.1 && base.State() == step.2 &&
        seen == Remember(old(seen), seqIn, MAX_SEEN)
    {
      RememberFacts(seen, seqIn, MAX_SEEN);
      seen := Insert(seen, seqIn);
      if |seen| > MAX_SEEN {
        seen := seen[1..];
      }
      ok, frags' := base.GetNextDTCFragment(frags, seqIn);
    }

    /** The `for (auto& req : reqs)` loop: each request not yet served is remembered and read, up to the first failing read. */
    method ServeAll(reqs: seq<Request>) returns (ok: bool, frags: seq<Fragment>)
      requires Valid()
      modifies this, base
      ensures Valid()
      ensures var w := Serve(base.Cfg(), old(base.State()), old(seen), reqs);
        ok == w.ok && frags == w.frags && base.State() == w.base && seen == w.seen
    {
      ghost var c := base.Cfg();
      ghost var whole := Serve(c, base.State(), seen, reqs);
      ghost var fwd: seq<Request> := [];
      frags := [];
      var i := 0;
      assert reqs[0..] == reqs;
      assert whole == Served(whole.ok, [] + whole.frags, whole.base, whole.seen, [] + whole.forwarded);
      while i < |reqs|
        invariant 0 <= i <= |reqs| && Valid() && base.Cfg() == c
        invariant var r := Serve(c, base.State(), seen, reqs[i..]);
          whole == Served(r.ok, frags + r.frags, r.base, r.seen, fwd + r.forwarded)
      {
        ghost var here := Serve(c, base.State(), seen, reqs[i..]);
        if reqs[i].0 in seen {
          assert reqs[i..][1..] == reqs[i + 1..];
          assert here == Serve(c, base.State(), seen, reqs[i + 1..]);
          i := i + 1;
          continue;
        }
        ServeNewAt(c, base.State(), seen, reqs, i);
        ghost var step := EventReceiverBase.NextFragment(c, base.State(), reqs[i].0);
        ghost var fragsBefore := frags;
        ok, frags := ServeNew(reqs[i].0, frags);
        if !ok {
          assert here == Served(false, step.1, step.2, seen, [reqs[i]]);
          fwd := fwd + [reqs[i]];
          return;
        }
        ghost var r1 := Serve(c, base.State(), seen, reqs[i + 1..]);
        assert here == Served(r1.ok, step.1 + r1.frags, r1.base, r1.seen, [reqs[i]] + r1.forwarded);
        ConcatAssoc(fragsBefore, step.1, r1.frags);
        ConcatAssoc(fwd, [reqs[i]], r1.forwarded);
        fwd := fwd + [reqs[i]];
        i := i + 1;
      }
      assert reqs[|reqs|..] == [];
      assert frags + [] == frags;
      ok := true;
    }
  }

  // The mu2e-artdaq receiver.

  /** `sizeof(artdaq::RawDataType)`: a fragment's payload is counted in 8-byte words. */
  const WORD_BYTES: nat := 8

  /** `packetCount * sizeof(packet_t) / sizeof(artdaq::RawDataType)`: the payload words that hold the packets exactly. */
  function PayloadWords(packetCount: nat): (words: nat)
    ensures WORD_BYTES * words == PACKET_BYTES * packetCount
  {
    packetCount * PACKET_BYTES / WORD_BYTES
  }

  /** The header packet and the packets it counts. */
  function Packets(b: PacketBlock): (p: seq<Byte>)
    ensures |p| == PACKET_BYTES * (1 + b.packetCount) && p == b.bytes[..|p|]
  {
    b.bytes[..PACKET_BYTES * (1 + b.packetCount)]
  }

  /** `packetCount`: every block's packets and its header. */
  function PacketTotal(data: seq<PacketBlock>): nat
  {
    if data == [] then 0 else PacketTotal(data[..|data| - 1]) + 1 + data[|data| - 1].packetCount
  }

  /** The blocks' packets, back to back. */
  function Copied(data: seq<PacketBlock>): (p: seq<Byte>)
    ensures |p| == PACKET_BYTES * PacketTotal(data)
  {
    if data == [] then [] else Copied(data[..|data| - 1]) + Packets(data[|data| - 1])
  }

  /** One block more. */
  lemma PacketsSnoc(data: seq<PacketBlock>, i: nat)
    requires i < |data|
    ensures PacketTotal(data[..i + 1]) == PacketTotal(data[..i]) + 1 + data[i].packetCount
    ensures Copied(data[..i + 1]) == Copied(data[..i]) + Packets(data[i])
  {
    assert data[..i + 1][..i] == data[..i];
  }

  /** The copy loop's step: a buffer holding the first `i` blocks' packets and then block `i`'s holds the first `i + 1` blocks'. */
  lemma CopiedStep(data: seq<PacketBlock>, i: nat, buf: seq<Byte>)
    requires i < |data|
    requires PACKET_BYTES * PacketTotal(data[..i]) + |Packets(data[i])| <= |buf|
    requires buf[..PACKET_BYTES * PacketTotal(data[..i])] == Copied(data[..i])
    requires buf[PACKET_BYTES * PacketTotal(data[..i])..PACKET_BYTES * PacketTotal(data[..i]) + |Packets(data[i])|] == Packets(data[i])
    ensures PacketTotal(data[..i + 1]) == PacketTotal(data[..i]) + 1 + data[i].packetCount
    ensures buf[..PACKET_BYTES * PacketTotal(data[..i + 1])] == Copied(data[..i + 1])
  {
    PacketsSnoc(data, i);
    var at := PACKET_BYTES * PacketTotal(data[..i]);
    assert buf[..at + |Packets(data[i])|] == buf[..at] + buf[at..at + |Packets(data[i])|];
  }

  /** The packets of a leading run of blocks begin the packets of them all. */
  lemma {:induction false} CopiedPrefix(data: seq<PacketBlock>, m: nat)
    requires m <= |data|
    ensures PacketTotal(data[..m]) <= PacketTotal(data)
    ensures Copied(data[..m]) == Copied(data)[..PACKET_BYTES * PacketTotal(data[..m])]
    decreases |data|
  {
    if m < |data| {
      var init := data[..|data| - 1];
      assert init[..m] == data[..m];
      CopiedPrefix(init, m);
    } else {
      assert data[..m] == data;
    }
  }

  /**
   * Block `i`'s packets sit in the fragment at the packet offset made of the
   * packets and headers of the blocks before it, and the packets fill the
   * fragment's `packetCount * 16 / 8` words exactly.
   */
  lemma CopiedLayout(data: seq<PacketBlock>, i: nat)
    requires i < |data|
    ensures var start := PACKET_BYTES * PacketTotal(data[..i]);
      start + |Packets(data[i])| <= |Copied(data)| &&
      Copied(data)[start..start + |Packets(data[i])|] == Packets(data[i])
    ensures |Copied(data)| == WORD_BYTES * PayloadWords(PacketTotal(data))
  {
    var pre := data[..i + 1];
    assert pre[..|pre| - 1] == data[..i];
    CopiedPrefix(data, i + 1);
    var start := PACKET_BYTES * PacketTotal(data[..i]);
    assert Copied(pre) == Copied(data[..i]) + Packets(data[i]);
    assert Copied(pre)[start..] == Packets(data[i]);
  }

  /** The mu2e-artdaq receiver's configuration: fragment ID and type, and whether a simulation file drives the DTC. */
  datatype LegacyConfig = LegacyConfig(fragmentId: nat, fragType: FragmentType, emulatorMode: bool)

  /** `detectorEmulatorMode_`: on when a simulation file is named, by `DTCLIB_SIM_FILE` first and `sim_file` otherwise. */
  function EmulatorMode(simFile: string, simFileEnv: Option<string>): (on: bool)
    ensures simFileEnv.Some? ==> (on <==> simFileEnv.value != [])
    ensures simFileEnv.None? ==> (on <==> simFile != [])
  {
    var file := if simFileEnv.Some? then simFileEnv.value else simFile;
    |file| > 0
  }

  /** The mu2e-artdaq receiver's changing state; `cfoRequests` are the tags the software CFO was asked for. */
  datatype LegacyState = LegacyState(evCounter: nat, seen: seq<nat>, dtc: seq<seq<PacketBlock>>, cfoRequests: seq<nat>)

  predicate LegacyGood(s: LegacyState)
  {
    Sorted(s.seen) && |s.seen| <= MAX_SEEN
  }

  /** The fragment of one request: payload words, the request's ID and tag, the copied packets. */
  function CrvFragment(c: LegacyConfig, q: Request, data: seq<PacketBlock>): (f: Fragment)
    ensures f.sequenceId == q.0 && f.timestamp == q.1 && f.fragmentId == c.fragmentId && f.fragType == c.fragType
  {
    Fragment(q.0, c.fragmentId, c.fragType, q.1, Bytes(Copied(data)))
  }

  /**
   * Serving a request not served before: remember its ID, ask the software
   * CFO for its tag (for 0 in emulator mode), read with retries and, when
   * data came back, count one more event. The data read, and the state after.
   */
  function LegacyRequest(c: LegacyConfig, s: LegacyState, q: Request): (r: (seq<PacketBlock>, LegacyState))
    requires LegacyGood(s) && q.0 !in s.seen
    ensures LegacyGood(r.1) && r.0 == Retry(s.dtc).0
    ensures r.1.evCounter == if r.0 == [] then s.evCounter else U64(s.evCounter + 1)
    ensures r.1.cfoRequests == s.cfoRequests + [if c.emulatorMode then 0 else q.1]
  {
    RememberFacts(s.seen, q.0, MAX_SEEN);
    var ts := if c.emulatorMode then 0 else q.1;
    var read := Retry(s.dtc);
    var evCounter := if read.0 == [] then s.evCounter else U64(s.evCounter + 1);
    (read.0, LegacyState(evCounter, Remember(s.seen, q.0, MAX_SEEN), AfterReads(s.dtc, read.1), s.cfoRequests + [ts]))
  }

  /** The mu2e-artdaq `for (auto& req : reqs)` loop. */
  function LegacyServe(c: LegacyConfig, s: LegacyState, reqs: seq<Request>): (r: (bool, seq<Fragment>, LegacyState))
    requires LegacyGood(s)
    ensures LegacyGood(r.2)
    decreases |reqs|
  {
    if reqs == [] then (true, [], s)
    else if reqs[0].0 in s.seen then LegacyServe(c, s, reqs[1..])
    else
      var (data, s1) := LegacyRequest(c, s, reqs[0]);
      if data == [] then (false, [], s1)
      else
        var r := LegacyServe(c, s1, reqs[1..]);
        (r.0, [CrvFragment(c, reqs[0], data)] + r.1, r.2)
  }

  /** `LegacyServe` from request `i` on, when that request is served now and its read brings data. */
  lemma LegacyServeDataAt(c: LegacyConfig, before: LegacyState, reqs: seq<Request>, i: nat)
    requires LegacyGood(before) && i < |reqs| && reqs[i].0 !in before.seen
    requires LegacyRequest(c, before, reqs[i]).0 != []
    ensures var (data, after) := LegacyRequest(c, before, reqs[i]);
      var r := LegacyServe(c, after, reqs[i + 1..]);
      LegacyServe(c, before, reqs[i..]) == (r.0, [CrvFragment(c, reqs[i], data)] + r.1, r.2)
  {
    assert reqs[i..][1..] == reqs[i + 1..];
  }

  /**
   * Serving one new request asks the CFO for its tag (for 0 in emulator
   * mode) and, when data comes back, gives one fragment under the request's
   * ID and tag holding the blocks' packets, counting one more event.
   */
  lemma LegacyServeOne(c: LegacyConfig, s: LegacyState, q: Request)
    requires LegacyGood(s) && q.0 !in s.seen
    ensures var (ok, frags, s') := LegacyServe(c, s, [q]);
      var data := Retry(s.dtc).0;
      s'.cfoRequests == s.cfoRequests + [if c.emulatorMode then 0 else q.1] && (q.0 in s'.seen || |s.seen| == MAX_SEEN) &&
      (ok <==> data != []) &&
      (ok ==> frags == [CrvFragment(c, q, data)] && s'.evCounter == U64(s.evCounter + 1)) &&
      (!ok ==> frags == [] && s'.evCounter == s.evCounter)
  {
    RememberFacts(s.seen, q.0, MAX_SEEN);
    assert [q][1..] == [];
  }

  /** One mu2e-artdaq `getNext_` call, with the same inputs as the artdaq-mu2e one's. */
  function LegacyGetNextSpec(c: LegacyConfig, s: LegacyState, haveBuffer: bool, reqs: seq<Request>, stopped: bool): (r: (bool, seq<Fragment>, LegacyState))
    requires LegacyGood(s)
  {
    if !haveBuffer || stopped then (false, [], s) else LegacyServe(c, s, reqs)
  }

  /** Each fragment of a call answers a request of that call not served before, under its ID and tag. */
  lemma {:induction false} LegacyFragmentsAnswerRequests(c: LegacyConfig, s: LegacyState, reqs: seq<Request>)
    requires LegacyGood(s) && KeysAscending(reqs)
    ensures var (_, frags, _) := LegacyServe(c, s, reqs);
      forall f :: f in frags ==> (f.sequenceId, f.timestamp) in reqs && f.sequenceId !in s.seen
    decreases |reqs|
  {
    if reqs != [] {
      var rest := reqs[1..];
      assert forall q :: q in rest ==> q in reqs;
      if reqs[0].0 in s.seen {
        TailAscending(reqs);
        LegacyFragmentsAnswerRequests(c, s, rest);
      } else {
        LegacyServeStep(c, s, reqs);
      }
    }
  }

  /** The step of `LegacyFragmentsAnswerRequests` for a request not served before. */
  lemma {:induction false} LegacyServeStep(c: LegacyConfig, s: LegacyState, reqs: seq<Request>)
    requires LegacyGood(s) && KeysAscending(reqs) && reqs != [] && reqs[0].0 !in s.seen
    ensures var (_, frags, _) := LegacyServe(c, s, reqs);
      forall f :: f in frags ==> (f.sequenceId, f.timestamp) in reqs && f.sequenceId !in s.seen
    decreases |reqs|, 0
  {
    var rest := reqs[1..];
    var read := LegacyRequest(c, s, reqs[0]);
    var seen' := read.1.seen;
    var s1 := read.1;
    if read.0 != [] {
      TailAscending(reqs);
      LegacyServeDataAt(c, s, reqs, 0);
      assert reqs[0..] == reqs;
      LegacyFragmentsAnswerRequests(c, s1, rest);
      var r := LegacyServe(c, s1, rest);
      forall f | f in r.1 ensures (f.sequenceId, f.timestamp) in reqs && f.sequenceId !in s.seen {
        var q := (f.sequenceId, f.timestamp);
        assert q in rest && q.0 !in seen';
        NotEvicted(s.seen, reqs, q);
      }
    }
  }

  /** `CRVReceiver` of mu2e-artdaq. */
  class LegacyCrvReceiver {
    var evCounter: nat
    var seen: seq<nat>
    /** What the DTC's `GetData` will return, read by read. */
    var dtc: seq<seq<PacketBlock>>
    /** The tags sent to the software CFO, in order. */
    var cfoRequests: seq<nat>
    const fragmentId: nat
    const fragType: FragmentType
    const emulatorMode: bool

    function State(): LegacyState
      reads this
    {
      LegacyState(evCounter, seen, dtc, cfoRequests)
    }

    function Cfg(): LegacyConfig
    {
      LegacyConfig(fragmentId, fragType, emulatorMode)
    }

    predicate Valid()
      reads this
    {
      LegacyGood(State())
    }

    /** `fragment_type` defaults to CRV and `sim_file` to none; `DTCLIB_SIM_FILE` overrides `sim_file`. */
    constructor (evCounter: nat, dtc: seq<seq<PacketBlock>>, fragmentId: nat, simFile: string, simFileEnv: Option<string>,
                 fragType: FragmentType := CRV)
      ensures Valid()
      ensures State() == LegacyState(evCounter, [], dtc, [])
      ensures Cfg() == LegacyConfig(fragmentId, fragType, EmulatorMode(simFile, simFileEnv))
    {
      this.evCounter, this.dtc, this.fragmentId, this.fragType := evCounter, dtc, fragmentId, fragType;
      seen, cfoRequests := [], [];
      var file := simFile;
      if simFileEnv.Some? {
        file := simFileEnv.value;
      }
      emulatorMode := |file| > 0;
    }

    /** `getNext_`, that is `getNextDTCFragment`. */
    method GetNext(haveBuffer: bool, reqs: seq<Request>, stopped: bool) returns (ok: bool, frags: seq<Fragment>)
      requires Valid()
      modifies this
      ensures Valid()
      ensures (ok, frags, State()) == LegacyGetNextSpec(Cfg(), old(State()), haveBuffer, reqs, stopped)
    {
      if !haveBuffer || stopped {
        return false, [];
      }
      ghost var s0 := State();
      frags := [];
      var i := 0;
      assert reqs[0..] == reqs;
      assert [] + LegacyServe(Cfg(), s0, reqs).1 == LegacyServe(Cfg(), s0, reqs).1;
      while i < |reqs|
        invariant 0 <= i <= |reqs| && Valid()
        invariant var r := LegacyServe(Cfg(), State(), reqs[i..]);
          LegacyServe(Cfg(), s0, reqs) == (r.0, frags + r.1, r.2)
      {
        assert reqs[i..][1..] == reqs[i + 1..];
        if reqs[i].0 in seen {
          assert LegacyServe(Cfg(), State(), reqs[i..]) == LegacyServe(Cfg(), State(), reqs[i + 1..]);
          i := i + 1;
          continue;
        }
        ghost var before := State();
        ghost var whole := LegacyServe(Cfg(), s0, reqs);
        ghost var here := LegacyServe(Cfg(), before, reqs[i..]);
        assert whole == (here.0, frags + here.1, here.2);
        var got, f := ServeRequest(reqs[i]);
        if !got {
          assert frags + [] == frags;
          return false, frags;
        }
        LegacyServeDataAt(Cfg(), before, reqs, i);
        ghost var r1 := LegacyServe(Cfg(), State(), reqs[i + 1..]);
        assert here == (r1.0, [f] + r1.1, r1.2);
        assert (frags + [f]) + r1.1 == frags + ([f] + r1.1);
        frags := frags + [f];
        i := i + 1;
      }
      assert reqs[|reqs|..] == [];
      assert frags + [] == frags;
      ok := true;
    }

    /** The body of the request loop for a request not served before: remember, ask, read, copy, count. */
    method ServeRequest(q: Request) returns (got: bool, f: Fragment)
      requires Valid() && q.0 !in seen
      modifies this
      ensures Valid()
      ensures var r := LegacyRequest(Cfg(), old(State()), q);
        got == (r.0 != []) && State() == r.1 && (got ==> f == CrvFragment(Cfg(), q, r.0))
    {
      var data := AskAndRead(q);
      if data == [] {
        return false, Fragment(q.0, fragmentId, fragType, q.1, Bytes([]));
      }
      var payload := CopyPackets(data);
      f := Fragment(q.0, fragmentId, fragType, q.1, Bytes(payload));
      evCounter := U64(evCounter + 1);
      got := true;
    }

    /** Remember the request's ID, ask the software CFO for its tag, and read with retries. */
    method AskAndRead(q: Request) returns (data: seq<PacketBlock>)
      requires Valid() && q.0 !in seen
      modifies this
      ensures Valid() && data == Retry(old(dtc)).0
      ensures State() == old(State()).(seen := Remember(old(seen), q.0, MAX_SEEN),
                                       dtc := AfterReads(old(dtc), Retry(old(dtc)).1),
                                       cfoRequests := old(cfoRequests) + [if emulatorMode then 0 else q.1])
    {
      RememberFacts(seen, q.0, MAX_SEEN);
      seen := Insert(seen, q.0);
      if |seen| > MAX_SEEN {
        seen := seen[1..];
      }
      var ts := if emulatorMode then 0 else q.1;
      cfoRequests := cfoRequests + [ts];
      var rest;
      data, rest := ReadWithRetries(dtc);
      dtc := rest;
    }

    /** The packet count, then the packets copied block by block into the fragment's preallocated payload. */
    static method CopyPackets(data: seq<PacketBlock>) returns (payload: seq<Byte>)
      requires data != []
      ensures payload == Copied(data)
    {
      var packetCount := CountPackets(data);
      var buffer := new Byte[PayloadWords(packetCount) * WORD_BYTES];
      CopyBlocks(buffer, data);
      payload := buffer[..];
    }

    /** The copy loop: block after block, each at the packets counted so far. */
    static method CopyBlocks(buffer: array<Byte>, data: seq<PacketBlock>)
      requires buffer.Length == PACKET_BYTES * PacketTotal(data)
      modifies buffer
      ensures buffer[..] == Copied(data)
    {
      var packetsProcessed := 0;
      for i := 0 to |data|
        invariant packetsProcessed == PacketTotal(data[..i])
        invariant PACKET_BYTES * packetsProcessed <= buffer.Length
        invariant buffer[..PACKET_BYTES * packetsProcessed] == Copied(data[..i])
      {
        CopiedPrefix(data, i + 1);
        PacketsSnoc(data, i);
        var at := PACKET_BYTES * packetsProcessed;
        CopyBlock(buffer, at, data[i]);
        CopiedStep(data, i, buffer[..]);
        packetsProcessed := packetsProcessed + 1 + data[i].packetCount;
      }
      assert data[..|data|] == data;
      assert buffer[..] == buffer[..PACKET_BYTES * packetsProcessed];
    }

    /** `packetCount`: the first block's header and packets, then every other block's. */
    static method CountPackets(data: seq<PacketBlock>) returns (packetCount: nat)
      requires data != []
      ensures packetCount == PacketTotal(data)
    {
      packetCount := data[0].packetCount + 1;
      assert data[..1][..0] == [];
      for i := 1 to |data|
        invariant packetCount == PacketTotal(data[..i])
      {
        PacketsSnoc(data, i);
        packetCount := packetCount + data[i].packetCount + 1;
      }
      assert data[..|data|] == data;
    }

    /** The `memcpy` of one block's packets to `at`. */
    static method CopyBlock(buffer: array<Byte>, at: nat, b: PacketBlock)
      requires at + |Packets(b)| <= buffer.Length
      modifies buffer
      ensures buffer[..at] == old(buffer[..at]) && buffer[at..at + |Packets(b)|] == Packets(b)
    {
      var n := PACKET_BYTES * (1 + b.packetCount);
      for k := 0 to n
        invariant buffer[..at] == old(buffer[..at])
        invariant buffer[at..at + k] == b.bytes[..k]
      {
        buffer[at + k] := b.bytes[k];
      }
    }
  }
}
