/**
 * `OfflineFragmentReader::readNext`: the art input source that turns the
 * artdaq events of the shared-memory queue into art events. An artdaq event
 * carries one interesting fragment holding many super blocks; each call of
 * `readNext` emits one art event per super block, with the tracker and
 * calorimeter blocks as two products, and makes run and subrun principals
 * when the ids change.
 *
 * The queue is modelled by what the next attempts to read from it give
 * (`Arrival`); the wall clock and the sleeps are left out.
 */
module OfflineSource {

  import opened Common
  import CurrentFragments
  import EventIds

  /** The artdaq fragment types the source tells apart; every other type is data. */
  datatype FragmentType = EndOfData | EndOfRun | EndOfSubrun | EmptyType | DataType(code: int)

  datatype RawHeader = RawHeader(run: nat, subrun: nat)

  /** The single fragment the queue gives for a type: its super blocks and timestamp. */
  datatype Product = Product(blocks: seq<CurrentFragments.SuperBlock>, timestamp: nat)

  /**
   * One attempt to read the queue: no event within the waiting time; an event
   * whose buffer changed while its header or type list was read; or an event
   * with its header, its fragment types and, per type, the fragment (a type
   * missing from `products` is one whose buffer changed while it was read).
   */
  datatype Arrival = TimedOut | BufferChanged
                   | Ready(header: RawHeader, types: seq<FragmentType>, products: map<FragmentType, Product>)

  /** A run, subrun or event number, or art's flush value. */
  datatype Num = Id(n: nat) | Flush

  datatype SubRunId = SubRunId(run: Num, subrun: Num)
  datatype EventId = EventId(run: Num, subrun: Num, event: Num)

  /** The principals `readNext` hands back; None is a null pointer. */
  datatype Principals = Principals(run: Option<Num>, subRun: Option<SubRunId>, event: Option<EventId>)

  /** `DTC_Subsystem_Tracker` and `DTC_Subsystem_Calorimeter`. */
  const TRACKER: int := 0
  const CALORIMETER: int := 1

  /** The pause between two looks at the queue: waiting time × 1000 µs, at most 0.1 s. */
  function SleepMicros(waitingTime: real): (us: real)
    ensures us <= 100000.0
    ensures us == waitingTime * 1000.0 || us == 100000.0
    ensures waitingTime * 1000.0 <= 100000.0 ==> us == waitingTime * 1000.0
  {
    if waitingTime * 1000.0 > 100000.0 then 100000.0 else waitingTime * 1000.0
  }

  /** A run principal is needed for a missing or different input run. */
  predicate RunNeeded(inR: Option<Num>, h: RawHeader)
  {
    inR.None? || inR.value != Id(h.run)
  }

  /** A subrun principal is needed for a missing or different input subrun. */
  predicate SubRunNeeded(inSR: Option<SubRunId>, h: RawHeader)
  {
    inSR.None? || inSR.value != SubRunId(Id(h.run), Id(h.subrun))
  }

  /** The first type that is not `EmptyFragmentType`. */
  function FirstNonEmpty(types: seq<FragmentType>): (t: Option<FragmentType>)
    ensures t.Some? ==> t.value in types && t.value != EmptyType
    ensures t.None? <==> forall i :: 0 <= i < |types| ==> types[i] == EmptyType
  {
    if types == [] then None
    else if types[0] != EmptyType then Some(types[0])
    else FirstNonEmpty(types[1..])
  }

  /** The principals of an end-of-subrun marker. */
  function EndOfSubrunPrincipals(inR: Option<Num>, inSR: Option<SubRunId>, h: RawHeader): Principals
  {
    if RunNeeded(inR, h) then
      Principals(Some(Id(h.run)), Some(SubRunId(Id(h.run), Id(h.subrun))),
                 Some(EventId(Id(h.run), Id(h.subrun), Flush)))
    else if inSR.Some? && inSR.value.subrun != Flush && inSR.value.subrun == Id(h.subrun) then
      Principals(None, Some(SubRunId(inR.value, Flush)), Some(EventId(inR.value, Flush, Flush)))
    else
      Principals(None, Some(SubRunId(Id(h.run), Id(h.subrun))), Some(EventId(Id(h.run), Id(h.subrun), Flush)))
  }

  const FLUSH_ALL: Principals :=
    Principals(Some(Flush), Some(SubRunId(Flush, Flush)), Some(EventId(Flush, Flush, Flush)))

  /** What the fetching part of `readNext` ends with. */
  datatype Fetched =
    | StillWaiting                  // the modelled attempts ran out while resuming after timeouts
    | TimedOutStop                  // a timeout with resume off
    | NoFragments(h: RawHeader)     // an event without fragments
    | EndOfDataStop(h: RawHeader)   // the end-of-data marker
    | FlushEvent(out: Principals, h: RawHeader)
    | DataEvent(outR: Option<Num>, outSR: Option<SubRunId>, h: RawHeader, product: Option<Product>)

  /**
   * The fetch loop with its `goto start` restarts, over the attempts still
   * to come, with the run and subrun principals already made by an earlier
   * attempt (`outR`, `outSR`), which a restart does not clear.
   */
  function Fetch(arrivals: seq<Arrival>, inR: Option<Num>, inSR: Option<SubRunId>, resume: bool,
                 outR: Option<Num>, outSR: Option<SubRunId>): (r: (Fetched, seq<Arrival>))
    ensures |r.1| <= |arrivals|
  {
    if arrivals == [] then (StillWaiting, [])
    else
      var rest := arrivals[1..];
      match arrivals[0]
      case TimedOut => if resume then Fetch(rest, inR, inSR, resume, outR, outSR) else (TimedOutStop, rest)
      case BufferChanged => Fetch(rest, inR, inSR, resume, outR, outSR)
      case Ready(h, types, products) =>
        if types == [] then (NoFragments(h), rest)
        else if types[0] == EndOfData then (EndOfDataStop(h), rest)
        else if types[0] == EndOfRun then (FlushEvent(FLUSH_ALL, h), rest)
        else if types[0] == EndOfSubrun then (FlushEvent(EndOfSubrunPrincipals(inR, inSR, h), h), rest)
        else
          var outR' := if RunNeeded(inR, h) then Some(Id(h.run)) else outR;
          var outSR' := if SubRunNeeded(inSR, h) then Some(SubRunId(Id(h.run), Id(h.subrun))) else outSR;
          match FirstNonEmpty(types)
          case None => (DataEvent(outR', outSR', h, None), rest)
          case Some(t) =>
            if t in products then (DataEvent(outR', outSR', h, Some(products[t])), rest)
            else Fetch(rest, inR, inSR, resume, outR', outSR')
  }

  /** The source's fields as a value. */
  datatype ReaderView = ReaderView(outputFileCloseNeeded: bool, shutdownMsgReceived: bool,
                                   cursor: CurrentFragments.CursorView, ids: EventIds.IdState,
                                   header: Option<RawHeader>, incoming: seq<Arrival>)

  /** The tracker and calorimeter products of one art event. */
  datatype Extracted = Extracted(trk: seq<CurrentFragments.OutFragment>, calo: seq<CurrentFragments.OutFragment>)

  datatype ReadResult =
    | Stop                                    // `readNext` returns false
    | Waiting                                 // still waiting for the queue
    | Emit(out: Principals, products: Option<Extracted>)   // returns true
    | EmptyCursorUse(out: Principals)         // an event with only empty-type fragments: see below
    | Thrown                                  // the cursor threw on corrupt data

  /**
   * Number the event, then cut the current super block into tracker and
   * calorimeter products and move to the next super block. When no fragment
   * is cached (an event whose types are all `EmptyFragmentType`), the source
   * extracts from an empty cursor; that case is reported as `EmptyCursorUse`.
   */
  function DataTail(v: ReaderView, outR: Option<Num>, outSR: Option<SubRunId>, h: RawHeader): (r: (ReadResult, ReaderView))
  {
    var ids := EventIds.Next(v.ids, EventIds.RawEventIds(h.run, h.subrun));
    var out := Principals(outR, outSR, Some(EventId(Id(ids.run), Id(ids.subRun), Id(ids.event))));
    var c := v.cursor;
    if CurrentFragments.ViewEmpty(c) then (EmptyCursorUse(out), v.(ids := ids))
    else
      var sb := c.blocks[c.current.value];
      match CurrentFragments.Extract(sb, TRACKER, c.fragmentTimestamp)
      case DataCorruption => (Thrown, v.(ids := ids))
      case Ok(trk) =>
        match CurrentFragments.Extract(sb, CALORIMETER, c.fragmentTimestamp)
        case DataCorruption => (Thrown, v.(ids := ids))
        case Ok(calo) =>
          (Emit(out, Some(Extracted(trk, calo))), v.(ids := ids, cursor := CurrentFragments.Advanced(c)))
  }

  /** A cached fragment always comes with the header of the event it came from. */
  predicate ReaderValid(v: ReaderView)
  {
    CurrentFragments.ViewValid(v.cursor) && (!CurrentFragments.ViewEmpty(v.cursor) ==> v.header.Some?)
  }

  /** One call of `readNext` with the input run `inR` and subrun `inSR`. */
  function ReadNext(v: ReaderView, inR: Option<Num>, inSR: Option<SubRunId>, resume: bool): (r: (ReadResult, ReaderView))
  {
    if v.outputFileCloseNeeded then (Stop, v.(outputFileCloseNeeded := false))
    else if !CurrentFragments.ViewEmpty(v.cursor) && v.header.Some? then DataTail(v, None, None, v.header.value)
    else
      var (f, rest) := Fetch(v.incoming, inR, inSR, resume, None, None);
      AfterFetch(v.(incoming := rest), f)
  }

  /** What `readNext` does with the outcome of its fetch loop. */
  function AfterFetch(v: ReaderView, f: Fetched): (r: (ReadResult, ReaderView))
  {
    match f
    case StillWaiting => (Waiting, v)
    case TimedOutStop => (Stop, v.(shutdownMsgReceived := true))
    case NoFragments(h) => (Stop, v.(header := Some(h)))
    case EndOfDataStop(h) => (Stop, v.(shutdownMsgReceived := true, header := Some(h)))
    case FlushEvent(out, h) => (Emit(out, None), v.(header := Some(h)))
    case DataEvent(outR, outSR, h, product) =>
      var cursor := if product.Some? then CurrentFragments.FreshView(product.value.blocks, product.value.timestamp)
                    else v.cursor;
      DataTail(v.(header := Some(h), cursor := cursor), outR, outSR, h)
  }

  class OfflineFragmentReader {
    var outputFileCloseNeeded: bool
    var shutdownMsgReceived: bool
    var currentFragment: CurrentFragments.CurrentFragment
    var idHandler: EventIds.EventIDHandler
    var evtHeader: Option<RawHeader>
    /** What the queue will give from now on. */
    var incoming: seq<Arrival>
    const waitingTime: real
    const resumeAfterTimeout: bool

    function View(): ReaderView
      reads this, currentFragment, idHandler
    {
      ReaderView(outputFileCloseNeeded, shutdownMsgReceived, currentFragment.View(), idHandler.State(),
                 evtHeader, incoming)
    }

    predicate Valid()
      reads this, currentFragment, idHandler
    {
      ReaderValid(View())
    }

    /** `waiting_time` defaults to 86400 s and `resume_after_timeout` to true. */
    constructor (incoming: seq<Arrival>, waitingTime: real := 86400.0, resumeAfterTimeout: bool := true)
      ensures Valid() && !outputFileCloseNeeded && !shutdownMsgReceived && evtHeader.None?
      ensures currentFragment.Empty() && idHandler.State() == EventIds.INITIAL
      ensures this.incoming == incoming && this.waitingTime == waitingTime
      ensures this.resumeAfterTimeout == resumeAfterTimeout
    {
      outputFileCloseNeeded, shutdownMsgReceived, evtHeader := false, false, None;
      this.incoming, this.waitingTime, this.resumeAfterTimeout := incoming, waitingTime, resumeAfterTimeout;
      currentFragment := new CurrentFragments.CurrentFragment.Default();
      idHandler := new EventIds.EventIDHandler();
    }

    /** `hasMoreData`. */
    predicate HasMoreData()
      reads this
    {
      !shutdownMsgReceived
    }

    method ReadNextEvent(inR: Option<Num>, inSR: Option<SubRunId>) returns (r: ReadResult)
      requires Valid()
      modifies this, currentFragment, idHandler
      ensures Valid()
      ensures (r, View()) == ReadNext(old(View()), inR, inSR, resumeAfterTimeout)
    {
      if outputFileCloseNeeded {
        outputFileCloseNeeded := false;
        return Stop;
      }
      if !currentFragment.Empty() && evtHeader.Some? {
        r := EmitFromCursor(None, None, evtHeader.value);
        return;
      }
      var f, rest := FetchEvent(incoming, inR, inSR, resumeAfterTimeout);
      incoming := rest;
      r := ApplyFetched(f);
    }

    method ApplyFetched(f: Fetched) returns (r: ReadResult)
      requires Valid()
      modifies this, currentFragment, idHandler
      ensures Valid()
      ensures (r, View()) == AfterFetch(old(View()), f)
    {
      match f {
        case StillWaiting => r := Waiting;
        case TimedOutStop =>
          shutdownMsgReceived := true;
          r := Stop;
        case NoFragments(h) =>
          evtHeader := Some(h);
          r := Stop;
        case EndOfDataStop(h) =>
          shutdownMsgReceived := true;
          evtHeader := Some(h);
          r := Stop;
        case FlushEvent(out, h) =>
          evtHeader := Some(h);
          r := Emit(out, None);
        case DataEvent(outR, outSR, h, product) =>
          evtHeader := Some(h);
          if product.Some? {
            currentFragment := new CurrentFragments.CurrentFragment(product.value.blocks, product.value.timestamp, false);
          }
          r := EmitFromCursor(outR, outSR, h);
      }
    }

    /** Number the event, put the two products and advance the cursor. */
    method EmitFromCursor(outR: Option<Num>, outSR: Option<SubRunId>, h: RawHeader) returns (r: ReadResult)
      requires Valid()
      modifies idHandler, currentFragment
      ensures Valid()
      ensures (r, View()) == DataTail(old(View()), outR, outSR, h)
    {
      idHandler.Update(EventIds.RawEventIds(h.run, h.subrun));
      var out := Principals(outR, outSR,
                            Some(EventId(Id(idHandler.run), Id(idHandler.subRun), Id(idHandler.event))));
      if currentFragment.Empty() {
        return EmptyCursorUse(out);
      }
      var trk := currentFragment.ExtractFragmentsFromBlock(TRACKER);
      if trk.DataCorruption? {
        return Thrown;
      }
      var calo := currentFragment.ExtractFragmentsFromBlock(CALORIMETER);
      if calo.DataCorruption? {
        return Thrown;
      }
      currentFragment.AdvanceOneBlock();
      r := Emit(out, Some(Extracted(trk.value, calo.value)));
    }
  }

  /** The fetch loop: wait for an event, restarting whenever the buffer changed under the reader. */
  method FetchEvent(arrivals: seq<Arrival>, inR: Option<Num>, inSR: Option<SubRunId>, resume: bool)
    returns (f: Fetched, rest: seq<Arrival>)
    ensures (f, rest) == Fetch(arrivals, inR, inSR, resume, None, None)
  {
    var outR: Option<Num> := None;
    var outSR: Option<SubRunId> := None;
    rest := arrivals;
    while rest != []
      invariant Fetch(rest, inR, inSR, resume, outR, outSR) == Fetch(arrivals, inR, inSR, resume, None, None)
      decreases |rest|
    {
      var a := rest[0];
      rest := rest[1..];
      match a {
        case TimedOut =>
          if !resume {
            return TimedOutStop, rest;
          }
        case BufferChanged =>
        case Ready(h, types, products) =>
          if types == [] {
            return NoFragments(h), rest;
          }
          if types[0] == EndOfData {
            return EndOfDataStop(h), rest;
          }
          if types[0] == EndOfRun {
            return FlushEvent(FLUSH_ALL, h), rest;
          }
          if types[0] == EndOfSubrun {
            return FlushEvent(EndOfSubrunPrincipals(inR, inSR, h), h), rest;
          }
          if RunNeeded(inR, h) {
            outR := Some(Id(h.run));
          }
          if SubRunNeeded(inSR, h) {
            outSR := Some(SubRunId(Id(h.run), Id(h.subrun)));
          }
          var t := FirstNonEmpty(types);
          if t.None? {
            return DataEvent(outR, outSR, h, None), rest;
          }
          if t.value in products {
            return DataEvent(outR, outSR, h, Some(products[t.value])), rest;
          }
      }
    }
    f := StillWaiting;
  }

  // Properties of `readNext`.

  /** A pending output-file close makes the next call return false and does nothing else. */
  lemma CloseNeededStops(v: ReaderView, inR: Option<Num>, inSR: Option<SubRunId>, resume: bool)
    requires v.outputFileCloseNeeded
    ensures ReadNext(v, inR, inSR, resume) == (Stop, v.(outputFileCloseNeeded := false))
  {
  }

  /** Every call keeps a cached fragment paired with its event's header. */
  lemma ReadNextKeepsValid(v: ReaderView, inR: Option<Num>, inSR: Option<SubRunId>, resume: bool)
    requires ReaderValid(v)
    ensures ReaderValid(ReadNext(v, inR, inSR, resume).1)
  {
  }

  /**
   * Only a timeout with resuming switched off ends the wait with a shutdown;
   * with resuming on, a timeout just starts another wait.
   */
  lemma {:induction false} FetchTimeout(arrivals: seq<Arrival>, inR: Option<Num>, inSR: Option<SubRunId>, resume: bool,
                                        outR: Option<Num>, outSR: Option<SubRunId>)
    ensures Fetch(arrivals, inR, inSR, resume, outR, outSR).0.TimedOutStop? ==> !resume && TimedOut in arrivals
    ensures !resume && |arrivals| > 0 && arrivals[0] == TimedOut ==>
              Fetch(arrivals, inR, inSR, resume, outR, outSR) == (TimedOutStop, arrivals[1..])
    decreases |arrivals|
  {
    if arrivals != [] {
      var rest := arrivals[1..];
      var outR', outSR' := outR, outSR;
      if arrivals[0].Ready? {
        var h := arrivals[0].header;
        outR' := if RunNeeded(inR, h) then Some(Id(h.run)) else outR;
        outSR' := if SubRunNeeded(inSR, h) then Some(SubRunId(Id(h.run), Id(h.subrun))) else outSR;
      }
      FetchTimeout(rest, inR, inSR, resume, outR', outSR');
      if TimedOut in rest {
        var j :| 0 <= j < |rest| && rest[j] == TimedOut;
        assert arrivals[j + 1] == TimedOut;
      }
    }
  }

  /**
   * A data event comes with a run principal when the input run is missing or
   * different, and with a subrun principal when the input subrun is missing
   * or different.
   */
  lemma {:induction false} FetchPrincipals(arrivals: seq<Arrival>, inR: Option<Num>, inSR: Option<SubRunId>, resume: bool,
                                           outR: Option<Num>, outSR: Option<SubRunId>)
    ensures var f := Fetch(arrivals, inR, inSR, resume, outR, outSR).0;
      f.DataEvent? && RunNeeded(inR, f.h) ==> f.outR == Some(Id(f.h.run))
    ensures var f := Fetch(arrivals, inR, inSR, resume, outR, outSR).0;
      f.DataEvent? && SubRunNeeded(inSR, f.h) ==> f.outSR == Some(SubRunId(Id(f.h.run), Id(f.h.subrun)))
    decreases |arrivals|
  {
    if arrivals != [] {
      var rest := arrivals[1..];
      match arrivals[0]
      case TimedOut => FetchPrincipals(rest, inR, inSR, resume, outR, outSR);
      case BufferChanged => FetchPrincipals(rest, inR, inSR, resume, outR, outSR);
      case Ready(h, types, products) =>
        var outR' := if RunNeeded(inR, h) then Some(Id(h.run)) else outR;
        var outSR' := if SubRunNeeded(inSR, h) then Some(SubRunId(Id(h.run), Id(h.subrun))) else outSR;
        FetchPrincipals(rest, inR, inSR, resume, outR', outSR');
    }
  }

  /**
   * A restart after the buffer changed under the reader keeps the principals
   * already made for the abandoned event: here the run principal of run 5
   * comes back with an event of run 4, the input run.
   */
  lemma RestartKeepsPrincipals(p: Product)
    ensures var h5 := RawHeader(5, 0);
      var h4 := RawHeader(4, 0);
      var arrivals := [Ready(h5, [DataType(7)], map[]), Ready(h4, [DataType(7)], map[DataType(7) := p])];
      Fetch(arrivals, Some(Id(4)), None, true, None, None).0 ==
        DataEvent(Some(Id(5)), Some(SubRunId(Id(4), Id(0))), h4, Some(p))
  {
    var h5 := RawHeader(5, 0);
    var h4 := RawHeader(4, 0);
    var arrivals := [Ready(h5, [DataType(7)], map[]), Ready(h4, [DataType(7)], map[DataType(7) := p])];
    assert FirstNonEmpty([DataType(7)]) == Some(DataType(7));
    assert arrivals[1..] == [Ready(h4, [DataType(7)], map[DataType(7) := p])];
  }

  /**
   * The fragment cached for a data event is the product of the first
   * non-empty fragment type of an event the queue delivered with that header.
   */
  lemma {:induction false} FetchCachesFirstNonEmpty(arrivals: seq<Arrival>, inR: Option<Num>, inSR: Option<SubRunId>,
                                                    resume: bool, outR: Option<Num>, outSR: Option<SubRunId>)
    ensures var f := Fetch(arrivals, inR, inSR, resume, outR, outSR).0;
      f.DataEvent? && f.product.Some? ==>
        exists i :: 0 <= i < |arrivals| && arrivals[i].Ready? && arrivals[i].header == f.h &&
          FirstNonEmpty(arrivals[i].types).Some? &&
          FirstNonEmpty(arrivals[i].types).value in arrivals[i].products &&
          f.product.value == arrivals[i].products[FirstNonEmpty(arrivals[i].types).value]
    decreases |arrivals|
  {
    if arrivals != [] {
      var rest := arrivals[1..];
      var f := Fetch(arrivals, inR, inSR, resume, outR, outSR).0;
      match arrivals[0]
      case TimedOut => FetchCachesFirstNonEmpty(rest, inR, inSR, resume, outR, outSR);
        if f.DataEvent? && f.product.Some? {
          var i :| 0 <= i < |rest| && rest[i].Ready? && rest[i].header == f.h &&
            FirstNonEmpty(rest[i].types).Some? && FirstNonEmpty(rest[i].types).value in rest[i].products &&
            f.product.value == rest[i].products[FirstNonEmpty(rest[i].types).value];
          assert arrivals[i + 1] == rest[i];
        }
      case BufferChanged => FetchCachesFirstNonEmpty(rest, inR, inSR, resume, outR, outSR);
        if f.DataEvent? && f.product.Some? {
          var i :| 0 <= i < |rest| && rest[i].Ready? && rest[i].header == f.h &&
            FirstNonEmpty(rest[i].types).Some? && FirstNonEmpty(rest[i].types).value in rest[i].products &&
            f.product.value == rest[i].products[FirstNonEmpty(rest[i].types).value];
          assert arrivals[i + 1] == rest[i];
        }
      case Ready(h, types, products) =>
        var outR' := if RunNeeded(inR, h) then Some(Id(h.run)) else outR;
        var outSR' := if SubRunNeeded(inSR, h) then Some(SubRunId(Id(h.run), Id(h.subrun))) else outSR;
        FetchCachesFirstNonEmpty(rest, inR, inSR, resume, outR', outSR');
        if f.DataEvent? && f.product.Some? && f != Fetch(rest, inR, inSR, resume, outR', outSR').0 {
          assert arrivals[0].Ready?;
        } else if f.DataEvent? && f.product.Some? {
          var i :| 0 <= i < |rest| && rest[i].Ready? && rest[i].header == f.h &&
            FirstNonEmpty(rest[i].types).Some? && FirstNonEmpty(rest[i].types).value in rest[i].products &&
            f.product.value == rest[i].products[FirstNonEmpty(rest[i].types).value];
          assert arrivals[i + 1] == rest[i];
        }
    }
  }

  /** `n` calls of `readNext` with the same input principals. */
  function ReadMany(v: ReaderView, inR: Option<Num>, inSR: Option<SubRunId>, resume: bool, n: nat): (r: (seq<ReadResult>, ReaderView))
    ensures |r.0| == n
    decreases n
  {
    if n == 0 then ([], v)
    else
      var (r1, v1) := ReadNext(v, inR, inSR, resume);
      var (rs, vn) := ReadMany(v1, inR, inSR, resume, n - 1);
      ([r1] + rs, vn)
  }

  /** No super block from the cursor's position on holds corrupt tracker or calorimeter data. */
  predicate Clean(c: CurrentFragments.CursorView)
  {
    forall j :: c.blockCount <= j < |c.blocks| ==>
      CurrentFragments.Extract(c.blocks[j], TRACKER, c.fragmentTimestamp).Ok? &&
      CurrentFragments.Extract(c.blocks[j], CALORIMETER, c.fragmentTimestamp).Ok?
  }

  /**
   * A cached fragment of clean super blocks gives one art event per remaining
   * super block, without reading the queue, and leaves the cursor empty.
   */
  lemma {:induction false} OneEventPerSuperBlock(v: ReaderView, inR: Option<Num>, inSR: Option<SubRunId>, resume: bool)
    requires ReaderValid(v) && !v.outputFileCloseNeeded && v.cursor.hasReader
    requires v.cursor.blockCount <= |v.cursor.blocks| && Clean(v.cursor)
    ensures var n := |v.cursor.blocks| - v.cursor.blockCount;
      var (rs, w) := ReadMany(v, inR, inSR, resume, n);
      (forall k :: 0 <= k < n ==> rs[k].Emit? && rs[k].products.Some?) &&
      CurrentFragments.ViewEmpty(w.cursor) && w.cursor.blockCount == |v.cursor.blocks| &&
      w.incoming == v.incoming && w.header == v.header && !w.outputFileCloseNeeded
    decreases |v.cursor.blocks| - v.cursor.blockCount
  {
    var n := |v.cursor.blocks| - v.cursor.blockCount;
    if n > 0 {
      var (r1, v1) := ReadNext(v, inR, inSR, resume);
      assert r1.Emit? && r1.products.Some?;
      assert v1.cursor == CurrentFragments.Advanced(v.cursor);
      OneEventPerSuperBlock(v1, inR, inSR, resume);
    }
  }
}
