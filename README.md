# A verified model of the Mu2e artdaq readout core

This project models in Dafny the sequential logic at the heart of the Mu2e
data-acquisition packages `artdaq-mu2e` and `mu2e-artdaq`, and of the Ruby
run-control tools that configure and drive them. Each part is proved against
a specification of what it promises.

- **Run control** (`tools/DemoControl.rb`). The BoardReader registry folds the
  toy boards that share a host:port into one multi-board reader. The composite
  configuration and the XML-RPC client list are built from it. Transition
  commands go out in waves, one group of processes after another, with a
  timeout per role and failures caught. The `stop` transition polls an event
  count or a run duration with an adaptive pause.
- **Configuration generators** (`tools/generate*.rb`). Each one fills the
  `%{name}` placeholders of a fixed FHiCL document. A document is a sequence
  of literal pieces and named placeholders. A replacement becomes a literal
  piece and is not scanned for placeholders again, which Ruby's later `gsub!`
  calls would do (see "Left out").
- **Fragment generators.** These are the DTC receivers (event building,
  sub-event, block building, CRV), the STM UDP receiver and the overlay test
  generator. They cover the timestamp unwrap, the sequence-ID formula, the
  bounded retry loop, the capped set of served request IDs, the empty-fragment
  round robin, packet splitting and bit packing. What the DTC library or a
  socket returns is an input.
- **Offline input.** The event-ID counter, the cursor that cuts super blocks
  into per-ROC fragments, and the decisions `readNext` makes about run,
  subrun and event principals.
- **art modules.** These are the two `DTCDataVerifier` copies, the
  `DTCEventVerifier` and `CRVGR` filters, `Mu2eRequestSender` and
  `Mu2eProducer`.

Code that updates state in place is modelled as classes whose methods change
their fields. Each such method is proved against a function that specifies
the new state. Pure string builders are modelled as functions with lemmas.
Fixed-width integers are reduced explicitly where the source wraps (`U64`,
`Int16`, `Int32`).

Where "## Findings" lists a defect, its corrected member, and the members
that build on it, model the evidently intended behaviour rather than the code;
the row's as-written member models the code. The "## Model" rows of such
members end with "(corrected; Findings row N)".

Some behaviour follows from the code as written and is worth knowing.

- The artdaq-mu2e CRV receiver in no-request mode asks again for the same tag
  until the highest tag seen rises.
- A CRV request whose DTC read fails stays in the served set, so it is never
  retried.
- `Mu2eRequestSender` keeps its pending requests in step with its list only
  while every event brings a new sequence ID. `RepeatedIdLosesRequest` shows
  how a repeated ID breaks this.
- The STM receiver's time-out test is an equality, so the run ends at most
  once per run of time-outs (`TimeoutReportedOnce`).

## Model

| member | source | states |
|---|---|---|
| Common.NatToString | tools/generateAggregator.rb:48-56 | Ruby's `String(n)` of a natural number is a non-empty run of decimal digits with no leading zero except for 0 itself |
| Common.IntToString | tools/generateAggregator.rb:48-56 | `String(i)` is non-empty and starts with `-` exactly when the integer is negative |
| Common.DigitsValueOfNatToString | tools/generateAggregator.rb:48-56 | the decimal digits `String(n)` prints read back as n |
| Common.ParseInteger | tools/generateAggregatorMain.rb:109 | Ruby's `Integer(text)` accepts only non-empty text; everything else is an error |
| Common.ParseUnsigned | tools/DemoControl.rb:768 | an accepted unsigned numeral is all digits, and without a leading zero its value is its decimal value |
| Common.IntegerOfString | tools/DemoControl.rb:768 | `Integer(String(i)) == i` for every integer: the round trip the scripts rely on when they pass numbers as text |
| Templates.Fill | tools/generateAggregator.rb:47 | one `gsub!` replaces every occurrence of the placeholder by the value, leaves every other piece alone and leaves no occurrence of that placeholder |
| Templates.FillAll | tools/generateAggregator.rb:47-64 | a chain of `gsub!` calls keeps the template's piece count |
| Templates.FillAllAt | tools/generateAggregator.rb:47-64 | after the chain each placeholder it names holds the value of its first replacement and every other piece is unchanged |
| Templates.FillAllKeepsLit | tools/generateAggregator.rb:47-64 | literal text is never changed by a replacement |
| Templates.FillAllAtHole | tools/generateAggregator.rb:47-64 | a placeholder first named at position k of the chain receives the k-th value |
| Templates.FillAllHoles | tools/generateAggregator.rb:47-64 | after the chain exactly the placeholders it does not name are left |
| Templates.FillAllComplete | tools/generateAggregator.rb:47-64 | a template whose placeholders are all named is left with none |
| Templates.LookupAt | tools/generateAggregator.rb:47-64 | the value a chain gives a name is the one paired with its first occurrence |
| Templates.RenderAppend | tools/generateAggregator.rb:47-64 | rendering a concatenation of templates is concatenating their renderings |
| SeenIds.Insert | artdaq-mu2e/Generators/CRVReceiver_generator.cc:92 | `std::set::insert` keeps the set ascending, adds exactly the new ID and grows only when the ID was absent |
| SeenIds.FirstIsSmallest | artdaq-mu2e/Generators/CRVReceiver_generator.cc:95 | the first element of the ascending set, the one `erase(begin())` removes, is its smallest |
| SeenIds.RememberFacts | artdaq-mu2e/Generators/CRVReceiver_generator.cc:92-96 | remembering an ID keeps the set ascending and within the 1000 cap; below the cap it adds the ID, at the cap it also drops the smallest, so a new ID below all others is forgotten at once |
| EventIds.Next | mu2e-artdaq/ArtModules/detail/EventIDHandler.hh:18-29 | `update` takes over the raw event's run and subrun and leaves a 32-bit event number |
| EventIds.EventIDHandler.constructor | mu2e-artdaq/ArtModules/detail/EventIDHandler.hh:36-38 | run, subrun and event all start at zero |
| EventIds.EventIDHandler.Update | mu2e-artdaq/ArtModules/detail/EventIDHandler.hh:18-29 | the handler's new state is `Next` of the old state and the raw event |
| EventIds.NextCounts | mu2e-artdaq/ArtModules/detail/EventIDHandler.hh:18-29 | a changed run or subrun restarts the event count at 1, an unchanged pair counts on by one modulo 2^32, and the count is zero only after a wrap |
| EventIds.Streak | mu2e-artdaq/ArtModules/detail/EventIDHandler.hh:18-29 | the final streak of events with the last event's ids is at least one event long and no longer than the sequence |
| EventIds.ReplayIsStreak | mu2e-artdaq/ArtModules/detail/EventIDHandler.hh:18-33 | after any sequence of raw events the handler holds the last run and subrun and an event number equal to the final streak's length modulo 2^32 |
| EventIds.ModSucc | mu2e-artdaq/ArtModules/detail/EventIDHandler.hh:28 | counting on from a count reduced modulo 2^32 is counting on from the count itself |
| EventIds.EventNumberPositive | mu2e-artdaq/ArtModules/detail/EventIDHandler.hh:18-33 | within one run and subrun, fewer than 2^32 events are numbered 1, 2, 3, ... with no zero |
| DtcReads.AfterReads | artdaq-mu2e/Generators/Mu2eEventReceiverBase.cc:121-136 | reading consumes replies and never creates any |
| DtcReads.RetryFromFacts | artdaq-mu2e/Generators/Mu2eEventReceiverBase.cc:121-136 | from read k on, the loop stops at the first non-empty reply, or after the sixth read with nothing |
| DtcReads.RetryFirstData | artdaq-mu2e/Generators/Mu2eEventReceiverBase.cc:121-141 | the retry loop makes one to six reads, returns the first non-empty reply, and comes back empty exactly when all six reads were empty |
| DtcReads.ReadWithRetries | artdaq-mu2e/Generators/Mu2eEventReceiverBase.cc:121-136 | the `while (data.size() == 0 && retryCount >= 0)` loop returns the reply of `Retry` and consumes exactly the replies it read |
| DtcReads.UnwrapAll | artdaq-mu2e/Generators/Mu2eEventReceiverBase.cc:189-201 | unwrapping a stream stamps every timestamp once |
| DtcReads.MaxOf | artdaq-mu2e/Generators/Mu2eEventReceiverBase.cc:193-196 | the maximum of a start value and a stream bounds all of them and is one of them |
| DtcReads.UnwrapAllHighest | artdaq-mu2e/Generators/Mu2eEventReceiverBase.cc:189-201 | after a stream `highest_timestamp_seen_` is the largest of the stream and the old value, and `timestamp_loops_` never decreases |
| DtcReads.UnwrapLoops | artdaq-mu2e/Generators/Mu2eEventReceiverBase.cc:189-201 | the loop count moves, by one, only when a timestamp equals the highest seen, and the highest seen never falls |
| DtcReads.UnwrapIncreasingUnchanged | artdaq-mu2e/Generators/Mu2eEventReceiverBase.cc:193-196 | a strictly increasing stream above the highest seen passes through unchanged with no loop counted |
| DtcReads.UnwrapSecondPassRepeats | artdaq-mu2e/Generators/Mu2eEventReceiverBase.cc:189-201 | played back twice, the stream 1, 2 comes out 1, 2, 1, 2: the offset grows only after the highest value repeats |
| DtcReads.UnwrapAllCons | artdaq-mu2e/Generators/Mu2eEventReceiverBase.cc:189-201 | unwrapping a stream is unwrapping its first timestamp, then the rest from the state it leaves |
| DtcReads.SequenceId | artdaq-mu2e/Generators/Mu2eEventReceiverBase.cc:248-251 | `getCurrentSequenceID` is a 64-bit `size_t` value |
| DtcReads.SequenceIdsInterleave | artdaq-mu2e/Generators/Mu2eEventReceiverBase.cc:248-251 | without overflow the ID is (ev_counter - 1) * n_dtcs + dtc_offset + 1, and the DTCs of one chain never share an ID: equal IDs mean the same counter and offset |
| DtcReads.SequenceIdExact | artdaq-mu2e/Generators/Mu2eEventReceiverBase.cc:248-251 | without overflow the `size_t` formula is the exact integer formula |
| DtcReads.MulMonotone | artdaq-mu2e/Generators/Mu2eEventReceiverBase.cc:250 | a larger event counter gives a larger product with the chain length |
| DtcReads.FindBinFrom | artdaq-mu2e/Generators/Mu2eEventReceiverBase.cc:109 | the search from position k finds the first `.bin` at or after k, and none means there is none |
| DtcReads.FindBin | artdaq-mu2e/Generators/Mu2eEventReceiverBase.cc:109 | `find(".bin")` gives the first occurrence, or `npos` when there is none |
| DtcReads.TimeStamp | artdaq-mu2e/Generators/Mu2eEventReceiverBase.cc:111 | the stamp is `_` followed by at least one digit of the time |
| DtcReads.TimestampedFileNameInserts | artdaq-mu2e/Generators/Mu2eEventReceiverBase.cc:107-114 | the stamp lands right in front of the first `.bin`, everything before and after is kept, and a name without `.bin` is unchanged |
| EventReceiver.GetNextNoData | artdaq-mu2e/Generators/Mu2eEventReceiver_generator.cc:126-161 | a stop request returns false before anything is requested or read; in simulation mode the event counter's window is requested first; six empty reads give no fragment and leave the counter and unwrap state alone |
| EventReceiver.GetNextData | artdaq-mu2e/Generators/Mu2eEventReceiver_generator.cc:164-219 | a read with data gives one fragment numbered with the event counter before the increment, holding every event read behind the first event's tag and EVB mode; the counter goes up once and the highest tag seen never drops |
| EventReceiver.SuccessiveFragmentsConsecutive | artdaq-mu2e/Generators/Mu2eEventReceiver_generator.cc:213-219 | two emitting calls in a row number their fragments with consecutive counters, so no sequence ID repeats while the counter does not overflow |
| EventReceiver.Mu2eEventReceiver.constructor | artdaq-mu2e/Generators/Mu2eEventReceiver_generator.cc:22-31 | `raw_output_enable` defaults to false and `raw_output_file` to "/tmp/Mu2eReceiver.bin"; the unwrap state starts at zero |
| EventReceiver.Mu2eEventReceiver.Start | artdaq-mu2e/Generators/Mu2eEventReceiver_generator.cc:107-117 | with raw output on, the stream is opened under the configured name with the time stamp inserted before `.bin`; with it off nothing is opened |
| EventReceiver.Mu2eEventReceiver.GetNext | artdaq-mu2e/Generators/Mu2eEventReceiver_generator.cc:119-219 | `getNext_` returns, emits and leaves the state that the reference `GetNextSpec` gives for this copy |
| EventReceiver.LegacyMu2eEventReceiver.constructor | mu2e-artdaq/Generators/Mu2eEventReceiver_generator.cc:21-30 | the older copy starts with the unwrap state at zero and no requests |
| EventReceiver.LegacyMu2eEventReceiver.GetNext | mu2e-artdaq/Generators/Mu2eEventReceiver_generator.cc:101-210 | the older copy's `getNext_` follows the same reference, except that six empty reads always return false |
| EventReceiverBase.PackEventsCarriesAll | artdaq-mu2e/Generators/Mu2eEventReceiverBase.cc:203-226 | the packed fragment carries the bytes of every event read, in order, under the given sequence ID, fragment ID and timestamp; it is a single DTCEVT fragment exactly when one event was read (corrected; Findings row 1) |
| EventReceiverBase.NoDataNoFragment | artdaq-mu2e/Generators/Mu2eEventReceiverBase.cc:121-141 | after six empty reads nothing is emitted, the counters are unchanged, and the call succeeds only with the simulator disabled |
| EventReceiverBase.DataGivesOneFragment | artdaq-mu2e/Generators/Mu2eEventReceiverBase.cc:144-230 | a read with data gives exactly one fragment under `seq_in`, or the chain's sequence ID when `seq_in` is 0, stamped with the first event's unwrapped tag; the counter moves by one and the first tag seen is set only once |
| EventReceiverBase.ContainerEntriesEmptyAsWritten | artdaq-mu2e/Generators/Mu2eEventReceiverBase.cc:218-225 | as written, the entries of a container built from two events carry none of their events' bytes, while the corrected packing carries both |
| EventReceiverBase.Mu2eEventReceiverBase.constructor | artdaq-mu2e/Generators/Mu2eEventReceiverBase.cc:10-23 | `n_dtcs_in_chain` defaults to 1, `dtc_position_in_chain` to 0 and `raw_output_file` to "/tmp/Mu2eReceiver.bin" |
| EventReceiverBase.Mu2eEventReceiverBase.CurrentSequenceId | artdaq-mu2e/Generators/Mu2eEventReceiverBase.cc:248-251 | without overflow the sequence ID is (ev_counter - 1) * n_dtcs + dtc_offset + 1 |
| EventReceiverBase.Mu2eEventReceiverBase.Start | artdaq-mu2e/Generators/Mu2eEventReceiverBase.cc:104-116 | with raw output on, the stream is opened under the configured name with the time stamp inserted before `.bin` |
| EventReceiverBase.Mu2eEventReceiverBase.GetNextDTCFragment | artdaq-mu2e/Generators/Mu2eEventReceiverBase.cc:118-246 | `getNextDTCFragment` appends to `frags` what the reference `NextFragment` gives and leaves its state (corrected; Findings row 1) |
| SubEventReceiver.TagLow | artdaq-mu2e/Generators/Mu2eSubEventReceiver_generator.cc:271 | `event_tag_low` fits in 32 bits |
| SubEventReceiver.TagHigh | artdaq-mu2e/Generators/Mu2eSubEventReceiver_generator.cc:272 | `event_tag_high` fits in 16 bits |
| SubEventReceiver.TagSplitRoundTrip | artdaq-mu2e/Generators/Mu2eSubEventReceiver_generator.cc:271-272 | a 48-bit event-window tag is recovered from the two header fields |
| SubEventReceiver.BuildEvent | artdaq-mu2e/Generators/Mu2eSubEventReceiver_generator.cc:262-282 | the event built around one sub-event names one DTC, carries the given tag and the sub-event's bytes, and counts the header plus those bytes |
| SubEventReceiver.PackSubEvents | artdaq-mu2e/Generators/Mu2eSubEventReceiver_generator.cc:260-361 | one fragment per sub-event, in order |
| SubEventReceiver.U64Step | artdaq-mu2e/Generators/Mu2eSubEventReceiver_generator.cc:360 | adding one to a `size_t` counter and then j is adding j + 1 |
| SubEventReceiver.PackSubEventsCounter | artdaq-mu2e/Generators/Mu2eSubEventReceiver_generator.cc:260-361 | the event counter moves once per sub-event, in `size_t` arithmetic |
| SubEventReceiver.EachSubEventOwnTag | artdaq-mu2e/Generators/Mu2eSubEventReceiver_generator.cc:260-361 | with each sub-event keeping its own tag, the j-th fragment carries that tag split into the header fields, its own bytes, and the sequence ID of the j-th counter value (corrected; Findings row 2) |
| SubEventReceiver.CounterIdsDistinct | artdaq-mu2e/Generators/Mu2eSubEventReceiver_generator.cc:379-382 | distinct counter values at one chain position give distinct sequence IDs while nothing overflows |
| SubEventReceiver.SubEventSequenceIdsDistinct | artdaq-mu2e/Generators/Mu2eSubEventReceiver_generator.cc:355-360 | the sub-events of one read get pairwise distinct sequence IDs in a chain whose counter does not overflow |
| SubEventReceiver.SharedTagAsWritten | artdaq-mu2e/Generators/Mu2eSubEventReceiver_generator.cc:253-272 | as written, sub-events with tags 10 and 11 both go out with tag and timestamp 10; the corrected packing gives 10 and 11 |
| SubEventReceiver.EventWindowTag | artdaq-mu2e/Generators/Mu2eSubEventReceiver_generator.cc:115-123 | `getCurrentEventWindowTag` is 0 until a first tag has been seen |
| SubEventReceiver.GetNextOutcomes | artdaq-mu2e/Generators/Mu2eSubEventReceiver_generator.cc:86-112 | a stop request returns false at once; in simulation mode the current window tag is requested first; six empty reads give no fragment and success only with the simulator off; a read with data gives one fragment per sub-event |
| SubEventReceiver.Mu2eSubEventReceiver.constructor | artdaq-mu2e/Generators/Mu2eSubEventReceiver_generator.cc:125-137 | `n_dtcs_in_chain` defaults to 1 and `dtc_position_in_chain` to 0; the unwrap state and first tag start at zero |
| SubEventReceiver.Mu2eSubEventReceiver.GetNext | artdaq-mu2e/Generators/Mu2eSubEventReceiver_generator.cc:86-112 | `getNext_` returns, emits and leaves the state that the reference `GetNextSpec` gives |
| SubEventReceiver.Mu2eSubEventReceiver.GetNextDTCFragment | artdaq-mu2e/Generators/Mu2eSubEventReceiver_generator.cc:227-377 | six empty reads give no fragment and success only in mode 0; a read with data gives the fragments and counters of `PackSubEvents`, each sub-event keeping its own tag (corrected; Findings row 2) |
| SubEventReceiver.PackAll | artdaq-mu2e/Generators/Mu2eSubEventReceiver_generator.cc:260-361 | the loop over the sub-events of one read yields the fragments and counters of `PackSubEvents` |
| SubEventReceiver.PackStep | artdaq-mu2e/Generators/Mu2eSubEventReceiver_generator.cc:262-360 | the loop body unwraps the tag, builds the event, emits its fragment and counts it |
| SubEventReceiver.PackSubEventsStep | artdaq-mu2e/Generators/Mu2eSubEventReceiver_generator.cc:260-361 | packing from sub-event i is packing sub-event i, then the rest from the counters it leaves |
| CrvReceivers.Ids | artdaq-mu2e/Generators/CRVReceiver_generator.cc:84-101 | the sequence IDs of a batch of requests, one per request, in order |
| CrvReceivers.Serve | artdaq-mu2e/Generators/CRVReceiver_generator.cc:84-101 | the `for (auto& req : reqs)` loop keeps the seen-ID set ascending and within its 1000 cap |
| CrvReceivers.ServeNewAt | artdaq-mu2e/Generators/CRVReceiver_generator.cc:90-100 | a request not seen before is remembered and read; a failed read ends the loop with false, otherwise the loop goes on from the state the read left |
| CrvReceivers.NextFragmentShape | artdaq-mu2e/Generators/Mu2eEventReceiverBase.cc:137-226 | one read under a non-zero `seq_in` gives at most one fragment, numbered with that ID, and none when it fails |
| CrvReceivers.ForwardedAfterFirst | artdaq-mu2e/Generators/CRVReceiver_generator.cc:84-101 | the requests the rest of a pass reads come after the first request and were not seen before it |
| CrvReceivers.ConsAscending | artdaq-mu2e/Generators/CRVReceiver_generator.cc:84 | putting a smaller sequence ID in front keeps a batch in the ascending order of a `std::map` |
| CrvReceivers.ConsIds | artdaq-mu2e/Generators/CRVReceiver_generator.cc:99 | fragments numbered by the first request or by a later one are numbered by a request of the whole pass |
| CrvReceivers.ForwardsCons | artdaq-mu2e/Generators/CRVReceiver_generator.cc:84-101 | serving the first request and then the rest keeps the promise that only new requests are read |
| CrvReceivers.ServeForwards | artdaq-mu2e/Generators/CRVReceiver_generator.cc:84-101 | every pass over ascending requests reads only requests not seen before, and every fragment it emits carries the ID of such a request |
| CrvReceivers.TailAscending | artdaq-mu2e/Generators/CRVReceiver_generator.cc:84 | the rest of an ascending batch is ascending and above its first ID |
| CrvReceivers.NotEvicted | artdaq-mu2e/Generators/CRVReceiver_generator.cc:92-96 | remembering the first request can erase only a smaller ID, so a later request forgotten afterwards was not remembered before |
| CrvReceivers.MadeUpRequest | artdaq-mu2e/Generators/CRVReceiver_generator.cc:55-59 | no-request mode asks for the highest tag seen plus one, as ID and as tag, in 64-bit arithmetic |
| CrvReceivers.GetNextOutcomes | artdaq-mu2e/Generators/CRVReceiver_generator.cc:47-104 | without a request buffer, or when stopping, `getNext_` returns false and changes nothing; otherwise it reads only requests not seen before and numbers every fragment with the ID of such a request |
| CrvReceivers.NoRequestModeRepeatServesNothing | artdaq-mu2e/Generators/CRVReceiver_generator.cc:55-59 | once the made-up ID has been served, a call whose highest tag did not rise serves nothing, reports success and leaves the state as it was, so every later call does the same |
| CrvReceivers.FailedRequestNotRetried | artdaq-mu2e/Generators/CRVReceiver_generator.cc:90-100 | a request whose read failed is remembered all the same and skipped when asked for again |
| CrvReceivers.CrvReceiver.constructor | artdaq-mu2e/Generators/CRVReceiver_generator.cc:33-41 | after the base generator, `highest_timestamp_seen_` is set to `no_request_mode_first_timestamp` (default 0); `no_request_mode` defaults to false |
| CrvReceivers.CrvReceiver.GetNext | artdaq-mu2e/Generators/CRVReceiver_generator.cc:47-104 | `getNext_` returns, emits and leaves the state that the reference `GetNextSpec` gives |
| CrvReceivers.CrvReceiver.ServeNew | artdaq-mu2e/Generators/CRVReceiver_generator.cc:90-100 | the loop body for a new request remembers its ID, then appends what `getNextDTCFragment` gives under that ID |
| CrvReceivers.CrvReceiver.ServeAll | artdaq-mu2e/Generators/CRVReceiver_generator.cc:84-101 | the request loop returns, emits and leaves the state that `Serve` gives |
| CrvReceivers.PayloadWords | mu2e-artdaq/Generators/CRVReceiver_generator.cc:242 | `packetCount * sizeof(packet_t) / sizeof(RawDataType)` words hold the packets exactly |
| CrvReceivers.Packets | mu2e-artdaq/Generators/CRVReceiver_generator.cc:249-251 | a block's copied bytes are its header packet and the packets it counts, from the start of the block |
| CrvReceivers.Copied | mu2e-artdaq/Generators/CRVReceiver_generator.cc:245-253 | the packets of all blocks back to back fill 16 bytes per counted packet |
| CrvReceivers.PacketsSnoc | mu2e-artdaq/Generators/CRVReceiver_generator.cc:226-252 | one block more adds its header and packets to the count and its packets to the copy |
| CrvReceivers.CopiedStep | mu2e-artdaq/Generators/CRVReceiver_generator.cc:247-253 | the copy loop's step: a buffer holding the first i blocks' packets, then block i's, holds the first i + 1 blocks' |
| CrvReceivers.CopiedPrefix | mu2e-artdaq/Generators/CRVReceiver_generator.cc:245-253 | the packets of a leading run of blocks begin the packets of them all |
| CrvReceivers.CopiedLayout | mu2e-artdaq/Generators/CRVReceiver_generator.cc:242-253 | block i's packets sit at the offset of the packets and headers before it, and the packets fill the fragment's payload words exactly |
| CrvReceivers.EmulatorMode | mu2e-artdaq/Generators/CRVReceiver_generator.cc:99-116 | detector-emulator mode is on when a simulation file is named, by `DTCLIB_SIM_FILE` first and `sim_file` otherwise |
| CrvReceivers.CrvFragment | mu2e-artdaq/Generators/CRVReceiver_generator.cc:242 | the fragment of a request carries the request's ID and tag, the generator's fragment ID and type |
| CrvReceivers.LegacyRequest | mu2e-artdaq/Generators/CRVReceiver_generator.cc:172-258 | serving a new request returns the data of the retry loop, asks the CFO for its tag (0 in emulator mode) and counts an event only when data came back |
| CrvReceivers.LegacyServe | mu2e-artdaq/Generators/CRVReceiver_generator.cc:165-270 | the request loop keeps the seen-ID set ascending and within its cap |
| CrvReceivers.LegacyServeDataAt | mu2e-artdaq/Generators/CRVReceiver_generator.cc:165-270 | a new request whose read brings data gives its fragment, then the loop goes on from the state it left |
| CrvReceivers.LegacyServeOne | mu2e-artdaq/Generators/CRVReceiver_generator.cc:172-258 | one new request: the CFO is asked for its tag, and the call succeeds exactly when data came back, with one fragment of the blocks' packets and one more event counted |
| CrvReceivers.LegacyFragmentsAnswerRequests | mu2e-artdaq/Generators/CRVReceiver_generator.cc:165-270 | every fragment of a call answers a request of that call not seen before, under its ID and tag |
| CrvReceivers.LegacyServeStep | mu2e-artdaq/Generators/CRVReceiver_generator.cc:165-270 | the step of that proof for a request not seen before |
| CrvReceivers.LegacyCrvReceiver.constructor | mu2e-artdaq/Generators/CRVReceiver_generator.cc:89-117 | `fragment_type` defaults to CRV and `sim_file` to none, and `DTCLIB_SIM_FILE` overrides `sim_file` |
| CrvReceivers.LegacyCrvReceiver.GetNext | mu2e-artdaq/Generators/CRVReceiver_generator.cc:135-274 | `getNext_` returns, emits and leaves the state that the reference `LegacyGetNextSpec` gives |
| CrvReceivers.LegacyCrvReceiver.ServeRequest | mu2e-artdaq/Generators/CRVReceiver_generator.cc:172-258 | the loop body for a new request leaves the state `LegacyRequest` gives and, when data came back, yields `CrvFragment` |
| CrvReceivers.LegacyCrvReceiver.AskAndRead | mu2e-artdaq/Generators/CRVReceiver_generator.cc:172-205 | remembers the ID, records the CFO request and consumes exactly the replies the retry loop read |
| CrvReceivers.LegacyCrvReceiver.CopyPackets | mu2e-artdaq/Generators/CRVReceiver_generator.cc:215-253 | the fragment payload is the blocks' packets back to back |
| CrvReceivers.LegacyCrvReceiver.CopyBlocks | mu2e-artdaq/Generators/CRVReceiver_generator.cc:245-253 | the block-by-block `memcpy` loop fills the preallocated payload with the blocks' packets |
| CrvReceivers.LegacyCrvReceiver.CountPackets | mu2e-artdaq/Generators/CRVReceiver_generator.cc:215-239 | `packetCount` is the headers and packets of all blocks |
| CrvReceivers.LegacyCrvReceiver.CopyBlock | mu2e-artdaq/Generators/CRVReceiver_generator.cc:250-251 | one `memcpy` writes the block's packets at the offset and leaves the bytes before it alone |
| CurrentFragments.ReadHeader | mu2e-artdaq/ArtModules/detail/CurrentFragment.cc:38-43 | the header at the cursor decodes exactly when one is there with a non-zero byte count; otherwise the decoder's exception ends the loop (corrected; Findings row 4) |
| CurrentFragments.Merged | mu2e-artdaq/ArtModules/detail/CurrentFragment.cc:48-71 | merging same-ROC blocks never lowers the byte count |
| CurrentFragments.MergedIsChain | mu2e-artdaq/ArtModules/detail/CurrentFragment.cc:48-71 | the merged byte count covers exactly the unbroken chain of following blocks of the same subsystem, ID, ring and hop count, and ends where that chain stops |
| CurrentFragments.CeilWordsLeast | mu2e-artdaq/ArtModules/detail/CurrentFragment.cc:75-76 | the fragment size is the least number of 64-bit words that hold the bytes |
| CurrentFragments.Walk | mu2e-artdaq/ArtModules/detail/CurrentFragment.cc:31-91 | the cursor of `extractFragmentsFromBlock` never moves backwards |
| CurrentFragments.CountWalk | mu2e-artdaq/ArtModules/detail/CurrentFragment.cc:140-167 | the cursor of `getFragmentCount` never moves backwards |
| CurrentFragments.WalkFragmentsMatch | mu2e-artdaq/ArtModules/detail/CurrentFragment.cc:45-82 | every fragment made comes from a readable header of the requested subsystem inside the super block, with that header's timestamp as sequence ID, its EVB mode as fragment ID, the merged size in words and the enclosing fragment's timestamp |
| CurrentFragments.CountOverChain | mu2e-artdaq/ArtModules/detail/CurrentFragment.cc:145-167 | counting across a chain of same-ROC blocks ends where the chain ends and counts each of them |
| CurrentFragments.WalkWithinCount | mu2e-artdaq/ArtModules/detail/CurrentFragment.cc:31-91 | extraction and counting walk to the same place, and extraction never makes more fragments than the count |
| CurrentFragments.ExtractWithinCount | mu2e-artdaq/ArtModules/detail/CurrentFragment.cc:92-95 | extraction throws DataCorruption exactly when counting does, and otherwise makes at most as many fragments as `getFragmentCount` returns |
| CurrentFragments.OverrunNeedsLongBlock | mu2e-artdaq/ArtModules/detail/CurrentFragment.cc:160-172 | the cursor overruns the end only when some readable block's byte count reaches past the end of the super block |
| CurrentFragments.ExtractFrom | mu2e-artdaq/ArtModules/detail/CurrentFragment.cc:22-96 | the extraction loop returns the fragments of `Walk`, or DataCorruption when the cursor shot past the end |
| CurrentFragments.ExtractStep | mu2e-artdaq/ArtModules/detail/CurrentFragment.cc:36-90 | one pass of the block loop either stops on an unreadable header or moves the cursor forward and emits the block's fragment when it matches |
| CurrentFragments.MergeSameRoc | mu2e-artdaq/ArtModules/detail/CurrentFragment.cc:48-71 | the inner loop adds the byte counts of the following same-ROC blocks, as `Merged` |
| CurrentFragments.CountFrom | mu2e-artdaq/ArtModules/detail/CurrentFragment.cc:131-173 | the counting loop returns the number of blocks of the subsystem, or DataCorruption when the cursor shot past the end |
| CurrentFragments.ReadHeaderAsWritten | mu2e-artdaq/ArtModules/detail/CurrentFragment.cc:41-43 | as written, any header present decodes, whatever its byte count |
| CurrentFragments.ZeroByteCountStallsAsWritten | mu2e-artdaq/ArtModules/detail/CurrentFragment.cc:43-84 | as written, a header with byte count 0 leaves the cursor where it is, in the outer loop and in the merge loop alike, so both loop forever |
| CurrentFragments.EventNumberCounter.constructor | mu2e-artdaq/ArtModules/detail/CurrentFragment.cc:12 | the process-wide `event_num` starts at 0 |
| CurrentFragments.DebugTimestamp | mu2e-artdaq/ArtModules/detail/CurrentFragment.cc:190 | `(uint64_t(getpid()) << 16) + n` is a 64-bit value |
| CurrentFragments.DebugTimestampIncreases | mu2e-artdaq/ArtModules/detail/CurrentFragment.cc:190 | successive debug timestamps strictly increase while they stay below 2^64 |
| CurrentFragments.FreshView | mu2e-artdaq/ArtModules/detail/CurrentFragment.cc:14-20 | a fresh cursor stands at the first super block with no block processed |
| CurrentFragments.Advanced | mu2e-artdaq/ArtModules/detail/CurrentFragment.hh:25-29 | `advanceOneBlock` counts one more super block and keeps the fragment |
| CurrentFragments.CurrentFragment.Default | mu2e-artdaq/ArtModules/detail/CurrentFragment.hh:14 | a default cursor has no reader and a null `current_`, so it is empty |
| CurrentFragments.CurrentFragment.constructor | mu2e-artdaq/ArtModules/detail/CurrentFragment.cc:14-20 | the cursor points at the first super block, with no block processed |
| CurrentFragments.CurrentFragment.ProcessedSuperBlocks | mu2e-artdaq/ArtModules/detail/CurrentFragment.hh:20-23 | the number of super blocks processed is the index of the one `current_` points at |
| CurrentFragments.CurrentFragment.AdvanceOneBlock | mu2e-artdaq/ArtModules/detail/CurrentFragment.hh:25-29 | the block count goes up by one and `current_` points at that super block |
| CurrentFragments.CurrentFragment.ExtractFragmentsFromBlock | mu2e-artdaq/ArtModules/detail/CurrentFragment.cc:22-96 | extraction from the current super block gives `Extract` of it |
| CurrentFragments.CurrentFragment.GetFragmentCount | mu2e-artdaq/ArtModules/detail/CurrentFragment.cc:131-173 | counting over the current super block gives `Count` of it |
| CurrentFragments.CurrentFragment.GetCurrentTimestamp | mu2e-artdaq/ArtModules/detail/CurrentFragment.cc:175-194 | in debug mode the counter goes up and the timestamp is the debug one; otherwise it is the first header's timestamp, and nothing where that header does not decode |
| CurrentFragments.CurrentFragment.MakeMu2eEventHeader | mu2e-artdaq/ArtModules/detail/CurrentFragment.cc:98-129 | debug mode gives the debug timestamp with EVB mode 0; otherwise the first header's timestamp and EVB mode |
| OfflineSource.SleepMicros | mu2e-artdaq/ArtModules/OfflineFragmentReader_source.cc:120-121 | the pause between two looks at the queue is the waiting time times 1000 µs, capped at 0.1 s |
| OfflineSource.FirstNonEmpty | mu2e-artdaq/ArtModules/OfflineFragmentReader_source.cc:251-262 | the fragment type cached is one of the event's types and not the empty type; there is none exactly when every type is empty |
| OfflineSource.Fetch | mu2e-artdaq/ArtModules/OfflineFragmentReader_source.cc:114-262 | the fetch loop, with its restarts, only consumes attempts from the queue |
| OfflineSource.OfflineFragmentReader.constructor | mu2e-artdaq/ArtModules/OfflineFragmentReader_source.cc:79-88 | a new reader holds no fragment, no header and no pending close, its event IDs are at their initial state, and `waiting_time` and `resume_after_timeout` default to 86400 s and true |
| OfflineSource.OfflineFragmentReader.ReadNextEvent | mu2e-artdaq/ArtModules/OfflineFragmentReader_source.cc:95-289 | `readNext` returns and leaves the reader exactly as the value-level `ReadNext` says, and keeps the cached fragment paired with its event's header |
| OfflineSource.OfflineFragmentReader.ApplyFetched | mu2e-artdaq/ArtModules/OfflineFragmentReader_source.cc:143-262 | the result of a fetch (shutdown, flush event or cached data fragment) is applied as `AfterFetch` says |
| OfflineSource.OfflineFragmentReader.EmitFromCursor | mu2e-artdaq/ArtModules/OfflineFragmentReader_source.cc:266-288 | the event is numbered by the ID handler, given the tracker and calorimeter blocks of the current super block, and the cursor advances one block, as `DataTail` says |
| OfflineSource.FetchEvent | mu2e-artdaq/ArtModules/OfflineFragmentReader_source.cc:117-262 | the waiting loop with its `goto start` restarts computes exactly `Fetch` from no principals |
| OfflineSource.CloseNeededStops | mu2e-artdaq/ArtModules/OfflineFragmentReader_source.cc:101-105 | a pending output-file close makes the call return false, clears the flag and changes nothing else |
| OfflineSource.ReadNextKeepsValid | mu2e-artdaq/ArtModules/OfflineFragmentReader_source.cc:95-289 | every call keeps a cached fragment paired with its event's header |
| OfflineSource.FetchTimeout | mu2e-artdaq/ArtModules/OfflineFragmentReader_source.cc:122-148 | a shutdown on timeout happens only with `resume_after_timeout` off and a timeout among the attempts, and with resuming off a first timeout ends the call at once |
| OfflineSource.FetchPrincipals | mu2e-artdaq/ArtModules/OfflineFragmentReader_source.cc:184-248 | a data event carries a run principal for its run whenever the input run is missing or different, and a subrun principal whenever the input subrun is missing or different |
| OfflineSource.RestartKeepsPrincipals | mu2e-artdaq/ArtModules/OfflineFragmentReader_source.cc:153-257 | a restart after the buffer changed keeps the run principal made for the abandoned event, so an event of the input run can come back with the principal of another run |
| OfflineSource.FetchCachesFirstNonEmpty | mu2e-artdaq/ArtModules/OfflineFragmentReader_source.cc:251-262 | the cached fragment is the product of the first non-empty fragment type of an event the queue delivered with that header |
| OfflineSource.OneEventPerSuperBlock | mu2e-artdaq/ArtModules/OfflineFragmentReader_source.cc:266-288 | a cached fragment of clean super blocks gives one art event with products per remaining super block, without reading the queue, and leaves the cursor empty |
| StmUdpReceivers.Cut | artdaq-mu2e/Generators/STMUDPReceiver_generator.cc:101-126 | cutting stays within the buffer and ends either past the received words, at an event of length -3 that would not move the cursor forward, at an event whose length is below -3 (where `resizeBytes` gets a negative size), or at an event that runs out of the buffer (corrected; Findings row 10) |
| StmUdpReceivers.CutStops | artdaq-mu2e/Generators/STMUDPReceiver_generator.cc:103-105 | past the received words, or at an event missing, cut short or of no length, no event is cut |
| StmUdpReceivers.CutSteps | artdaq-mu2e/Generators/STMUDPReceiver_generator.cc:103-115 | otherwise the first event cut is the three header words and the event-length words at the cursor, and cutting resumes right after it |
| StmUdpReceivers.CutTiles | artdaq-mu2e/Generators/STMUDPReceiver_generator.cc:101-126 | the events cut tile the buffer: together they are exactly the words from the start cursor to where cutting ended |
| StmUdpReceivers.StepAsWritten | artdaq-mu2e/Generators/STMUDPReceiver_generator.cc:105-115 | one pass of the loop as written copies the words from the cursor to the new cursor, `header_len + event_len` further on |
| StmUdpReceivers.MinusThreeStallsAsWritten | artdaq-mu2e/Generators/STMUDPReceiver_generator.cc:103-115 | an event-length word of -3 makes the loop as written copy nothing and leave the cursor where it was, so it never ends; the corrected cut stops there |
| StmUdpReceivers.CutAgreesWithStepAsWritten | artdaq-mu2e/Generators/STMUDPReceiver_generator.cc:105-115 | wherever the corrected cut takes an event, it takes exactly what the loop as written copies |
| StmUdpReceivers.Numbered | artdaq-mu2e/Generators/STMUDPReceiver_generator.cc:110-123 | the k-th fragment made carries event counter `first + k`, the generator's fragment ID and the k-th event's words |
| StmUdpReceivers.NumberedSnoc | artdaq-mu2e/Generators/STMUDPReceiver_generator.cc:110-123 | one more event makes one more fragment, numbered next |
| StmUdpReceivers.GetNextSpec | artdaq-mu2e/Generators/STMUDPReceiver_generator.cc:33-140 | when the call returns, the event counter has moved on by exactly the number of fragments made |
| StmUdpReceivers.GetNextOutcomes | artdaq-mu2e/Generators/STMUDPReceiver_generator.cc:35-126 | a stop resets the receive count and ends the run; a receive of nothing counts a time-out and ends the run only when the count reaches ten times the socket's limit; a receive of data clears the time-out count, adds the packets to the receive count and cuts events whose words together are the buffer up to where cutting ended, at or past the received packets unless an event was malformed; the call throws exactly when cutting reached an event whose length is below -3, and otherwise returns true with one fragment per event numbered on from the event counter; the counter moves on by the events cut either way |
| StmUdpReceivers.LengthBelowMinusThreeThrows | artdaq-mu2e/Generators/STMUDPReceiver_generator.cc:103-111 | a first event whose length word is below -3 makes the call throw: the time-out count is cleared and the packets counted, but no event is counted |
| StmUdpReceivers.Replay | artdaq-mu2e/Generators/STMUDPReceiver_generator.cc:33-140 | successive calls give one answer each |
| StmUdpReceivers.TimeoutsInARow | artdaq-mu2e/Generators/STMUDPReceiver_generator.cc:61-70 | in a run of time-outs the counter goes up by one per call, and a call returns false exactly when the count it reaches equals ten times the limit |
| StmUdpReceivers.TimeoutReportedOnce | artdaq-mu2e/Generators/STMUDPReceiver_generator.cc:66 | because the test is for equality, a run of time-outs ends the run at most once, and never once the count has passed ten times the limit |
| StmUdpReceivers.StmUdpReceiver.constructor | artdaq-mu2e/Generators/STMUDPReceiver_generator.cc:11-27 | the receive count and the time-out counter start at 0 |
| StmUdpReceivers.StmUdpReceiver.GetNext | artdaq-mu2e/Generators/STMUDPReceiver_generator.cc:33-140 | `getNext_` returns or throws, makes the fragments and leaves the state exactly as `GetNextSpec` says |
| StmUdpReceivers.StmUdpReceiver.NextEvent | artdaq-mu2e/Generators/STMUDPReceiver_generator.cc:103-115 | one pass either stops where the cut makes no event, saying whether it throws there, or takes the cut's first event and moves the cursor strictly forward to where the cut goes on |
| StmUdpReceivers.StmUdpReceiver.SplitEvents | artdaq-mu2e/Generators/STMUDPReceiver_generator.cc:101-126 | the splitting loop makes exactly the numbered fragments of the cut events, moves the event counter on by their number, and throws exactly when the cut ended at a length below -3 |
| Mu2eReceiverGenerator.RunFrom | mu2e-artdaq/Generators/Mu2eReceiver_generator.cc:244-250 | the run of blocks copied together from block `i` ends at a block of the read |
| Mu2eReceiverGenerator.RunFromFacts | mu2e-artdaq/Generators/Mu2eReceiver_generator.cc:244-250 | a run is contiguous in memory, its size is the sum of its blocks' sizes, and it is as long as it can be: the next block does not start where it ends |
| Mu2eReceiverGenerator.FirstRunGood | mu2e-artdaq/Generators/Mu2eReceiver_generator.cc:244-250 | the copy that starts at a block is such a run |
| Mu2eReceiverGenerator.RunsFromShape | mu2e-artdaq/Generators/Mu2eReceiver_generator.cc:216-258 | the copies partition the blocks from `i` on, in order, each starting right after the previous one and the last ending at the last block |
| Mu2eReceiverGenerator.RunsFromAllGood | mu2e-artdaq/Generators/Mu2eReceiver_generator.cc:216-258 | every copy from block `i` on is a contiguous, maximal run |
| Mu2eReceiverGenerator.RunsFromTotal | mu2e-artdaq/Generators/Mu2eReceiver_generator.cc:193-258 | the copies together copy the blocks' total size, the `totalSize` the space was reserved for |
| Mu2eReceiverGenerator.RunsFromGood | mu2e-artdaq/Generators/Mu2eReceiver_generator.cc:193-258 | every copy is a good run and together they copy the total size |
| Mu2eReceiverGenerator.CoalesceCoversRead | mu2e-artdaq/Generators/Mu2eReceiver_generator.cc:193-258 | the copies of a read are empty exactly for an empty read, cover all its blocks in order, are good runs, and add up to its total size (corrected; Findings row 3) |
| Mu2eReceiverGenerator.RunFromAsWritten | mu2e-artdaq/Generators/Mu2eReceiver_generator.cc:247-250 | the inner loop as written, which reads `data[i + 1]` before checking it exists, completes only on runs that end before the last block |
| Mu2eReceiverGenerator.CoalesceAsWrittenReadsPastEnd | mu2e-artdaq/Generators/Mu2eReceiver_generator.cc:247 | as written, every read with at least one block ends in a read past the end of the block vector; a single block shows it, where the corrected copy takes one run of that block |
| Mu2eReceiverGenerator.StampFacts | mu2e-artdaq/Generators/Mu2eReceiver_generator.cc:225-242 | the highest timestamp tracks the maximum, the fragment timestamp is set by the first block only, and a first block at 0 below the highest counts a loop and is lifted above every timestamp seen before |
| Mu2eReceiverGenerator.CopyFromFlatten | mu2e-artdaq/Generators/Mu2eReceiver_generator.cc:215-261 | the bytes the copy loop puts in the sub-event are those of the blocks, in order |
| Mu2eReceiverGenerator.CopyFromBytes | mu2e-artdaq/Generators/Mu2eReceiver_generator.cc:193-261 | coalescing changes how bytes are copied, not what: the sub-event is the blocks' bytes in order and, for well-formed blocks, as long as their total size |
| Mu2eReceiverGenerator.CopyFromTimestamps | mu2e-artdaq/Generators/Mu2eReceiver_generator.cc:225-242 | copying a read never lowers the highest timestamp, keeps a fragment timestamp already set, and sets one when the read has blocks |
| Mu2eReceiverGenerator.BlockLoopFacts | mu2e-artdaq/Generators/Mu2eReceiver_generator.cc:153-262 | the block loop keeps one sub-event per block counted, never passes `BLOCK_COUNT_MAX`, throws only before its first block, never loses a sub-event and never lowers the highest timestamp |
| Mu2eReceiverGenerator.BlockLoopThrows | mu2e-artdaq/Generators/Mu2eReceiver_generator.cc:163-190 | an event's block loop throws exactly when it may read a block and all six reads of the first block come back empty |
| Mu2eReceiverGenerator.Int32 | mu2e-artdaq/Generators/Mu2eReceiver_generator.cc:101 | the `size_t` remainder stored in an `int` is its low 32 bits in two's complement, unchanged below 2^31 |
| Mu2eReceiverGenerator.Owner | mu2e-artdaq/Generators/Mu2eReceiver_generator.cc:101-102 | the board that owns an event is one of boards 1 to `fragment_receiver_count` |
| Mu2eReceiverGenerator.RoundRobin | mu2e-artdaq/Generators/Mu2eReceiver_generator.cc:99-113 | among boards 1 to `fragment_receiver_count`, exactly the owner of an event sends its data, and the turn comes round every `fragment_receiver_count` events |
| Mu2eReceiverGenerator.RangeStart | mu2e-artdaq/Generators/Mu2eReceiver_generator.cc:119-129 | the requested range starts at `BLOCK_COUNT_MAX × (ev_counter − 1)` when that fits in 64 bits |
| Mu2eReceiverGenerator.GetNextOutcomes | mu2e-artdaq/Generators/Mu2eReceiver_generator.cc:87-283 | a stop or a counter past `number_of_events_to_generate` returns false and changes nothing; with `send_empty_fragments` and a `fragment_receiver_count` of 0 the round-robin remainder divides by zero, changing nothing; a board whose turn it is not sends one empty fragment; otherwise one MU2E fragment numbered with the counter, whose metadata holds the sim mode, the run number and the board ID, holding at most `BLOCK_COUNT_MAX` sub-events, or a throw exactly when the first block's six reads are empty; every true return moves the counter on by one |
| Mu2eReceiverGenerator.Mu2eReceiver.constructor | mu2e-artdaq/Generators/Mu2eReceiver_generator.cc:23-63 | `board_id` is cast to `uint8_t`; `fragment_receiver_count` defaults to 1, `send_empty_fragments` to false and `number_of_events_to_generate` to `size_t(-1)` |
| Mu2eReceiverGenerator.Mu2eReceiver.GetNext | mu2e-artdaq/Generators/Mu2eReceiver_generator.cc:87-283 | `getNext_` returns, throws or divides by zero, and leaves the receiver, exactly as `GetNextSpec` says (corrected; Findings row 3) |
| Mu2eReceiverGenerator.Mu2eReceiver.SendEmpty | mu2e-artdaq/Generators/Mu2eReceiver_generator.cc:285-293 | `sendEmpty_` emits one empty fragment numbered with the counter and moves the counter on, changing nothing else |
| Mu2eReceiverGenerator.FillEvent | mu2e-artdaq/Generators/Mu2eReceiver_generator.cc:153-262 | the block loop computes exactly `BlockLoop` from no blocks |
| Mu2eReceiverGenerator.FillStep | mu2e-artdaq/Generators/Mu2eReceiver_generator.cc:155-261 | one pass either ends the loop as `BlockLoop` does or counts one more block and leaves the rest of the loop unchanged |
| Mu2eReceiverGenerator.CopySubEvent | mu2e-artdaq/Generators/Mu2eReceiver_generator.cc:215-261 | the copy loop computes exactly `CopyFrom` from the first block |
| Mu2eReceiverGenerator.ExtendRun | mu2e-artdaq/Generators/Mu2eReceiver_generator.cc:244-250 | the inner loop, with the bounds check, computes exactly `RunFrom` (corrected; Findings row 3) |
| OverlayTests.TypeToAdc | mu2e-artdaq/Generators/OverlayTest_generator.cc:28-48 | a type has an ADC width exactly when it is TRK, CAL or CRV, and that width is 16; any other type is a configuration error |
| OverlayTests.AcceptedWithoutWidth | mu2e-artdaq/Generators/OverlayTest_generator.cc:64-69 | the types the constructor accepts but `typeToADC` has no width for are exactly the two toy types |
| OverlayTests.ToULong | mu2e-artdaq/Generators/OverlayTest.hh:69 | the value of a bitset of n bits is below 2^n |
| OverlayTests.ToULongBit | mu2e-artdaq/Generators/OverlayTest.hh:64-69 | reading a bitset's value back bit by bit gives its bits |
| OverlayTests.ToULongOfBits | mu2e-artdaq/Generators/OverlayTest.hh:64-69 | a bitset holding the low bits of a number has the value of those bits |
| OverlayTests.ToULongAppend | mu2e-artdaq/Generators/OverlayTest.hh:64-69 | a bitset's value splits at any bit into its low part plus 2^k times its high part |
| OverlayTests.ToULongHighClear | mu2e-artdaq/Generators/OverlayTest.hh:64-69 | a bitset whose bits from `m` on are clear is below 2^m |
| OverlayTests.BitArraySpec | mu2e-artdaq/Generators/OverlayTest.hh:39-59 | `bitArray` is 128 bits long |
| OverlayTests.BitArrayLayout | mu2e-artdaq/Generators/OverlayTest.hh:43-56 | bit `offset` of word `k` lands at index 127 - 16k - offset |
| OverlayTests.Window | mu2e-artdaq/Generators/OverlayTest.hh:62-70 | the bitset `convertFromBinary` fills is 16 bits wide |
| OverlayTests.ConvertBits | mu2e-artdaq/Generators/OverlayTest.hh:62-70 | the converted value has bit `maxIdx - i` equal to `theArray[i]` for `minIdx < i <= maxIdx` and every other bit clear, so it is below 2^(maxIdx - minIdx); it exists exactly when the window fits 16 bits |
| OverlayTests.BitArrayRoundTrip | mu2e-artdaq/Generators/OverlayTest.hh:39-70 | reading the window of word `k` back out of `bitArray` gives the word |
| OverlayTests.PacketBits | mu2e-artdaq/Generators/OverlayTest_generator.cc:116-126 | the bit array of a header packet is 128 bits long |
| OverlayTests.PacketBitsLayout | mu2e-artdaq/Generators/OverlayTest_generator.cc:117-126 | bit `offset` of byte `b` lands at index 127 - 8b - offset |
| OverlayTests.FragmentIdSpec | mu2e-artdaq/Generators/OverlayTest_generator.cc:113-140 | the fragment ID fits 8 bits |
| OverlayTests.FragmentIdNibbles | mu2e-artdaq/Generators/OverlayTest_generator.cc:128-139 | the ID's high four bits are the ring number (low nibble of byte 3) and its low four the ROC number (low nibble of byte 2), so two header packets give the same ID exactly when they agree on those nibbles |
| OverlayTests.NibblesMakeFragmentId | mu2e-artdaq/Generators/OverlayTest_generator.cc:128-139 | bits 0-3 holding byte 2's low nibble and bits 4-7 byte 3's make the fragment ID |
| OverlayTests.Pack | mu2e-artdaq/Generators/OverlayTest_generator.cc:249-260 | packing makes one word per pair of bytes |
| OverlayTests.Unpack | mu2e-artdaq/Generators/OverlayTest_generator.cc:256 | unpacking makes two bytes per word |
| OverlayTests.UnpackPack | mu2e-artdaq/Generators/OverlayTest_generator.cc:249-260 | unpacking the packed words gives back the bytes |
| OverlayTests.PackAt | mu2e-artdaq/Generators/OverlayTest_generator.cc:252-257 | word `j` is `(byte[2j + 1] << 8) \| byte[2j]` |
| OverlayTests.BlockBytes | mu2e-artdaq/Generators/OverlayTest_generator.cc:228-234 | a block's payload bytes are its header packet and the packets it counts, 16 bytes each, taken from its start |
| OverlayTests.Payload | mu2e-artdaq/Generators/OverlayTest_generator.cc:230-235 | the payload is `128 × (1 + packetCount) / 16` words, 8 to a packet |
| OverlayTests.PayloadRoundTrip | mu2e-artdaq/Generators/OverlayTest_generator.cc:230-260 | unpacking a block's payload gives back the bytes of its header packet and the packets it counts |
| OverlayTests.GetNextSpec | mu2e-artdaq/Generators/OverlayTest_generator.cc:144-312 | every call keeps the block index within the held blocks |
| OverlayTests.ServedFragments | mu2e-artdaq/Generators/OverlayTest_generator.cc:157-311 | a served call makes one fragment per block from the index on, all with the event counter as sequence ID, each with its header's fragment ID, 16 ADC bits and its packets as payload; it leaves no block held and moves both counters on by one |
| OverlayTests.IdsRecordedOnFirstEventOnly | mu2e-artdaq/Generators/OverlayTest_generator.cc:184-188 | fragment IDs are recorded on the first event only, every fragment's ID in block order, and afterwards the list never changes |
| OverlayTests.ToyTypesThrowOnData | mu2e-artdaq/Generators/OverlayTest_generator.cc:40-46 | with a toy type any call that finds a block throws, and no call ever serves a fragment |
| OverlayTests.OverlayTest.constructor | mu2e-artdaq/Generators/OverlayTest_generator.cc:54-106 | a generator of an accepted type starts with no blocks held, index 0, no fragment IDs and no event read |
| OverlayTests.OverlayTest.GetNext | mu2e-artdaq/Generators/OverlayTest_generator.cc:144-312 | `getNext_` returns and leaves the generator exactly as `GetNextSpec` says |
| OverlayTests.OverlayTest.DrainBlocks | mu2e-artdaq/Generators/OverlayTest_generator.cc:166-298 | the drain loop makes the fragments of every block from the index on and collects their IDs on the first event, or throws exactly when a block is there and the type has no ADC width, after recording that block's ID |
| OverlayTests.OverlayTest.BitArray | mu2e-artdaq/Generators/OverlayTest.hh:39-59 | the nested loops fill exactly `BitArraySpec` |
| OverlayTests.OverlayTest.ConvertFromBinary | mu2e-artdaq/Generators/OverlayTest.hh:62-70 | the loop computes exactly the converted value, or fails where the bitset would be set past bit 15 |
| OverlayTests.OverlayTest.HeaderBitArray | mu2e-artdaq/Generators/OverlayTest_generator.cc:116-126 | the nested loops fill exactly `PacketBits` |
| OverlayTests.OverlayTest.GenerateFragmentId | mu2e-artdaq/Generators/OverlayTest_generator.cc:113-140 | `generateFragmentID` computes exactly the ring-over-ROC ID |
| OverlayTests.OverlayTest.PackPayload | mu2e-artdaq/Generators/OverlayTest_generator.cc:249-260 | the packing loop computes exactly `Payload` |
| ConfigGen.UpperAll | tools/DemoControl.rb:115 | case folding for the `/i` match keeps the length and folds each character |
| ConfigGen.LastMarker | tools/DemoControl.rb:115 | the marker found is the last one at or before the limit, and there is none when no position matches |
| ConfigGen.PrologSplitExists | tools/DemoControl.rb:115-116 | the prolog pattern matches exactly when some BEGIN_PROLOG is followed by an END_PROLOG |
| ConfigGen.PrologSplitIsGreedy | tools/DemoControl.rb:115-118 | the match is the greedy one: its parts and markers put back together give the document, no END_PROLOG follows the chosen one, and no BEGIN_PROLOG lies between the chosen markers |
| ConfigGen.NoPrologIn | tools/DemoControl.rb:115-118 | a document in which no END_PROLOG can start has no prolog and is kept as it is |
| ConfigGen.SkipSpaces | tools/DemoControl.rb:139 | `\s*` stops at the first non-space and skips only spaces |
| ConfigGen.SkipDigits | tools/DemoControl.rb:139 | `\d+` stops at the first non-digit and takes only digits |
| ConfigGen.SizeWordsAt | tools/DemoControl.rb:139 | the size matched is a non-empty run of digits |
| ConfigGen.FirstSizeWords | tools/DemoControl.rb:139-140 | the size found is the leftmost match, and there is none when no position matches |
| ConfigGen.MaxSize | tools/DemoControl.rb:111-149 | the composite size is never negative |
| ConfigGen.MaxSizeIsMaximum | tools/DemoControl.rb:139-151 | the composite's `max_fragment_size_words` is at least every child's and is some child's size unless it is 0 (corrected; Findings row 9) |
| ConfigGen.MaxSizeAsWritten | tools/DemoControl.rb:139-148 | when the lookup as written succeeds it gives the corrected size |
| ConfigGen.MaxSizeAsWrittenFails | tools/DemoControl.rb:141-148 | the lookup as written fails exactly when some child's digits are not an `Integer()`, because the warning line adds the exception to a string |
| ConfigGen.SizeDigitsOfField | tools/DemoControl.rb:139 | a child holding only `max_fragment_size_words: <digits>` gives those digits |
| ConfigGen.OctalSizes | tools/DemoControl.rb:142-147 | for the sizes "09" and "7" the lookup as written fails, and the corrected one gives 7 |
| ConfigGen.UnreadableSizeAbortsAsWritten | tools/DemoControl.rb:139-151 | with a first child whose size `Integer()` rejects, the composite is never built as written; corrected, the other child's size is used |
| ConfigGen.PrologsDistinctAndComplete | tools/DemoControl.rb:117-129 | the saved prologs hold no prolog twice, and hold exactly the children's prologs |
| ConfigGen.PrologText | tools/DemoControl.rb:154-161 | the prolog text is empty exactly when no prolog was saved |
| ConfigGen.FillCompositePieces | tools/DemoControl.rb:82-162 | every placeholder of the composite receives its own value and all literal text is kept in place |
| ConfigGen.FillSixPieces | tools/DemoControl.rb:102-162 | the same holds for any document with the composite's placeholders |
| ConfigGen.GenerateComposite | tools/DemoControl.rb:79-165 | `generateComposite` returns exactly the composite document of its children |
| ConfigGen.ScanChildren | tools/DemoControl.rb:110-150 | the loop over the children yields the saved prologs, the largest size and the joined child list |
| ConfigGen.AddChild | tools/DemoControl.rb:115-149 | one pass moves the child's prolog to the saved prologs, appends the rest to the list and lets its size raise the largest |
| ConfigGen.SaveProlog | tools/DemoControl.rb:120-129 | a prolog not yet saved is appended, and a saved one changes nothing |
| ConfigGen.PrologBlock | tools/DemoControl.rb:154-161 | the saved prologs go on lines of their own inside one BEGIN_PROLOG/END_PROLOG pair |
| ConfigGen.ClientTextAppend | tools/DemoControl.rb:175-188 | one more process adds its `;http://host:port/RPC2,group` entry at the end |
| ConfigGen.ReaderClients | tools/DemoControl.rb:169-179 | the toy loop keeps one entry per board reader |
| ConfigGen.ReaderListedOnce | tools/DemoControl.rb:169-179 | a reader is listed once if one of its boards is a toy and it was not listed before, and never otherwise; afterwards it is marked exactly when it was marked before or one of its boards is a toy |
| ConfigGen.ReaderClientsAreToys | tools/DemoControl.rb:169-179 | only toys are listed, and of each reader only the mark changes |
| ConfigGen.GenerateXmlRpcClientList | tools/DemoControl.rb:167-191 | `generateXmlRpcClientList` returns the toys of unlisted readers in group 3, then the event builders in group 4 and the aggregators in group 5, marks the readers it lists and changes nothing else |
| ConfigGen.ReaderClientsSnoc | tools/DemoControl.rb:169-179 | one more toy extends the listing by that toy's step |
| ConfigGen.ListReaders | tools/DemoControl.rb:169-179 | the toy loop lists each reader not yet listed, in group 3, and marks it |
| ConfigGen.ListedAfter | tools/DemoControl.rb:170-178 | after toy `i` the listing grows by that toy and its reader is marked, unless its reader was already listed |
| ConfigGen.ListToy | tools/DemoControl.rb:170-178 | one toy of the loop is listed and its reader marked, unless its reader is already listed |
| ConfigGen.AppendClients | tools/DemoControl.rb:180-189 | the event-builder and aggregator loops list every process, in order, in one group |
| CommandLineParser.FindReader | tools/DemoControl.rb:379-389 | the reader found is the first one at the board's host and port, and there is none when no reader is there |
| CommandLineParser.AddBoardCases | tools/DemoControl.rb:377-406 | a board at a known host:port joins that reader, whose index is returned, adding its kind, its index and an empty configuration and leaving every other reader as it was; a board at a new host:port gets a new single-board reader at the end of the list |
| CommandLineParser.AddBoardKeepsRegistry | tools/DemoControl.rb:377-406 | registering a board keeps one reader per host:port and a board count that matches each reader's lists |
| CommandLineParser.TotalBoardsUpdate | tools/DemoControl.rb:385 | replacing one reader changes the total board count by the difference of their counts |
| CommandLineParser.AddBoardCountsOne | tools/DemoControl.rb:377-406 | each registration adds exactly one board to the total |
| CommandLineParser.ReadersAtMostBoards | tools/DemoControl.rb:392-405 | every reader holds at least one board, so there are never more readers than boards |
| CommandLineParser.SameAddressSameReader | tools/DemoControl.rb:379-389 | two boards at the same host:port get the same reader index |
| CommandLineParser.Options.constructor | tools/DemoControl.rb:201-219 | the parser starts with no processes, and with run duration and event count both -1 |
| CommandLineParser.Options.AddToBoardReaderList | tools/DemoControl.rb:377-406 | `addToBoardReaderList` updates the readers and returns the index exactly as `AddBoard` says, changing nothing else |
| CommandLineParser.Options.AddToy | tools/DemoControl.rb:259-295 | `--toy1` and `--toy2` give the board the next toy index and the index of the reader at its host:port, and append it to the toys |
| CommandLineParser.ValidOptionsReaders | tools/DemoControl.rb:377-406 | with the options the parser builds there are never more readers than toy boards |
| SystemControl.Timeout | tools/DemoControl.rb:682-691 | every transition call times out after 60 s, except `stop`, which gives aggregators 120 s, event builders and multi-board readers 45 s, and every other process 30 s |
| SystemControl.CallsTo | tools/DemoControl.rb:693-697 | one call per target, in order, each to `daq.<command>` |
| SystemControl.CommandResult | tools/DemoControl.rb:692-700 | a reply is logged as its text, and a failed call as "Exception: " followed by the message (corrected; Findings row 5) |
| SystemControl.CommandResultAsWritten | tools/DemoControl.rb:698-700 | as written a failed call gives no result at all, because the rescue clause adds an exception to a string; a good reply gives the same result as corrected |
| SystemControl.Results | tools/DemoControl.rb:692-700 | one logged result per reply, in order |
| SystemControl.Dispatch | tools/DemoControl.rb:661-674 | `sendCommandSet` makes at most one call per process and keeps one entry per reader |
| SystemControl.DispatchFlagsOnly | tools/DemoControl.rb:664-674 | dispatching changes nothing about the readers but their sent flags, and never clears a flag |
| SystemControl.DispatchSharedOnce | tools/DemoControl.rb:664-674 | a reader of more than one board receives the command exactly once if one of its boards is among the processes and its flag was clear, and never otherwise; afterwards its flag is set exactly when it was set before or one of its boards was there |
| SystemControl.DispatchDirect | tools/DemoControl.rb:661-681 | a process that is not a board of a shared reader is always addressed itself |
| SystemControl.DispatchTargetsNamed | tools/DemoControl.rb:661-681 | every call goes either to a named process that is not a board of a shared reader, or to a shared reader one of whose boards was named |
| SystemControl.DispatchWaves | tools/DemoControl.rb:653-737 | consecutive `sendCommandSet`s give one list of calls per wave and keep one entry per reader |
| SystemControl.StopWaves | tools/DemoControl.rb:868-874 | `stop` addresses all toys, then all event builders, then each aggregator on its own |
| SystemControl.WavesSharedOnce | tools/DemoControl.rb:653-674 | within one transition a shared reader whose flag starts clear receives the command exactly once if it has a board in any wave, whatever the order of the waves |
| SystemControl.SumForNone | tools/DemoControl.rb:667-668 | once a reader's flag is set, no later wave addresses it |
| SystemControl.Fetch | tools/DemoControl.rb:762-767 | a poll acts on the first reply, or on the second when the first is "busy" or "-1"; there is nothing to act on when the replies run out |
| SystemControl.Clamp | tools/DemoControl.rb:794-799 | a pause is kept between 10 and 900 seconds and left alone inside that range |
| SystemControl.NextSleep | tools/DemoControl.rb:785-802 | the next pause lies within 10..900 s, and is 10 s when the count did not grow or there is no rate yet |
| SystemControl.PollCountStep | tools/DemoControl.rb:751-804 | one poll of the event-count loop sleeps, reads the count and goes on with the next pause from the new count |
| SystemControl.PollSleepsBounded | tools/DemoControl.rb:750-804 | the first pause is the one the loop starts with and every later one lies within 10..900 s |
| SystemControl.PollEndsAtTarget | tools/DemoControl.rb:751 | the loop ends only on a negative count or one that has reached the target |
| SystemControl.PollStopsAtTarget | tools/DemoControl.rb:751-768 | a reported count at or past the target ends the loop after that poll |
| SystemControl.PollGivesUpOnMinusOne | tools/DemoControl.rb:763-768 | "-1" twice in a row, the reply and its retry, ends the loop |
| SystemControl.PollFailureKeepsCount | tools/DemoControl.rb:769-802 | a failed poll keeps the count and tries again after 10 s (corrected; Findings row 7) |
| SystemControl.NextPause | tools/DemoControl.rb:785-802 | the pause computation is exactly `NextSleep` |
| SystemControl.TakeReply | tools/DemoControl.rb:762-767 | a poll takes the reply `Fetch` says, and consumes at least one reply |
| SystemControl.PollEventCount | tools/DemoControl.rb:748-804 | the event-count loop of `stop` computes exactly `PollCount` from count 0 and pause 0 (corrected; Findings row 7) |
| SystemControl.PollFailureAbortsAsWritten | tools/DemoControl.rb:769-772 | one timed-out poll kills the script as written, while the corrected loop keeps the count, polls again and ends when the target is reported |
| SystemControl.ParseUnsignedReal | tools/DemoControl.rb:833 | a decimal number read by `Float()` here is never negative |
| SystemControl.UnsignedRealOfNat | tools/DemoControl.rb:833 | the decimal text of a natural number reads back as that number |
| SystemControl.FloatOfIntegerText | tools/DemoControl.rb:833 | whole seconds printed as an integer read back as that number of seconds |
| SystemControl.NextDurationSleep | tools/DemoControl.rb:850-861 | the next pause is half the remaining time kept within 10..900 s, and 10 s while no duration is known |
| SystemControl.PollDurationSleepsBounded | tools/DemoControl.rb:815-862 | the first pause is the one the loop starts with and every later one lies within 10..900 s |
| SystemControl.PollDurationEndsAtTarget | tools/DemoControl.rb:816 | the loop ends only on a negative duration or one that has reached the target |
| SystemControl.PollDurationStopsAtTarget | tools/DemoControl.rb:816-833 | a reported duration at or past the target ends the loop after that poll |
| SystemControl.PollDurationFailureResets | tools/DemoControl.rb:834-861 | a failed poll forgets the duration and tries again after 10 s (corrected; Findings row 8) |
| SystemControl.DurationSleep | tools/DemoControl.rb:850-861 | the pause computation is exactly `NextDurationSleep` |
| SystemControl.PollRunDuration | tools/DemoControl.rb:814-862 | the run-duration loop of `stop` computes exactly `PollDuration` from duration 0 and pause 0 (corrected; Findings row 8) |
| SystemControl.DurationFailureAbortsAsWritten | tools/DemoControl.rb:834-837 | one timed-out poll kills the script as written, while the corrected loop polls again and ends when the target is reported |
| SystemControl.StopWaitFor | tools/DemoControl.rb:739-866 | `stop` waits for the event target when one is set, else for the duration target when one is set, and only when there is an aggregator to ask |
| SystemControl.SlotFrom | tools/DemoControl.rb:503-520 | the slot found from `l` on holds the board, and no earlier slot from `l` does |
| SystemControl.PlaceConfig | tools/DemoControl.rb:501-521 | storing a board's configuration keeps the reader list's length |
| SystemControl.FindSlot | tools/DemoControl.rb:503-520 | the scan along a reader's kinds finds exactly the board's slot |
| SystemControl.PlaceConfigs | tools/DemoControl.rb:501-521 | storing every toy's configuration keeps the reader list's length |
| SystemControl.PlaceConfigsCfgOnly | tools/DemoControl.rb:501-521 | storing configurations changes no reader's kinds, board indices, flags or count |
| SystemControl.PlaceConfigsStores | tools/DemoControl.rb:501-521 | a toy whose slot no later toy of the same reader shares ends with its own configuration in that slot |
| SystemControl.InitDispatch | tools/DemoControl.rb:528-561 | the `init` fan-out makes one call per target and keeps one entry per reader |
| SystemControl.InitFollowsDispatch | tools/DemoControl.rb:528-540 | the `init` fan-out addresses exactly the targets `sendCommandSet` would, and leaves the same flags |
| SystemControl.InitDispatchArgs | tools/DemoControl.rb:530-555 | every `daq.init` to a shared reader carries the composite of its boards' configurations, and every other one the reader's first configuration |
| SystemControl.InitDispatchDirect | tools/DemoControl.rb:538-540 | a board with a reader of its own is sent that reader's first configuration |
| SystemControl.InitCalls | tools/DemoControl.rb:570-645 | one `daq.init` per event builder or aggregator |
| SystemControl.WavesSentAsWritten | tools/DemoControl.rb:698-724 | as written every wave before the last one sent had only good replies: the first failed call raises a TypeError when its thread is joined |
| SystemControl.FailedToyStopsWavesAsWritten | tools/DemoControl.rb:698-724 | as written a failed call to a toy on `shutdown` keeps the command from the event builders and aggregators |
| SystemControl.Controller.constructor | tools/DemoControl.rb:462-465 | the controller holds the parsed options |
| SystemControl.Controller.Init | tools/DemoControl.rb:467-651 | `init` lists the XML-RPC clients, stores each toy's configuration in its reader, sends `daq.init` to the toys' readers, a shared reader once with the composite, and only when all of those returned, to every event builder and aggregator |
| SystemControl.Controller.InitAfterReaders | tools/DemoControl.rb:563-651 | the event builders and aggregators are sent `daq.init` only when every reader call returned |
| SystemControl.Controller.PlaceBoardConfigs | tools/DemoControl.rb:501-521 | the loop stores exactly the configurations `PlaceConfigs` says |
| SystemControl.Controller.InitReaders | tools/DemoControl.rb:528-561 | the loop makes exactly the calls of `InitDispatch` and sets its flags |
| SystemControl.Controller.InitOne | tools/DemoControl.rb:529-560 | the loop body makes the call for one board as `InitStep` says |
| SystemControl.Controller.InitProcesses | tools/DemoControl.rb:570-645 | one call per event builder or aggregator, with its configuration |
| SystemControl.Controller.SendCommandSet | tools/DemoControl.rb:659-725 | `sendCommandSet` makes exactly the calls `Dispatch` says, logs one result per reply and sets the readers' flags |
| SystemControl.Controller.SendOne | tools/DemoControl.rb:661-721 | one pass of the loop keeps the calls made so far and the rest of `Dispatch` adding up to the whole |
| SystemControl.Controller.SendStep | tools/DemoControl.rb:664-674 | the first board of a shared reader addresses the reader and marks it, later boards of that reader are skipped, any other process is addressed itself |
| SystemControl.Controller.RunWaves | tools/DemoControl.rb:653-657 | consecutive `sendCommandSet`s, one per wave, each after the one before (corrected; Findings row 6) |
| SystemControl.Controller.Start | tools/DemoControl.rb:653-657 | `start` sends the run number to the aggregators, then the event builders, then the toys |
| SystemControl.Controller.Shutdown | tools/DemoControl.rb:727-731 | `shutdown` goes to the toys, then the event builders, then the aggregators |
| SystemControl.Controller.Pause | tools/DemoControl.rb:733-737 | `pause` goes to the toys, then the event builders, then the aggregators |
| SystemControl.Controller.Resume | tools/DemoControl.rb:877-881 | `resume` goes to the aggregators, then the event builders, then the toys |
| SystemControl.Controller.CheckStatus | tools/DemoControl.rb:883-887 | `status` goes to the aggregators, then the event builders, then the toys |
| SystemControl.Controller.GetLegalCommands | tools/DemoControl.rb:889-893 | `legal_commands` goes to the aggregators, then the event builders, then the toys |
| SystemControl.Controller.Stop | tools/DemoControl.rb:739-875 | `stop` waits as `StopWaitFor` says, then sends `stop` to the toys, the event builders and each aggregator in turn; when the poll's replies run out first nothing is sent (corrected; Findings rows 7 and 8) |
| GenerateAggregator.TemplateHoles | tools/generateAggregator.rb:8-64 | the document's placeholders are exactly the thirteen the script replaces |
| GenerateAggregator.AggregatorComplete | tools/generateAggregator.rb:47-66 | no placeholder survives into the generated block |
| GenerateAggregator.AggregatorRoleParam | tools/generateAggregator.rb:57-62 | the role parameter is named `is_dispatcher` exactly for an online monitor and `is_data_logger` for every other type |
| GenerateAggregator.AggregatorQueueDepth | tools/generateAggregator.rb:13-50 | the queue depth lands in its own placeholder |
| GenerateAggregator.AggregatorQueueTimeout | tools/generateAggregator.rb:14-51 | the queue wait time lands in its own placeholder |
| GenerateAggregatorMain.RoleSelection | tools/generateAggregatorMain.rb:65-79 | every aggregator but the last is a data logger with queue depth 20 and wait 5, its monitoring off when there are several aggregators; the last is the online monitor with depth 2, wait 1 and disk writing off |
| GenerateAggregatorMain.ExactlyOneMonitor | tools/generateAggregatorMain.rb:67-79 | among aggregators 0 to totalAGs-1 exactly one is the online monitor |
| GenerateAggregatorMain.WritersAreDataLoggers | tools/generateAggregatorMain.rb:74-113 | an aggregator writes to disk only if it is not the last, so a lone aggregator never does |
| GenerateAggregatorMain.IntToStringInjective | tools/generateAggregatorMain.rb:98 | different indices print differently |
| GenerateAggregatorMain.WriterFilesDistinct | tools/generateAggregatorMain.rb:94-101 | two different aggregators that both write to disk write different files: with more than two aggregators the index is in the name, and with two only the first writes |
| GenerateAggregatorMain.MainTemplateHoles | tools/generateAggregatorMain.rb:7-63 | the main document's placeholders are exactly those the script replaces |
| GenerateAggregatorMain.MainDocumentAt | tools/generateAggregatorMain.rb:86-113 | `%{aggregator_code}` receives the role's block, `%{output_file}` the file name under the data directory, and `%{root_output}` "" for an aggregator that writes to disk and "#" for every other; literal text stays and no placeholder is left |
| GenerateAggregatorMain.AggregatorCodeOfRole | tools/generateAggregatorMain.rb:65-86 | the block placed is the one `generateAggregator` builds from 20, 5 and data_logger for every aggregator but the last, and from 2, 1 and online_monitor for the last |
| GenerateEventBuilder.EventBuilderTemplateHoles | tools/generateEventBuilder.rb:4-38 | the document's placeholders are the script's last three; `%{total_fragments}` is not among them |
| GenerateEventBuilder.EventBuilderDocumentAt | tools/generateEventBuilder.rb:31-38 | `%{verbose}` receives `verbose`, `%{sources_fhicl}` the sources and `%{requests_enabled}` "true" exactly when `sendRequests` is positive; literal text stays and no placeholder is left |
| GenerateEventBuilder.FillAbsent | tools/generateEventBuilder.rb:30 | a replacement for a placeholder the document does not hold changes nothing |
| GenerateEventBuilder.TotalFragmentsAbsent | tools/generateEventBuilder.rb:4-30 | `%{total_fragments}`, the first placeholder replaced, is not in the document |
| GenerateEventBuilder.TotalFragmentsUnused | tools/generateEventBuilder.rb:2-30 | `totalFragments` has no effect on the block |
| GenerateEventBuilderMain.EbMainTemplateHoles | tools/generateEventBuilderMain.rb:13-101 | the document's placeholders are exactly the seven the script replaces |
| GenerateEventBuilderMain.EbValueByName | tools/generateEventBuilderMain.rb:77-101 | each placeholder receives its own value: destinations, event builder block, `""`/`"#"` output prefixes chosen from the aggregator count and disk-writing switch, the DDV and filter configurations, and the output file joined under the data directory |
| GenerateEventBuilderMain.EbMainDocumentAt | tools/generateEventBuilderMain.rb:13-103 | the generated document keeps every literal piece and puts at every placeholder the value the script gives it, so no placeholder is left |
| GenerateEventBuilderMain.OutputModuleChoice | tools/generateEventBuilderMain.rb:80-90 | the MPI output is enabled exactly when there are aggregators, the file output exactly when there are none and disk writing is on, and never both |
| GenerateEventBuilderMain.EventBuilderCodeVerbose | tools/generateEventBuilderMain.rb:68-75 | the event builder block is generated with verbose "true" exactly when no aggregator follows |
| GenerateEventBuilderMain.Pad2Injective | tools/generateEventBuilderMain.rb:97 | the `%02d` rendering of the event builder index is injective |
| GenerateEventBuilderMain.EbFilesDistinct | tools/generateEventBuilderMain.rb:96-101 | two different event builders write to different output files in the same data directory |
| GenerateFragmentReceiver.GeneratorFor | tools/generateFragmentReceiver.rb:8-13 | the generator is `Mu2eReceiver` exactly for type MU2E, `DTCReceiver` exactly for DTC, and nil for every other type |
| GenerateFragmentReceiver.ConfigDocName | tools/generateFragmentReceiver.rb:15-17 | a given configuration file is used as is; otherwise the generator's name plus ".fcl", and the script fails exactly when there is neither file nor generator |
| GenerateFragmentReceiver.ReceiverDocumentAt | tools/generateFragmentReceiver.rb:19-54 | in the assembled document every one of the seven replaced placeholders gets its value and every other piece (an unreplaced placeholder included) is kept |
| GenerateFragmentReceiver.GeneratedParameterIds | tools/generateFragmentReceiver.rb:24-42 | both `fragment_id` and `starting_fragment_id` are filled with the starting fragment id, and `board_id` with the board id |
| GenerateFragmentReceiver.ReceiverFailsOnlyWithoutGenerator | tools/generateFragmentReceiver.rb:6-40 | generation fails if and only if the type is unknown and no file is given; the `generator:` line is empty for an unknown type with a file |
| GenerateDTCDataVerifier.TypeMapKeys | tools/generateDTCDataVerifier.rb:17-21 | the type map's keys are exactly the fragment ids given |
| GenerateDTCDataVerifier.TypeMapLastWins | tools/generateDTCDataVerifier.rb:19-21 | for a repeated id, the type paired with its last occurrence wins |
| GenerateDTCDataVerifier.SortIntsSortedPermutation | tools/generateDTCDataVerifier.rb:23-24 | `sort` yields an ascending permutation of the ids, duplicates kept |
| GenerateDTCDataVerifier.LabelListText | tools/generateDTCDataVerifier.rb:15-26 | the label list reads `[ …]`, opening with "[ " and closing with "]", and is "[]" when there are no labels |
| GenerateDTCDataVerifier.FillTypeMap | tools/generateDTCDataVerifier.rb:17-21 | the `upto` loop builds the map that pairs each id with the type of its last occurrence |
| GenerateDTCDataVerifier.ListLabels | tools/generateDTCDataVerifier.rb:15-26 | appending "type," for each sorted id and overwriting the last character with "]" yields the comma-joined label list |
| GenerateDTCDataVerifier.OverwriteLast | tools/generateDTCDataVerifier.rb:26 | overwriting the final comma (or the space of an empty list) with "]" gives the FHiCL list text |
| GenerateDTCDataVerifier.RenderDdv | tools/generateDTCDataVerifier.rb:8-28 | the block is the fixed head, the list text and the fixed tail |
| GenerateDTCDataVerifier.GenerateDTCDataVerifier | tools/generateDTCDataVerifier.rb:6-31 | the generated block holds the type labels in ascending order of fragment id |
| GenerateDTCDataVerifier.LabelsFollowSortedIds | tools/generateDTCDataVerifier.rb:19-24 | label k is the type mapped to the k-th smallest id, with one label per id, duplicates included |
| DataVerifiers.BelowIrreflexive | artdaq-mu2e/ArtModules/DTCDataVerifier_module.cc:47 | no label sorts below itself under `std::string`'s `<` |
| DataVerifiers.BelowTransitive | artdaq-mu2e/ArtModules/DTCDataVerifier_module.cc:47 | the label order `sort` uses is transitive |
| DataVerifiers.BelowAsymmetric | artdaq-mu2e/ArtModules/DTCDataVerifier_module.cc:47 | the label order `sort` uses is asymmetric |
| DataVerifiers.BelowTotal | artdaq-mu2e/ArtModules/DTCDataVerifier_module.cc:47 | any two different labels are ordered one way or the other |
| DataVerifiers.InsertLabel | artdaq-mu2e/ArtModules/DTCDataVerifier_module.cc:47-49 | putting one label into a strictly sorted list keeps it strictly sorted and adds exactly that label |
| DataVerifiers.StrictlySortedUnique | artdaq-mu2e/ArtModules/DTCDataVerifier_module.cc:47-49 | a strictly sorted list is fixed by its labels, so `sort` then `unique`/`erase` has only one possible result |
| DataVerifiers.Gather | artdaq-mu2e/ArtModules/DTCDataVerifier_module.cc:56-66 | gathering fails (the handle is invalid and dereferencing it throws) exactly when some configured label is missing from the event |
| DataVerifiers.DtcTimestampChecked | artdaq-mu2e/ArtModules/DTCDataVerifier_module.cc:94-103 | a DTC fragment never throws, warns exactly when its timestamp is not the expected one, and sets the next expected timestamp to one past it modulo 2^64 |
| DataVerifiers.ContiguousBlocksClean | artdaq-mu2e/ArtModules/DTCDataVerifier_module.cc:106-121 | MU2E blocks whose timestamps count up from the expected one raise no warning and leave the expected timestamp one past the last |
| DataVerifiers.BlockWarningsCount | artdaq-mu2e/ArtModules/DTCDataVerifier_module.cc:106-121 | the block loop warns at most once per block, only about block timestamps, and ends expecting one past the last block's timestamp |
| DataVerifiers.CopiesDifferOnRestart | artdaq-mu2e/ArtModules/DTCDataVerifier_module.cc:114 | a block `BLOCK_COUNT_MAX` below the expected timestamp is accepted by artdaq-mu2e but warned about by mu2e-artdaq (its line 124) |
| DataVerifiers.CopiesDifferOnBlockCount | artdaq-mu2e/ArtModules/DTCDataVerifier_module.cc:122-126 | only artdaq-mu2e warns about a MU2E fragment holding fewer than `BLOCK_COUNT_MAX` blocks |
| DataVerifiers.ThrowsIffUnhandled | artdaq-mu2e/ArtModules/DTCDataVerifier_module.cc:92-137 | the analysis throws exactly when some fragment has a type the copy has no case for (EMPTY is handled only by artdaq-mu2e) |
| DataVerifiers.FragmentSequenceCheck | artdaq-mu2e/ArtModules/DTCDataVerifier_module.cc:79-88 | a fragment gets a sequence-ID warning exactly when its ID differs from the expected one, and that warning names both IDs |
| DataVerifiers.SequenceIdFixed | artdaq-mu2e/ArtModules/DTCDataVerifier_module.cc:68-88 | once set, the expected sequence ID never changes, and every fragment with another ID is warned about |
| DataVerifiers.FirstFragmentFixesId | artdaq-mu2e/ArtModules/DTCDataVerifier_module.cc:68-82 | the first fragment's sequence ID becomes the expected one |
| DataVerifiers.ContiguousDtcClean | artdaq-mu2e/ArtModules/DTCDataVerifier_module.cc:71-103 | DTC fragments with the expected sequence ID and timestamps counting up from the expected one raise no warning |
| DataVerifiers.DTCDataVerifier.constructor | artdaq-mu2e/ArtModules/DTCDataVerifier_module.cc:40-50 | the labels are sorted with duplicates dropped and hold exactly the configured ones; the first expected timestamp is 0 |
| DataVerifiers.DTCDataVerifier.SortUnique | artdaq-mu2e/ArtModules/DTCDataVerifier_module.cc:47-49 | `sort` then `unique`/`erase` yields a strictly sorted list of exactly the configured labels |
| DataVerifiers.DTCDataVerifier.GatherFragments | artdaq-mu2e/ArtModules/DTCDataVerifier_module.cc:56-66 | the label loop collects the fragments of every label in label order, or fails on a missing label |
| DataVerifiers.DTCDataVerifier.CheckBlocks | artdaq-mu2e/ArtModules/DTCDataVerifier_module.cc:106-121 | the block loop gives the block warnings and the next expected timestamp of the block specification |
| DataVerifiers.DTCDataVerifier.CheckBlock | artdaq-mu2e/ArtModules/DTCDataVerifier_module.cc:108-119 | one pass warns about block `ii` exactly as the block specification does and sets the next expected timestamp to the block's timestamp plus one, so the rest of the loop goes on from there |
| DataVerifiers.DTCDataVerifier.Analyze | artdaq-mu2e/ArtModules/DTCDataVerifier_module.cc:52-139 | `analyze` throws without warnings on a missing label, and otherwise gives the warnings, the throw and the new `next_timestamp_` of checking the gathered fragments in order |
| DataVerifiers.DTCDataVerifier.CheckOne | artdaq-mu2e/ArtModules/DTCDataVerifier_module.cc:79-137 | one pass of the fragment loop: the sequence-ID check, then the type switch |
| DtcEventFilters.ContainersStopAtFirstOther | artdaq-mu2e/ArtModules/DTCEventVerifier_module.cc:81-97 | a container collection contributes the entries of its leading DTCEVT containers, in order, and nothing from the first other container on |
| DtcEventFilters.FlattenSkips | artdaq-mu2e/ArtModules/DTCEventVerifier_module.cc:74-107 | invalid and empty handles, and handles whose front is neither a container nor DTCEVT, contribute nothing; a plain DTCEVT handle contributes all its fragments |
| DtcEventFilters.FlattenAppend | artdaq-mu2e/ArtModules/DTCEventVerifier_module.cc:74-108 | the collected fragments are the handles' contributions concatenated in handle order |
| DtcEventFilters.CountGr | artdaq-mu2e/ArtModules/CRVGR_module.cc:152-166 | the GR package count is at most the number of blocks |
| DtcEventFilters.CountStatus | artdaq-mu2e/ArtModules/CRVGR_module.cc:152-205 | the status block count is at most the number of blocks |
| DtcEventFilters.CountsAppend | artdaq-mu2e/ArtModules/CRVGR_module.cc:120-228 | both counts add up over concatenated block lists |
| DtcEventFilters.CountsDisjoint | artdaq-mu2e/ArtModules/CRVGR_module.cc:152-205 | no block counts twice, and a count is full or zero exactly when every block is, or none is, a valid CRV block of that version |
| DtcEventFilters.CountAsWrittenAgrees | artdaq-mu2e/ArtModules/CRVGR_module.cc:152-217 | with a metric manager, or with no status block, the counts as written equal the corrected counts |
| DtcEventFilters.CollectFragments | artdaq-mu2e/ArtModules/CRVGR_module.cc:73-107 | the handle loop collects exactly the fragments the flattening specification gives |
| DtcEventFilters.CollectContainers | artdaq-mu2e/ArtModules/CRVGR_module.cc:82-95 | the container loop collects exactly the entries of the leading DTCEVT containers |
| DtcEventFilters.DTCEventVerifier.constructor | artdaq-mu2e/ArtModules/DTCEventVerifier_module.cc:60 | no header has been put yet |
| DtcEventFilters.DTCEventVerifier.Filter | artdaq-mu2e/ArtModules/DTCEventVerifier_module.cc:63-213 | `filter` puts exactly one event header, records the number of collected DTCEVT fragments, and lets the event pass |
| DtcEventFilters.CRVGR.constructor | artdaq-mu2e/ArtModules/CRVGR_module.cc:52-60 | both counters start at 0 |
| DtcEventFilters.CRVGR.Filter | artdaq-mu2e/ArtModules/CRVGR_module.cc:62-232 | `filter` raises `nGrEvents_` by the GR packages and `nEvents_` by the status blocks among the collected fragments' blocks, and lets the event pass (corrected; Findings row 11) |
| DtcEventFilters.CRVGR.CountFragments | artdaq-mu2e/ArtModules/CRVGR_module.cc:120-229 | the fragment, sub-event and block loops count exactly the GR packages and status blocks of all the fragments |
| DtcEventFilters.CRVGR.CountSubEvent | artdaq-mu2e/ArtModules/CRVGR_module.cc:133-227 | the block loop of one sub-event adds exactly that sub-event's GR packages and status blocks |
| DtcEventFilters.StatusBlockCrashesAsWritten | artdaq-mu2e/ArtModules/CRVGR_module.cc:204-208 | with no metric manager a single wideband status block makes the filter dereference the null `metricMan`; with one it counts as one status block |
| RequestSenders.FirstValid | artdaq-mu2e/ArtModules/Mu2eRequestSender_module.cc:72-78 | the header loop stops at the first valid handle: the position found is valid with none valid before it, and none is found only when no handle is valid |
| RequestSenders.EvictOldestFirst | artdaq-mu2e/ArtModules/Mu2eRequestSender_module.cc:83-86 | the popped IDs followed by the kept ones are the list, in order, and at most `max_list_size_` are kept |
| RequestSenders.AnalyzeBounded | artdaq-mu2e/ArtModules/Mu2eRequestSender_module.cc:80-86 | after `analyze` the list holds at most `max_list_size_` IDs, the newest last, and is the old list plus the new ID with its oldest entries dropped; a list within bound loses at most its oldest entry |
| RequestSenders.AnalyzeAddsRequest | artdaq-mu2e/ArtModules/Mu2eRequestSender_module.cc:80-86 | a new ID's request is pending with the event's timestamp afterwards, unless the bound is 0 and it is popped at once |
| RequestSenders.AddKeepsInStep | artdaq-mu2e/ArtModules/Mu2eRequestSender_module.cc:80-81 | adding the request of a new ID and listing it keeps pending requests and listed IDs the same set |
| RequestSenders.DropKeepsInStep | artdaq-mu2e/ArtModules/Mu2eRequestSender_module.cc:83-86 | popping the oldest IDs and removing their requests keeps pending requests and listed IDs the same set |
| RequestSenders.AnalyzeKeepsInStep | artdaq-mu2e/ArtModules/Mu2eRequestSender_module.cc:64-87 | while every event brings a new sequence ID, the pending requests are exactly the listed IDs |
| RequestSenders.RepeatedIdLosesRequest | artdaq-mu2e/ArtModules/Mu2eRequestSender_module.cc:80-86 | a sequence ID that comes back while still listed loses its request when its older copy is popped, though its newer copy stays listed |
| RequestSenders.Mu2eRequestSender.constructor | artdaq-mu2e/ArtModules/Mu2eRequestSender_module.cc:58-62 | the list bound is `max_request_count`, 100 by default, and the sender starts with no requests |
| RequestSenders.Mu2eRequestSender.FindRequest | artdaq-mu2e/ArtModules/Mu2eRequestSender_module.cc:66-78 | the loop returns the sequence ID and timestamp of the first valid header, or the stale values when there is none |
| RequestSenders.Mu2eRequestSender.AnalyzeEvent | artdaq-mu2e/ArtModules/Mu2eRequestSender_module.cc:64-87 | `analyze` adds the request, lists its ID and pops the oldest beyond the bound, leaving the list within bound |
| RequestSenders.Mu2eRequestSender.BeginRun | artdaq-mu2e/ArtModules/Mu2eRequestSender_module.cc:89-93 | `beginRun` sets normal mode and the run number and changes nothing else |
| RequestSenders.Mu2eRequestSender.EndRun | artdaq-mu2e/ArtModules/Mu2eRequestSender_module.cc:95-99 | `endRun` sets end-of-run mode and sends one message carrying the run number and every pending request |
| Mu2eProducers.ConfiguredMode | mu2e-artdaq/ArtModules/Mu2eProducer_module.cc:88-91 | a known mode (TRK, CAL, CRV) is kept and any other becomes TRK |
| Mu2eProducers.Timestamp | mu2e-artdaq/ArtModules/Mu2eProducer_module.cc:188-190 | the combined timestamp fits in 32 bits |
| Mu2eProducers.TimestampHalves | mu2e-artdaq/ArtModules/Mu2eProducer_module.cc:188-190 | the low and medium 16-bit halves come back out of the combined timestamp unchanged |
| Mu2eProducers.NextMode | mu2e-artdaq/ArtModules/Mu2eProducer_module.cc:196-200 | subsystem 0 switches to TRK, 1 to CAL, and any other keeps the mode |
| Mu2eProducers.Stride | mu2e-artdaq/ArtModules/Mu2eProducer_module.cc:344 | the cursor always moves forward by at least one 16-byte packet |
| Mu2eProducers.WalkStaysInBlock | mu2e-artdaq/ArtModules/Mu2eProducer_module.cc:161-346 | the cursor visits only positions inside the block, starting at its start, each one data block past the one before, and visits a non-empty block at least once |
| Mu2eProducers.WalkModes | mu2e-artdaq/ArtModules/Mu2eProducer_module.cc:183-282 | each visit's mode is the one its subsystem ID leaves, starting from the mode before the walk, and the mode after the walk is the last visit's |
| Mu2eProducers.WalkFrom | mu2e-artdaq/ArtModules/Mu2eProducer_module.cc:162-344 | one step of the cursor loop visits the header at the cursor, then goes on one data block further with the new mode |
| Mu2eProducers.WalkKeepsModeKnown | mu2e-artdaq/ArtModules/Mu2eProducer_module.cc:196-200 | the cursor loop never leaves the known modes |
| Mu2eProducers.BlocksFrom | mu2e-artdaq/ArtModules/Mu2eProducer_module.cc:150-348 | one step of the block loop walks block i, then the later blocks from the mode it leaves |
| Mu2eProducers.NoMetadataSkipped | mu2e-artdaq/ArtModules/Mu2eProducer_module.cc:129 | a fragment without metadata produces no visit and leaves the mode unchanged |
| Mu2eProducers.WithMetadata | mu2e-artdaq/ArtModules/Mu2eProducer_module.cc:124-129 | the fragments kept all have metadata and are no more than those given |
| Mu2eProducers.FragmentsKeepModeKnown | mu2e-artdaq/ArtModules/Mu2eProducer_module.cc:124-350 | the fragment loop never leaves the known modes |
| Mu2eProducers.Mu2eProducer.constructor | mu2e-artdaq/ArtModules/Mu2eProducer_module.cc:81-92 | the mode is the configured one, or TRK for an unknown one, and nothing has been produced |
| Mu2eProducers.Mu2eProducer.Produce | mu2e-artdaq/ArtModules/Mu2eProducer_module.cc:96-350 | `produce` puts the event number, and, when the MU2E handle is valid, walks its fragments from the current mode, recording each visit and the mode left behind |
| Mu2eProducers.Mu2eProducer.WalkAll | mu2e-artdaq/ArtModules/Mu2eProducer_module.cc:124-350 | the fragment and block loops give the visits and final mode of the walk specification |
| Mu2eProducers.Mu2eProducer.WalkFragment | mu2e-artdaq/ArtModules/Mu2eProducer_module.cc:150-348 | the block loop of one fragment gives the visits and final mode of its blocks' walks |
| Mu2eProducers.Mu2eProducer.VisitHeader | mu2e-artdaq/ArtModules/Mu2eProducer_module.cc:164-344 | one pass of the cursor loop: the new mode, the visit with its timestamp and parse, and the cursor one data block further |
| Mu2eProducers.Mu2eProducer.WalkBlock | mu2e-artdaq/ArtModules/Mu2eProducer_module.cc:161-346 | the cursor loop over one data block gives the visits and final mode of the walk specification |

## Left out

- XML-RPC transport, threads, sleeps, clocks, logging, printing and `metricMan` metrics are left out. They are I/O. RPC replies are inputs, a wave's threads are a sequential fan-out, and a thread's exception surfaces at its join.
- Command-line option parsing, environment and `onmon_config` loading, and `summarize` in `tools/DemoControl.rb` are left out. They are start-up I/O. The board-reader list they build is an input.
- `generateToy`, `generateBoardReaderMain`, `generateWFViewer` and `read_fcl` are not part of this model. Their results are opaque texts or, for `read_fcl`, the parameter `readFcl`. The `generate*Main` call sites in `init` do not match the shown signatures, so each generator is modelled on its own signature and `init` takes the generated documents as inputs.
- `SystemControl.PollCount` and `SystemControl.PollDuration` end when the modelled replies run out. `stop` itself polls for as long as the processes answer.
- `SystemControl.PollDuration` reads a run duration as a decimal `[sign]digits[.digits]` into a real. Ruby's other `Float()` spellings (exponents, underscores) are not modelled.
- `Common.ParseInteger` covers Ruby's `Integer()` for an optional sign and digits, with a leading zero meaning octal. Whitespace, underscores and `0x`/`0b` prefixes are not modelled.
- FillAllAt, FillAll: an inserted value is a literal piece that later replacements of the chain do not scan. Ruby's later `gsub!` calls scan the whole string, so a value that itself contains a `%{name}` replaced later in the chain would be filled in by Ruby and is left as it is here. In the scripts only the FHiCL texts passed in (such as `sources_fhicl`) could contain one; the numbers printed with `String()` cannot.
- `gsub` replacement texts are inserted literally.
- GenerateEventBuilder.EventBuilderDocumentAt, GenerateFragmentReceiver.ReceiverDocumentAt, GenerateAggregatorMain.MainDocumentAt and GenerateEventBuilderMain.EbMainDocumentAt take the flags `sendRequests`, `useSimFile` and `diskWritingEnable` as integers. The scripts pass them through `Integer()`, which raises `ArgumentError` on non-numeric text; that error is not modelled. Backslash escapes in a replacement, which Ruby would interpret, are not modelled.
- The DTC library (`GetData`, `SendRequestForTimestamp`, `WriteSimFileToDTC`, header-packet decoding) is not part of this model. What a read returns and what a header decodes to are inputs.
- `BLOCK_COUNT_MAX` comes from `mu2eFragment.hh`, which is not part of this model. It is a parameter or a constant of the receiver and verifier classes.
- The artdaq `RequestSender` is not part of this model. Its state is the map of pending requests, the request mode, the run number and the messages sent.
- When no valid header is found, `Mu2eRequestSender::analyze` uses uninitialised `seq` and `ts`. The model takes these stale values as inputs.
- The raw-output file written by the receivers and the detached sim-file reader threads are left out. They are file I/O. Only the time-stamped file-name rule is modelled.
- The Mu2eReceiver buffer-growth heuristic is left out. It works in floating point and only sizes an allocation.
- `StmUdpReceivers.Cut` stops at an event that would run past the received buffer, or whose length word lies past it. As written the loop reads and copies past the buffer there, which has no meaning in the model.
- `OfflineSource.Fetch` ends with `StillWaiting` when the modelled arrivals run out while resuming after time-outs. The source keeps polling.
- OfflineSource: the wall-clock deadline of the wait loop is reduced to whether an arrival times out.
- `Mu2eProducers.Timestamp` is the sum `low + medium * 2^16`. This equals the source's bitwise or because both halves are 16-bit values.
- Mu2eProducer: the tracker and calorimeter field decoding and the digis, which the source only sketches in comments, are left out. A visit records which parse the mode selects.
- Mu2eProducer: the `size_t` cursor is unbounded. A wrap-around of `curPosBytes` is not modelled.
- CRVGR: `nGrEvents_` and `nEvents_` are `int` in the source. Their overflow is not modelled.
- DTCDataVerifier: a missing label is modelled as the throw that dereferencing the invalid handle ends in.
- DTCEventVerifier: the console output is left out. So is the `ewt_check`/`dtc_check` code after the `return` in `filter`, which never runs.
- `CurrentFragments.DebugTimestampIncreases` requires that `(pid << 16) + n + 1` does not wrap at 2^64. Past that, the debug timestamp wraps and the increase fails.
- `SubEventReceiver.SubEventSequenceIdsDistinct` requires that the sequence-ID formula does not wrap at 2^64.
- The `std::list`, `std::set` and `std::vector` containers are modelled as sequences. Node identity and iterator invalidation are not modelled.

## Findings

| source | as written | input that shows it | evidently intended | confidence | as-written member | corrected member |
|---|---|---|---|---|---|---|
| artdaq-mu2e/Generators/Mu2eEventReceiverBase.cc:217-224 | each event of a multi-event read is copied into the container's own storage (`frags.back()`), not into the entry `frag` that is then added | a read returning two non-empty events | each container entry carries its own event's bytes | high, not executed | EventReceiverBase.ContainerEntriesEmptyAsWritten | EventReceiverBase.PackEventsCarriesAll |
| artdaq-mu2e/Generators/Mu2eSubEventReceiver_generator.cc:253-333 | every sub-event of a read is stamped with the tag of the first sub-event | two sub-events with tags 10 and 11 both go out with tag and timestamp 10 | each sub-event's fragment carries its own tag | medium, not executed | SubEventReceiver.SharedTagAsWritten | SubEventReceiver.EachSubEventOwnTag |
| mu2e-artdaq/Generators/Mu2eReceiver_generator.cc:247 | the coalescing loop reads `data[i + 1]` before checking that it exists | any read that returns at least one block, e.g. a single block | stop the run at the last block | high, not executed | Mu2eReceiverGenerator.CoalesceAsWrittenReadsPastEnd | Mu2eReceiverGenerator.CoalesceCoversRead |
| mu2e-artdaq/ArtModules/detail/CurrentFragment.cc:43-84 | the cursor advances by the header's byte count, so a byte count of 0 never moves it | a super block whose first data header has byte count 0 | treat a zero byte count as unreadable data and end the walk | medium, not executed | CurrentFragments.ZeroByteCountStallsAsWritten | CurrentFragments.ReadHeader |
| tools/DemoControl.rb:698-700 | the `rescue` clause adds an exception object to a string, which raises `TypeError` inside the thread | any RPC call that raises (a time-out, a refused connection) | the result text "Exception: …" | high, not executed | SystemControl.CommandResultAsWritten | SystemControl.CommandResult |
| tools/DemoControl.rb:722-724 | the `TypeError` from the rescue is re-raised when the thread is joined, so later waves are never sent | a toy reader that fails on `shutdown` keeps the command from the event builders and aggregators | every wave is sent and the failure is reported | high, not executed | SystemControl.FailedToyStopsWavesAsWritten | SystemControl.Controller.RunWaves |
| tools/DemoControl.rb:769-772 | the event-count poll's rescue adds an exception to a string, so one timed-out poll aborts the script | one time-out during `stop`'s event-count loop | keep the count and poll again | high, not executed | SystemControl.PollFailureAbortsAsWritten | SystemControl.PollEventCount |
| tools/DemoControl.rb:834-837 | the run-duration poll's rescue has the same string-plus-exception error | one time-out during `stop`'s run-duration loop | take the duration as 0, as the rescue sets it, and poll again | high, not executed | SystemControl.DurationFailureAbortsAsWritten | SystemControl.PollRunDuration |
| tools/DemoControl.rb:142-147 | `Integer()` on a size with a leading zero reads octal, and the warning for an unreadable size adds the exception to a string | child sizes "09" and "7" | skip the unreadable size and take the largest readable one | medium, not executed | ConfigGen.UnreadableSizeAbortsAsWritten | ConfigGen.MaxSizeIsMaximum |
| artdaq-mu2e/Generators/STMUDPReceiver_generator.cc:103-115 | the cursor moves by `3 + event_len`, and a length word of -3 leaves it in place | a received buffer whose event-length word is -3 | stop cutting at an event that does not move the cursor | medium, not executed | StmUdpReceivers.MinusThreeStallsAsWritten | StmUdpReceivers.CutAgreesWithStepAsWritten |
| artdaq-mu2e/ArtModules/CRVGR_module.cc:204-208 | the status-block branch calls `metricMan->sendMetric` without the null check the GR branch has | one valid CRV status block (version 0) with no metric manager configured | skip the metrics when `metricMan` is null | high, not executed | DtcEventFilters.StatusBlockCrashesAsWritten | DtcEventFilters.CountAsWrittenAgrees |
