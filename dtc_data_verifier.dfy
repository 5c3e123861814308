/**
 * `DTCDataVerifier`, the art analyzer that checks the DTC and MU2E fragments
 * of each event for timestamp continuity. Two copies exist: the artdaq-mu2e
 * one and the older mu2e-artdaq one. They differ in which MU2E block
 * timestamps they accept, in the block-count warning and in how they treat
 * EMPTY fragments.
 *
 * Warnings are values in the result; a `cet::exception` is the `threw` flag.
 * Timestamps and IDs are `uint64_t`: `ts + 1` and `next - BLOCK_COUNT_MAX`
 * are taken modulo 2^64.
 */
module DataVerifiers {

  import opened Common

  /** Which of the two copies of the module. */
  datatype Copy = ArtdaqMu2e | Mu2eArtdaq

  /** `std::numeric_limits<sequence_id_t>::max()`, the "no ID yet" marker. */
  const NO_SEQUENCE_ID: nat := TWO_64 - 1

  // ---- the fragment type labels ----

  /** `std::string`'s `operator<`: lexicographic order on characters. */
  predicate Below(a: string, b: string)
  {
    if a == [] then b != []
    else if b == [] then false
    else if a[0] != b[0] then a[0] < b[0]
    else Below(a[1..], b[1..])
  }

  lemma {:induction false} BelowIrreflexive(a: string)
    ensures !Below(a, a)
  {
    if a != [] {
      BelowIrreflexive(a[1..]);
    }
  }

  lemma {:induction false} BelowTransitive(a: string, b: string, c: string)
    requires Below(a, b) && Below(b, c)
    ensures Below(a, c)
  {
    if a != [] && b != [] && c != [] && a[0] == b[0] && b[0] == c[0] {
      BelowTransitive(a[1..], b[1..], c[1..]);
    }
  }

  lemma {:induction false} BelowAsymmetric(a: string, b: string)
    ensures Below(a, b) ==> !Below(b, a)
  {
    if a != [] && b != [] && a[0] == b[0] {
      BelowAsymmetric(a[1..], b[1..]);
    }
  }

  /** Any two different labels are ordered one way or the other. */
  lemma {:induction false} BelowTotal(a: string, b: string)
    ensures a != b ==> Below(a, b) || Below(b, a)
  {
    if a != b && a != [] && b != [] && a[0] == b[0] {
      assert a[1..] != b[1..] by {
        assert a == [a[0]] + a[1..] && b == [b[0]] + b[1..];
      }
      BelowTotal(a[1..], b[1..]);
    }
  }

  /** Sorted with no label twice: what `sort` followed by `unique` and `erase` leaves. */
  predicate StrictlySorted(s: seq<string>)
  {
    forall i, j :: 0 <= i < j < |s| ==> Below(s[i], s[j])
  }

  /** One label put in its place in a strictly sorted list, unless it is there already. */
  function InsertLabel(sorted: seq<string>, name: string): (r: seq<string>)
    requires StrictlySorted(sorted)
    ensures StrictlySorted(r)
    ensures forall l :: l in r <==> l in sorted || l == name
  {
    if sorted == [] then [name]
    else if sorted[0] == name then sorted
    else if Below(name, sorted[0]) then
      assert forall j :: 0 <= j < |sorted| ==> Below(name, sorted[j]) by {
        forall j | 0 < j < |sorted| ensures Below(name, sorted[j]) {
          BelowTransitive(name, sorted[0], sorted[j]);
        }
      }
      [name] + sorted
    else
      BelowTotal(name, sorted[0]);
      var tail := InsertLabel(sorted[1..], name);
      assert forall l :: l in sorted <==> l == sorted[0] || l in sorted[1..] by {
        assert sorted == [sorted[0]] + sorted[1..];
      }
      assert forall j :: 0 <= j < |tail| ==> Below(sorted[0], tail[j]) by {
        forall j | 0 <= j < |tail| ensures Below(sorted[0], tail[j]) {
          if tail[j] != name {
            assert tail[j] in tail;
            var k :| 0 <= k < |sorted[1..]| && sorted[1..][k] == tail[j];
            assert sorted[k + 1] == tail[j];
          }
        }
      }
      [sorted[0]] + tail
  }

  /** A strictly sorted list is fixed by the labels it holds. */
  lemma {:induction false} StrictlySortedUnique(a: seq<string>, b: seq<string>)
    requires StrictlySorted(a) && StrictlySorted(b)
    requires forall l :: l in a <==> l in b
    ensures a == b
  {
    NoMembersEmpty(a);
    NoMembersEmpty(b);
    if a != [] && b != [] {
      assert a[0] in b && b[0] in a;
      NothingBelowHead(a, b[0]);
      NothingBelowHead(b, a[0]);
      BelowTotal(a[0], b[0]);
      BelowIrreflexive(a[0]);
      forall l ensures l in a[1..] <==> l in b[1..] {
        if l in a[1..] {
          var i :| 1 <= i < |a| && a[i] == l;
          assert l != a[0];
          assert l in b;
        }
        if l in b[1..] {
          var i :| 1 <= i < |b| && b[i] == l;
          assert l != b[0];
          assert l in a;
        }
      }
      StrictlySortedUnique(a[1..], b[1..]);
      assert a == [a[0]] + a[1..] && b == [b[0]] + b[1..];
    }
  }

  lemma NoMembersEmpty(s: seq<string>)
    ensures s == [] <==> forall l :: l !in s
  {
    if s != [] {
      assert s[0] in s;
    }
  }

  /** No label of a strictly sorted list is below its head. */
  lemma NothingBelowHead(a: seq<string>, x: string)
    requires StrictlySorted(a) && x in a
    ensures !Below(x, a[0])
  {
    var j :| 0 <= j < |a| && a[j] == x;
    if j == 0 {
      BelowIrreflexive(x);
    } else {
      BelowAsymmetric(a[0], x);
    }
  }

  // ---- the fragments of an event ----

  datatype FragmentKind = Dtc | Mu2e | Empty | Other(code: nat)

  /**
   * A fragment as the verifier sees it: the sequence ID, the type, the DTC
   * header timestamp (used for DTC fragments) and the event-window tag of
   * each data block (used for MU2E fragments).
   */
  datatype Fragment = Fragment(sequenceId: nat, kind: FragmentKind, timestamp: nat, blockTimestamps: seq<nat>)

  /**
   * The fragments under each label, label by label in order. A label the
   * event lacks leaves the handle invalid, and reading through it throws.
   */
  function Gather(labels: seq<string>, event: map<string, seq<Fragment>>): (r: Option<seq<Fragment>>)
    ensures r.None? <==> exists i :: 0 <= i < |labels| && labels[i] !in event
  {
    if labels == [] then Some([])
    else if labels[0] !in event then None
    else
      match Gather(labels[1..], event)
      case None => None
      case Some(rest) => Some(event[labels[0]] + rest)
  }

  datatype Warning =
    | SequenceMismatch(expected: nat, received: nat)
    | TimestampMismatch(ts: nat, expectedTs: nat)
    | BlockTimestampMismatch(block: nat, blockTs: nat, expectedBlockTs: nat)
    | BlockCount(count: nat)

  /** The fragment types the copy has a `case` for; any other throws. */
  predicate Handled(copy: Copy, kind: FragmentKind)
  {
    kind.Dtc? || kind.Mu2e? || (kind.Empty? && copy == ArtdaqMu2e)
  }

  /** Whether a block's timestamp is the expected one, or for artdaq-mu2e also `BLOCK_COUNT_MAX` below it. */
  predicate BlockAccepted(copy: Copy, blockCountMax: nat, next: nat, ts: nat)
  {
    ts == next || (copy == ArtdaqMu2e && ts == U64(next - blockCountMax))
  }

  /** The warnings of the block loop from block `ii` of `tss` on, and `next_timestamp_` after it. */
  function Blocks(copy: Copy, blockCountMax: nat, next: nat, tss: seq<nat>, ii: nat): (seq<Warning>, nat)
    requires ii <= |tss|
    decreases |tss| - ii
  {
    if ii == |tss| then ([], next)
    else
      var ws := if BlockAccepted(copy, blockCountMax, next, tss[ii]) then [] else [BlockTimestampMismatch(ii, tss[ii], next)];
      var rest := Blocks(copy, blockCountMax, U64(tss[ii] + 1), tss, ii + 1);
      (ws + rest.0, rest.1)
  }

  /** What checking the fragments so far gave: warnings, the two running values, and whether it threw. */
  datatype Scan = Scan(warnings: seq<Warning>, next: nat, expected: nat, threw: bool)

  /** The expected sequence ID once fragment `f` is seen: the first fragment's ID. */
  function Expect(expected: nat, f: Fragment): nat
  {
    if expected == NO_SEQUENCE_ID then f.sequenceId else expected
  }

  /** The body of the fragment loop for one fragment. */
  function CheckFragment(copy: Copy, blockCountMax: nat, next: nat, expected: nat, f: Fragment): Scan
  {
    var expected' := Expect(expected, f);
    var seqWs := if expected' != f.sequenceId then [SequenceMismatch(expected', f.sequenceId)] else [];
    match f.kind
    case Dtc =>
      var ws := if f.timestamp != next then [TimestampMismatch(f.timestamp, next)] else [];
      Scan(seqWs + ws, U64(f.timestamp + 1), expected', false)
    case Mu2e =>
      var (bws, next') := Blocks(copy, blockCountMax, next, f.blockTimestamps, 0);
      var count := |f.blockTimestamps|;
      var cws := if copy == ArtdaqMu2e && count != blockCountMax then [BlockCount(count)] else [];
      Scan(seqWs + bws + cws, next', expected', false)
    case _ => Scan(seqWs, next, expected', !Handled(copy, f.kind))
  }

  /** The fragment loop: fragment by fragment, up to the first one that throws. */
  function Verify(copy: Copy, blockCountMax: nat, next: nat, expected: nat, frags: seq<Fragment>): Scan
    decreases |frags|
  {
    if frags == [] then Scan([], next, expected, false)
    else
      var s := CheckFragment(copy, blockCountMax, next, expected, frags[0]);
      if s.threw then s
      else
        var rest := Verify(copy, blockCountMax, s.next, s.expected, frags[1..]);
        rest.(warnings := s.warnings + rest.warnings)
  }

  // ---- what the checks promise ----

  /**
   * A DTC fragment warns about its timestamp exactly when it is not the
   * expected one, and the next expected timestamp is one past it.
   */
  lemma DtcTimestampChecked(copy: Copy, blockCountMax: nat, next: nat, expected: nat, f: Fragment)
    requires f.kind.Dtc?
    ensures var s := CheckFragment(copy, blockCountMax, next, expected, f);
            !s.threw && s.next == U64(f.timestamp + 1) &&
            (TimestampMismatch(f.timestamp, next) in s.warnings <==> f.timestamp != next)
  {
  }

  /** Blocks whose timestamps count up from the expected one give no warning. */
  lemma {:induction false} ContiguousBlocksClean(copy: Copy, blockCountMax: nat, next: nat, tss: seq<nat>, ii: nat)
    requires ii <= |tss| && next + |tss| - ii < TWO_64
    requires forall k :: ii <= k < |tss| ==> tss[k] == next + k - ii
    ensures Blocks(copy, blockCountMax, next, tss, ii).0 == []
    ensures Blocks(copy, blockCountMax, next, tss, ii).1 == next + |tss| - ii
    decreases |tss| - ii
  {
    if ii < |tss| {
      assert U64(tss[ii] + 1) == next + 1;
      ContiguousBlocksClean(copy, blockCountMax, next + 1, tss, ii + 1);
      assert Blocks(copy, blockCountMax, next, tss, ii).0 == [] + Blocks(copy, blockCountMax, next + 1, tss, ii + 1).0;
    }
  }

  /**
   * At most one warning per block, each about a block timestamp; after the
   * loop the expected timestamp is one past the last block's.
   */
  lemma {:induction false} BlockWarningsCount(copy: Copy, blockCountMax: nat, next: nat, tss: seq<nat>, ii: nat)
    requires ii <= |tss|
    ensures |Blocks(copy, blockCountMax, next, tss, ii).0| <= |tss| - ii
    ensures ii < |tss| ==> Blocks(copy, blockCountMax, next, tss, ii).1 == U64(tss[|tss| - 1] + 1)
    ensures forall w :: w in Blocks(copy, blockCountMax, next, tss, ii).0 ==> w.BlockTimestampMismatch?
    decreases |tss| - ii
  {
    if ii < |tss| {
      var rest := Blocks(copy, blockCountMax, U64(tss[ii] + 1), tss, ii + 1);
      BlockWarningsCount(copy, blockCountMax, U64(tss[ii] + 1), tss, ii + 1);
      if ii + 1 == |tss| {
        assert rest.1 == U64(tss[ii] + 1);
      }
    }
  }

  /**
   * The copies differ on a block that restarts `BLOCK_COUNT_MAX` below the
   * expected timestamp: artdaq-mu2e accepts it, mu2e-artdaq warns.
   */
  lemma CopiesDifferOnRestart()
    ensures var f := Fragment(7, Mu2e, 0, [2, 3]);
            CheckFragment(ArtdaqMu2e, 2, 4, 7, f) == Scan([], 4, 7, false) &&
            CheckFragment(Mu2eArtdaq, 2, 4, 7, f) == Scan([BlockTimestampMismatch(0, 2, 4)], 4, 7, false)
  {
    assert U64(2) == 2 && U64(3) == 3 && U64(4) == 4;
    assert BlockAccepted(ArtdaqMu2e, 2, 4, 2) && !BlockAccepted(Mu2eArtdaq, 2, 4, 2);
    assert Blocks(ArtdaqMu2e, 2, 3, [2, 3], 1).0 == [] + [];
    assert Blocks(Mu2eArtdaq, 2, 3, [2, 3], 1).0 == [] + [];
    assert Blocks(ArtdaqMu2e, 2, 4, [2, 3], 0).0 == [] + [];
    assert Blocks(Mu2eArtdaq, 2, 4, [2, 3], 0).0 == [BlockTimestampMismatch(0, 2, 4)] + [];
  }

  /** Only artdaq-mu2e warns about a MU2E fragment that is not full. */
  lemma CopiesDifferOnBlockCount()
    ensures var g := Fragment(7, Mu2e, 0, [4]);
            CheckFragment(ArtdaqMu2e, 2, 4, 7, g) == Scan([BlockCount(1)], 5, 7, false) &&
            CheckFragment(Mu2eArtdaq, 2, 4, 7, g) == Scan([], 5, 7, false)
  {
    assert U64(5) == 5;
    assert Blocks(ArtdaqMu2e, 2, 4, [4], 0).0 == [] + [];
    assert Blocks(Mu2eArtdaq, 2, 4, [4], 0).0 == [] + [];
  }

  /** The analysis throws exactly when some fragment has a type the copy does not handle. */
  lemma {:induction false} ThrowsIffUnhandled(copy: Copy, blockCountMax: nat, next: nat, expected: nat, frags: seq<Fragment>)
    ensures Verify(copy, blockCountMax, next, expected, frags).threw <==>
            exists i :: 0 <= i < |frags| && !Handled(copy, frags[i].kind)
    decreases |frags|
  {
    if frags != [] {
      ThrowsIffUnhandled(copy, blockCountMax, CheckFragment(copy, blockCountMax, next, expected, frags[0]).next,
                         CheckFragment(copy, blockCountMax, next, expected, frags[0]).expected, frags[1..]);
      assert forall i :: 1 <= i < |frags| ==> frags[i] == frags[1..][i - 1];
    }
  }

  /** Each fragment's own sequence-ID warning: there is one exactly when its ID is not the expected one. */
  lemma FragmentSequenceCheck(copy: Copy, blockCountMax: nat, next: nat, expected: nat, f: Fragment)
    ensures var s := CheckFragment(copy, blockCountMax, next, expected, f);
            s.expected == Expect(expected, f) &&
            (forall w :: w in s.warnings && w.SequenceMismatch? ==> w == SequenceMismatch(s.expected, f.sequenceId)) &&
            (SequenceMismatch(s.expected, f.sequenceId) in s.warnings <==> f.sequenceId != s.expected)
  {
    BlockWarningsCount(copy, blockCountMax, next, f.blockTimestamps, 0);
  }

  /**
   * Once an expected sequence ID is set it never changes, and a fragment with
   * another ID is warned about but checked like any other.
   */
  lemma {:induction false} SequenceIdFixed(copy: Copy, blockCountMax: nat, next: nat, expected: nat, frags: seq<Fragment>)
    requires expected != NO_SEQUENCE_ID
    ensures var s := Verify(copy, blockCountMax, next, expected, frags);
            s.expected == expected &&
            (forall w :: w in s.warnings && w.SequenceMismatch? ==> w.expected == expected && w.received != expected) &&
            (!s.threw ==> forall i :: 0 <= i < |frags| && frags[i].sequenceId != expected ==>
                            SequenceMismatch(expected, frags[i].sequenceId) in s.warnings)
    decreases |frags|
  {
    if frags != [] {
      var s0 := CheckFragment(copy, blockCountMax, next, expected, frags[0]);
      FragmentSequenceCheck(copy, blockCountMax, next, expected, frags[0]);
      SequenceIdFixed(copy, blockCountMax, s0.next, expected, frags[1..]);
      assert forall i :: 1 <= i < |frags| ==> frags[i] == frags[1..][i - 1];
    }
  }

  /** The first fragment fixes the expected sequence ID. */
  lemma FirstFragmentFixesId(copy: Copy, blockCountMax: nat, next: nat, frags: seq<Fragment>)
    requires frags != [] && frags[0].sequenceId != NO_SEQUENCE_ID
    ensures Verify(copy, blockCountMax, next, NO_SEQUENCE_ID, frags).expected == frags[0].sequenceId
  {
    var s0 := CheckFragment(copy, blockCountMax, next, NO_SEQUENCE_ID, frags[0]);
    if !s0.threw {
      SequenceIdFixed(copy, blockCountMax, s0.next, s0.expected, frags[1..]);
    }
  }

  /** DTC fragments of one event whose timestamps count up from the expected one give no warning. */
  lemma {:induction false} ContiguousDtcClean(copy: Copy, blockCountMax: nat, next: nat, expected: nat, frags: seq<Fragment>)
    requires expected != NO_SEQUENCE_ID && next + |frags| < TWO_64
    requires forall k :: 0 <= k < |frags| ==>
               frags[k].kind.Dtc? && frags[k].timestamp == next + k && frags[k].sequenceId == expected
    ensures Verify(copy, blockCountMax, next, expected, frags) == Scan([], next + |frags|, expected, false)
    decreases |frags|
  {
    if frags != [] {
      ContiguousDtcClean(copy, blockCountMax, next + 1, expected, frags[1..]);
    }
  }

  class DTCDataVerifier {
    const copy: Copy
    /** `BLOCK_COUNT_MAX`, the capacity of a MU2E fragment. */
    const blockCountMax: nat
    /** `fragment_type_labels_`. */
    const labels: seq<string>
    /** `next_timestamp_`. */
    var nextTimestamp: nat

    /** The labels are sorted and their duplicates dropped; the first expected timestamp is 0. */
    constructor (copy: Copy, blockCountMax: nat, configured: seq<string>)
      ensures this.copy == copy && this.blockCountMax == blockCountMax && nextTimestamp == 0
      ensures StrictlySorted(labels) && forall l :: l in labels <==> l in configured
    {
      this.copy := copy;
      this.blockCountMax := blockCountMax;
      var sorted := SortUnique(configured);
      labels := sorted;
      nextTimestamp := 0;
    }

    /**
     * `sort` then `unique`/`erase`: the labels in order, each once. By
     * `StrictlySortedUnique` no other list has both properties.
     */
    static method SortUnique(configured: seq<string>) returns (r: seq<string>)
      ensures StrictlySorted(r)
      ensures forall l :: l in r <==> l in configured
    {
      r := [];
      for i := 0 to |configured|
        invariant StrictlySorted(r)
        invariant forall l :: l in r <==> l in configured[..i]
      {
        assert configured[..i + 1] == configured[..i] + [configured[i]];
        r := InsertLabel(r, configured[i]);
      }
      assert configured[..|configured|] == configured;
    }

    /** The label loop: the fragments of every label, in label order. */
    static method GatherFragments(labels: seq<string>, event: map<string, seq<Fragment>>) returns (r: Option<seq<Fragment>>)
      ensures r == Gather(labels, event)
    {
      var frags := [];
      var i := 0;
      assert labels[0..] == labels;
      if Gather(labels, event).Some? {
        assert [] + Gather(labels, event).value == Gather(labels, event).value;
      }
      while i < |labels|
        invariant 0 <= i <= |labels|
        invariant Gather(labels, event) == (match Gather(labels[i..], event)
                                             case None => None
                                             case Some(rest) => Some(frags + rest))
      {
        assert labels[i..][0] == labels[i] && labels[i..][1..] == labels[i + 1..];
        if labels[i] !in event {
          return None;
        }
        ghost var tail := Gather(labels[i + 1..], event);
        if tail.Some? {
          assert frags + (event[labels[i]] + tail.value) == (frags + event[labels[i]]) + tail.value;
        }
        frags := frags + event[labels[i]];
        i := i + 1;
      }
      assert frags + [] == frags;
      return Some(frags);
    }

    /** The block loop of a MU2E fragment. */
    static method CheckBlocks(copy: Copy, blockCountMax: nat, next0: nat, tss: seq<nat>) returns (ws: seq<Warning>, next: nat)
      ensures (ws, next) == Blocks(copy, blockCountMax, next0, tss, 0)
    {
      ws, next := [], next0;
      ghost var total := Blocks(copy, blockCountMax, next0, tss, 0);
      for ii := 0 to |tss|
        invariant total.0 == ws + Blocks(copy, blockCountMax, next, tss, ii).0
        invariant total.1 == Blocks(copy, blockCountMax, next, tss, ii).1
      {
        var w, next' := CheckBlock(copy, blockCountMax, next, tss, ii);
        ghost var rest := Blocks(copy, blockCountMax, next', tss, ii + 1).0;
        assert ws + (w + rest) == (ws + w) + rest;
        ws, next := ws + w, next';
      }
      assert ws + [] == ws;
    }

    /** One pass of the block loop: block `ii`'s warning, if any, and the timestamp expected next. */
    static method CheckBlock(copy: Copy, blockCountMax: nat, next: nat, tss: seq<nat>, ii: nat)
      returns (w: seq<Warning>, next': nat)
      requires ii < |tss|
      ensures var rest := Blocks(copy, blockCountMax, next', tss, ii + 1);
        Blocks(copy, blockCountMax, next, tss, ii) == (w + rest.0, rest.1)
    {
      var ts := tss[ii];
      w := if BlockAccepted(copy, blockCountMax, next, ts) then [] else [BlockTimestampMismatch(ii, ts, next)];
      next' := U64(ts + 1);
    }

    /** `analyze`: gather the fragments by label, then check them in order. */
    method Analyze(event: map<string, seq<Fragment>>) returns (warnings: seq<Warning>, threw: bool)
      modifies this
      ensures match Gather(labels, event)
              case None => threw && warnings == [] && nextTimestamp == old(nextTimestamp)
              case Some(frags) =>
                var s := Verify(copy, blockCountMax, old(nextTimestamp), NO_SEQUENCE_ID, frags);
                s.warnings == warnings && s.next == nextTimestamp && s.threw == threw
    {
      var gathered := GatherFragments(labels, event);
      if gathered.None? {
        return [], true;
      }
      var frags := gathered.value;
      var expected := NO_SEQUENCE_ID;
      ghost var next0 := nextTimestamp;
      warnings, threw := [], false;
      var i := 0;
      while i < |frags|
        invariant 0 <= i <= |frags|
        invariant var rest := Verify(copy, blockCountMax, nextTimestamp, expected, frags[i..]);
                  Verify(copy, blockCountMax, next0, NO_SEQUENCE_ID, frags) == rest.(warnings := warnings + rest.warnings)
      {
        assert frags[i..][0] == frags[i] && frags[i..][1..] == frags[i + 1..];
        var s := CheckOne(nextTimestamp, expected, frags[i]);
        warnings := warnings + s.warnings;
        nextTimestamp, expected := s.next, s.expected;
        if s.threw {
          return warnings, true;
        }
        i := i + 1;
      }
    }

    /** The body of the fragment loop: the sequence-ID check, then the `switch` on the type. */
    method CheckOne(next: nat, expected0: nat, f: Fragment) returns (s: Scan)
      ensures s == CheckFragment(copy, blockCountMax, next, expected0, f)
    {
      var expected := expected0;
      if expected == NO_SEQUENCE_ID {
        expected := f.sequenceId;
      }
      var ws := [];
      if expected != f.sequenceId {
        ws := [SequenceMismatch(expected, f.sequenceId)];
      }
      match f.kind
      case Dtc =>
        if f.timestamp != next {
          ws := ws + [TimestampMismatch(f.timestamp, next)];
        }
        return Scan(ws, (f.timestamp + 1) % TWO_64, expected, false);
      case Mu2e =>
        var bws, next' := CheckBlocks(copy, blockCountMax, next, f.blockTimestamps);
        ws := ws + bws;
        if copy == ArtdaqMu2e && |f.blockTimestamps| != blockCountMax {
          ws := ws + [BlockCount(|f.blockTimestamps|)];
        }
        return Scan(ws, next', expected, false);
      case Empty =>
        return Scan(ws, next, expected, copy != ArtdaqMu2e);
      case Other(_) =>
        return Scan(ws, next, expected, true);
    }
  }
}
