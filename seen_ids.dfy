/**
 * The CRV receivers' `seen_sequence_ids_`: a `std::set` of the sequence IDs
 * already served, capped at `sequence_id_list_max_size_` (1000) by erasing
 * the set's first, that is smallest, element after an insert that overflows.
 *
 * A `std::set` iterates in ascending order, so it is modelled as a strictly
 * increasing sequence.
 */
module SeenIds {

  /** `sequence_id_list_max_size_`. */
  const MAX_SEEN: nat := 1000

  predicate Sorted(s: seq<nat>)
  {
    forall i, j :: 0 <= i < j < |s| ==> s[i] < s[j]
  }

  /** `insert`: the set with `x` added, still in ascending order. */
  function Insert(s: seq<nat>, x: nat): (r: seq<nat>)
    requires Sorted(s)
    ensures Sorted(r)
    ensures forall y :: y in r <==> y in s || y == x
    ensures |r| == if x in s then |s| else |s| + 1
    decreases |s|
  {
    if s == [] then [x]
    else if x < s[0] then [x] + s
    else if x == s[0] then s
    else
      var r := Insert(s[1..], x);
      assert forall y :: y in r ==> s[0] < y by {
        forall y | y in r ensures s[0] < y {
          if y in s[1..] {
            var k :| 0 <= k < |s[1..]| && s[1..][k] == y;
            assert s[k + 1] == y;
          }
        }
      }
      assert forall j :: 0 <= j < |r| ==> s[0] < r[j] by {
        forall j | 0 <= j < |r| ensures s[0] < r[j] {
          assert r[j] in r;
        }
      }
      [s[0]] + r
  }

  /** The smallest element of a non-empty ascending sequence comes first. */
  lemma FirstIsSmallest(s: seq<nat>, y: nat)
    requires Sorted(s) && y in s
    ensures s[0] <= y
  {
  }

  /** A new ID is inserted, and the smallest ID is erased when the set then holds more than `cap`. */
  function Remember(s: seq<nat>, x: nat, cap: nat): (r: seq<nat>)
    requires Sorted(s)
  {
    var t := Insert(s, x);
    if |t| > cap then t[1..] else t
  }

  /**
   * Remembering keeps the set ascending and within its cap; it holds the old
   * IDs and the new one, less the smallest of them all when the cap was
   * exceeded. A new ID below every remembered one is therefore forgotten at
   * once when the set is full.
   */
  lemma RememberFacts(s: seq<nat>, x: nat, cap: nat)
    requires Sorted(s) && |s| <= cap && x !in s
    ensures var r := Remember(s, x, cap);
      Sorted(r) && |r| <= cap &&
      (|s| < cap ==> forall y :: y in r <==> y in s || y == x) &&
      (|s| == cap ==> forall y :: y in r <==> (y in s || y == x) && y != Insert(s, x)[0]) &&
      (|s| == cap && (forall y :: y in s ==> x < y) ==> x !in r)
  {
    var t := Insert(s, x);
    if |t| > cap {
      forall y ensures y in t[1..] <==> y in t && y != t[0] {
        if y in t[1..] {
          var k :| 0 <= k < |t[1..]| && t[1..][k] == y;
          assert t[k + 1] == y;
        }
        if y in t && y != t[0] {
          var k :| 0 <= k < |t| && t[k] == y;
          assert k != 0;
          assert t[1..][k - 1] == y;
        }
      }
      if forall y :: y in s ==> x < y {
        assert x in t;
        FirstIsSmallest(t, x);
        assert t[0] in t;
      }
    }
  }
}
