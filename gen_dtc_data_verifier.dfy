/**
 * `generateDTCDataVerifier`: the `ddv` analyzer block. The fragment ids and
 * their types arrive as two parallel lists; the block lists the types in
 * ascending order of fragment id, each id giving the type it was paired with
 * last.
 */
module GenerateDTCDataVerifier {

  import opened Templates

  const DDV_HEAD: string := "    ddv: {\n" + "      module_type: DTCDataVerifier\n" + "      fragment_type_labels: "
  const DDV_TAIL: string := " " + "    }"

  function DdvTemplate(): Template
  {
    [Lit(DDV_HEAD), Hole("fragment_type_labels"), Lit(DDV_TAIL)]
  }

  /** The type paired with position `i`; past the end of the type list Ruby reads nil, printed as "". */
  function TypeText(types: seq<string>, i: int): string
  {
    if 0 <= i < |types| then types[i] else ""
  }

  /** The id-to-type map after the first `n` rounds of the filling loop. */
  function TypeMapOf(ids: seq<int>, types: seq<string>, n: nat): (m: map<int, string>)
    requires n <= |ids|
  {
    if n == 0 then map[] else TypeMapOf(ids, types, n - 1)[ids[n - 1] := TypeText(types, n - 1)]
  }

  /** The map's keys are exactly the ids seen so far. */
  lemma {:induction false} TypeMapKeys(ids: seq<int>, types: seq<string>, n: nat)
    requires n <= |ids|
    ensures forall id :: id in TypeMapOf(ids, types, n) <==> id in ids[..n]
  {
    if n > 0 {
      TypeMapKeys(ids, types, n - 1);
      assert ids[..n] == ids[..n - 1] + [ids[n - 1]];
    }
  }

  /** For an id given more than once, the type paired with its last occurrence wins. */
  lemma {:induction false} TypeMapLastWins(ids: seq<int>, types: seq<string>, n: nat, j: int)
    requires n <= |ids| && 0 <= j < n
    requires forall k :: j < k < n ==> ids[k] != ids[j]
    ensures ids[j] in TypeMapOf(ids, types, n)
    ensures TypeMapOf(ids, types, n)[ids[j]] == TypeText(types, j)
  {
    if j < n - 1 {
      TypeMapLastWins(ids, types, n - 1, j);
    }
  }

  // Ruby's Array#sort on integers, as an insertion sort on values.

  predicate Sorted(s: seq<int>)
  {
    forall i, j :: 0 <= i < j < |s| ==> s[i] <= s[j]
  }

  function Insert(x: int, s: seq<int>): (r: seq<int>)
  {
    if s == [] || x <= s[0] then [x] + s else [s[0]] + Insert(x, s[1..])
  }

  function SortInts(s: seq<int>): (r: seq<int>)
  {
    if s == [] then [] else Insert(s[0], SortInts(s[1..]))
  }

  predicate AtLeast(s: seq<int>, b: int)
  {
    forall k :: 0 <= k < |s| ==> b <= s[k]
  }

  lemma {:induction false} InsertPermutation(x: int, s: seq<int>)
    ensures multiset(Insert(x, s)) == multiset(s) + multiset{x}
  {
    if s != [] && x > s[0] {
      InsertPermutation(x, s[1..]);
      assert s == [s[0]] + s[1..];
    }
  }

  lemma {:induction false} InsertAtLeast(x: int, s: seq<int>, b: int)
    requires AtLeast(s, b) && b <= x
    ensures AtLeast(Insert(x, s), b)
  {
    if s != [] && x > s[0] {
      InsertAtLeast(x, s[1..], b);
    }
  }

  lemma {:induction false} InsertSorted(x: int, s: seq<int>)
    requires Sorted(s)
    ensures Sorted(Insert(x, s))
  {
    if s != [] && x > s[0] {
      InsertSorted(x, s[1..]);
      InsertAtLeast(x, s[1..], s[0]);
      var r := Insert(x, s[1..]);
      assert AtLeast(r, s[0]);
      assert Insert(x, s) == [s[0]] + r;
    }
  }

  /** The sorted list is ascending and holds the same ids, duplicates included. */
  lemma {:induction false} SortIntsSortedPermutation(s: seq<int>)
    ensures Sorted(SortInts(s))
    ensures multiset(SortInts(s)) == multiset(s)
  {
    if s != [] {
      SortIntsSortedPermutation(s[1..]);
      InsertSorted(s[0], SortInts(s[1..]));
      InsertPermutation(s[0], SortInts(s[1..]));
      assert s == [s[0]] + s[1..];
    }
  }

  /** The labels in ascending order of id, each the type its id maps to. */
  function LabelsInIdOrder(ids: seq<int>, types: seq<string>): (labels: seq<string>)
  {
    LabelsOf(TypeMapOf(ids, types, |ids|), SortInts(ids))
  }

  /** `typemap[id]` for each id in turn; a missing key reads nil, printed as "". */
  function LabelsOf(m: map<int, string>, sorted: seq<int>): (labels: seq<string>)
  {
    seq(|sorted|, k requires 0 <= k < |sorted| => if sorted[k] in m then m[sorted[k]] else "")
  }

  /** Each label followed by a comma, as the loop appends them. */
  function Commas(labels: seq<string>): string
  {
    if labels == [] then "" else labels[0] + "," + Commas(labels[1..])
  }

  /** The labels separated by commas: the reference for the list the script prints. */
  function JoinComma(labels: seq<string>): string
    requires labels != []
  {
    if |labels| == 1 then labels[0] else labels[0] + "," + JoinComma(labels[1..])
  }

  /** The FHiCL list of labels: "[ a,b,c]", or "[]" for none. */
  function LabelListText(labels: seq<string>): (text: string)
    ensures labels == [] ==> text == "[]"
    ensures labels != [] ==> |text| >= 3 && text[0] == '[' && text[1] == ' ' && text[|text| - 1] == ']'
  {
    if labels == [] then "[]" else "[ " + JoinComma(labels) + "]"
  }

  lemma {:induction false} CommasSnoc(labels: seq<string>, l: string)
    ensures Commas(labels + [l]) == Commas(labels) + l + ","
  {
    if labels != [] {
      CommasSnoc(labels[1..], l);
      assert (labels + [l])[1..] == labels[1..] + [l];
    } else {
      assert [l][1..] == [];
    }
  }

  /** Dropping the trailing comma of the loop's text leaves the comma-joined labels. */
  lemma {:induction false} CommasDropLast(labels: seq<string>)
    requires labels != []
    ensures Commas(labels) == JoinComma(labels) + ","
  {
    if |labels| > 1 {
      CommasDropLast(labels[1..]);
    } else {
      assert labels[1..] == [];
    }
  }

  /** The whole block, once the list text is known. */
  lemma RenderDdv(text: string)
    ensures Render(Fill(DdvTemplate(), "fragment_type_labels", text)) == DDV_HEAD + text + DDV_TAIL
  {
    var d := Fill(DdvTemplate(), "fragment_type_labels", text);
    assert d == [Lit(DDV_HEAD), Lit(text), Lit(DDV_TAIL)];
    assert Render(d[1..][1..]) == DDV_TAIL + Render(d[1..][1..][1..]);
    assert d[1..][1..][1..] == [];
  }

  /** The `upto` loop: pair each id with its type, a later pairing replacing an earlier one. */
  method FillTypeMap(ids: seq<int>, types: seq<string>) returns (typemap: map<int, string>)
    ensures typemap == TypeMapOf(ids, types, |ids|)
  {
    typemap := map[];
    var i := 0;
    while i < |ids|
      invariant 0 <= i <= |ids|
      invariant typemap == TypeMapOf(ids, types, i)
    {
      typemap := typemap[ids[i] := if i < |types| then types[i] else ""];
      i := i + 1;
    }
  }

  /** Append "type," for each sorted id to "[ ", then overwrite the last character with "]". */
  method ListLabels(typemap: map<int, string>, sorted: seq<int>) returns (list: string)
    ensures list == LabelListText(LabelsOf(typemap, sorted))
  {
    ghost var labels := LabelsOf(typemap, sorted);
    list := "[ ";
    var k := 0;
    while k < |sorted|
      invariant 0 <= k <= |sorted|
      invariant list == "[ " + Commas(labels[..k])
    {
      var typeText := if sorted[k] in typemap then typemap[sorted[k]] else "";
      assert labels[..k + 1] == labels[..k] + [typeText];
      CommasSnoc(labels[..k], typeText);
      list := list + typeText + ",";
      k := k + 1;
    }
    assert labels[..k] == labels;
    OverwriteLast(labels, list);
    list := list[..|list| - 1] + "]";
  }

  /** Overwriting the last character of the appended text gives the list's FHiCL text. */
  lemma OverwriteLast(labels: seq<string>, list: string)
    requires list == "[ " + Commas(labels)
    ensures |list| >= 1 && list[..|list| - 1] + "]" == LabelListText(labels)
  {
    if labels != [] {
      CommasDropLast(labels);
      assert list == "[ " + JoinComma(labels) + ",";
      assert list[..|list| - 1] == "[ " + JoinComma(labels);
    } else {
      assert list[..|list| - 1] == "[";
    }
  }

  /**
   * The block with the type labels in ascending order of fragment id. The id
   * list the script also builds is never used and is not kept.
   */
  method GenerateDTCDataVerifier(ids: seq<int>, types: seq<string>) returns (config: string)
    ensures config == DDV_HEAD + LabelListText(LabelsInIdOrder(ids, types)) + DDV_TAIL
  {
    var typemap := FillTypeMap(ids, types);
    var list := ListLabels(typemap, SortInts(ids));
    config := Render(Fill(DdvTemplate(), "fragment_type_labels", list));
    RenderDdv(list);
  }

  /**
   * The labels come in ascending order of fragment id: label k is the type
   * mapped to the k-th smallest id (with duplicates kept), and the ids so
   * ordered are exactly the given ones.
   */
  lemma LabelsFollowSortedIds(ids: seq<int>, types: seq<string>)
    ensures |LabelsInIdOrder(ids, types)| == |ids|
    ensures Sorted(SortInts(ids)) && multiset(SortInts(ids)) == multiset(ids)
    ensures forall k :: 0 <= k < |ids| ==>
              SortInts(ids)[k] in TypeMapOf(ids, types, |ids|) &&
              LabelsInIdOrder(ids, types)[k] == TypeMapOf(ids, types, |ids|)[SortInts(ids)[k]]
  {
    SortIntsSortedPermutation(ids);
    TypeMapKeys(ids, types, |ids|);
    assert ids[..|ids|] == ids;
    assert |SortInts(ids)| == |multiset(SortInts(ids))| == |ids|;
    forall k | 0 <= k < |ids| ensures SortInts(ids)[k] in TypeMapOf(ids, types, |ids|) {
      assert SortInts(ids)[k] in multiset(ids);
    }
  }
}
