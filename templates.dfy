/**
 * The FHiCL documents of the run-control scripts are built by taking a fixed
 * text with `%{name}` placeholders and replacing every occurrence of one
 * placeholder after another (`text.gsub!(/\%\{name\}/, value)`).
 *
 * A document is modelled as a sequence of pieces: literal text and named
 * placeholders. Replacing a placeholder turns each of its pieces into literal
 * text, and the model does not scan inserted values for placeholders again.
 * Ruby does: each later `gsub!` of a chain scans the whole string, including
 * text that earlier calls inserted, so the two differ only for a value that
 * itself contains a `%{name}` replaced later in the chain.
 */
module Templates {

  import opened Common

  datatype Piece = Lit(text: string) | Hole(name: string)

  type Template = seq<Piece>

  /** The text of a document; a placeholder still present prints as `%{name}`. */
  function Render(t: Template): string
  {
    if t == [] then ""
    else (match t[0] case Lit(s) => s case Hole(n) => "%{" + n + "}") + Render(t[1..])
  }

  lemma {:induction false} RenderAppend(a: Template, b: Template)
    ensures Render(a + b) == Render(a) + Render(b)
  {
    if a == [] {
      assert a + b == b;
    } else {
      assert (a + b)[1..] == a[1..] + b;
      RenderAppend(a[1..], b);
    }
  }

  /** One `gsub!`: every occurrence of placeholder `name` becomes `value`. */
  function Fill(t: Template, name: string, value: string): (r: Template)
    ensures |r| == |t|
    ensures forall i :: 0 <= i < |t| && t[i] == Hole(name) ==> r[i] == Lit(value)
    ensures forall i :: 0 <= i < |t| && t[i] != Hole(name) ==> r[i] == t[i]
    ensures Hole(name) !in r
  {
    seq(|t|, i requires 0 <= i < |t| => if t[i] == Hole(name) then Lit(value) else t[i])
  }

  /** The value that a list of substitutions gives placeholder `name`: the first one wins. */
  function Lookup(names: seq<string>, values: seq<string>, name: string): (v: Option<string>)
    requires |names| == |values|
    ensures v.Some? <==> name in names
  {
    if names == [] then None
    else if names[0] == name then Some(values[0])
    else Lookup(names[1..], values[1..], name)
  }

  /** The value of a name is the one paired with its first occurrence. */
  lemma {:induction false} LookupAt(names: seq<string>, values: seq<string>, k: int)
    requires |names| == |values| && 0 <= k < |names| && names[k] !in names[..k]
    ensures Lookup(names, values, names[k]) == Some(values[k])
  {
    if k > 0 {
      assert names[0] in names[..k];
      assert names[1..][..k - 1] == names[..k][1..];
      LookupAt(names[1..], values[1..], k - 1);
    }
  }

  /** A chain of `gsub!` calls, applied in the order given. */
  function FillAll(t: Template, names: seq<string>, values: seq<string>): (r: Template)
    requires |names| == |values|
    ensures |r| == |t|
    decreases |names|
  {
    if names == [] then t else FillAll(Fill(t, names[0], values[0]), names[1..], values[1..])
  }

  /**
   * The chain of replacements puts, at every placeholder it names, the value of
   * the first replacement for that name, and leaves every other piece alone.
   */
  lemma {:induction false} FillAllAt(t: Template, names: seq<string>, values: seq<string>, i: int)
    requires |names| == |values| && 0 <= i < |t|
    ensures |FillAll(t, names, values)| == |t|
    ensures FillAll(t, names, values)[i] ==
      if t[i].Hole? && t[i].name in names then Lit(Lookup(names, values, t[i].name).value) else t[i]
    decreases |names|
  {
    if names != [] {
      var t' := Fill(t, names[0], values[0]);
      FillAllAt(t', names[1..], values[1..], i);
    }
  }

  /** Literal text is never touched by a replacement. */
  lemma {:induction false} FillAllKeepsLit(t: Template, names: seq<string>, values: seq<string>, i: int)
    requires |names| == |values| && 0 <= i < |t| && t[i].Lit?
    ensures FillAll(t, names, values)[i] == t[i]
    decreases |names|
  {
    if names != [] {
      FillAllKeepsLit(Fill(t, names[0], values[0]), names[1..], values[1..], i);
    }
  }

  /** A placeholder that the chain names at position `k` (and not before) gets value `k`. */
  lemma {:induction false} FillAllAtHole(t: Template, names: seq<string>, values: seq<string>, i: int, k: int)
    requires |names| == |values| && 0 <= i < |t| && 0 <= k < |names|
    requires t[i] == Hole(names[k]) && names[k] !in names[..k]
    ensures FillAll(t, names, values)[i] == Lit(values[k])
    decreases |names|
  {
    var t' := Fill(t, names[0], values[0]);
    if k == 0 {
      FillAllKeepsLit(t', names[1..], values[1..], i);
    } else {
      assert names[0] in names[..k];
      assert names[1..][..k - 1] == names[..k][1..];
      FillAllAtHole(t', names[1..], values[1..], i, k - 1);
    }
  }

  /** After the chain, exactly the placeholders it does not name are left. */
  lemma FillAllHoles(t: Template, names: seq<string>, values: seq<string>)
    requires |names| == |values|
    ensures forall n :: Hole(n) in FillAll(t, names, values) <==> Hole(n) in t && n !in names
  {
    var r := FillAll(t, names, values);
    forall n ensures Hole(n) in r <==> Hole(n) in t && n !in names {
      if Hole(n) in r {
        var i :| 0 <= i < |r| && r[i] == Hole(n);
        FillAllAt(t, names, values, i);
      }
      if Hole(n) in t && n !in names {
        var i :| 0 <= i < |t| && t[i] == Hole(n);
        FillAllAt(t, names, values, i);
      }
    }
  }

  /** A document whose placeholders are all named by the chain is left with none. */
  lemma FillAllComplete(t: Template, names: seq<string>, values: seq<string>)
    requires |names| == |values|
    requires forall n :: Hole(n) in t ==> n in names
    ensures forall n :: Hole(n) !in FillAll(t, names, values)
  {
    FillAllHoles(t, names, values);
  }
}
