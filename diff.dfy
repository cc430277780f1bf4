/** The diff engine: `Sub` (columns of one table whose names the other lacks) and
    `UpdateSub` (columns whose name matches but whose type string differs), each
    specified by a function and proved against it. */
module Diff {
  import opened Seqs
  import opened Schema

  /** Keeps a column when no column of `dst` has its name. */
  function NameAbsent(dst: seq<Field>): (p: Field -> bool)
    ensures forall k :: p(k) <==> !HasName(dst, k.Name)
  {
    (k: Field) => !HasName(dst, k.Name)
  }

  /** Some column of `dst` has the name of `k` and a different type string. */
  predicate RetypedIn(dst: seq<Field>, k: Field)
  {
    exists s :: s in dst && s.Name == k.Name && s.Type != k.Type
  }

  /** Keeps a column when `dst` holds it under another type. */
  function Retyped(dst: seq<Field>): (p: Field -> bool)
    ensures forall k :: p(k) <==> RetypedIn(dst, k)
  {
    (k: Field) => RetypedIn(dst, k)
  }

  /** What `Sub(src, dst)` returns. */
  function Missing(src: Option<Table>, dst: Option<Table>): (r: seq<Field>)
    ensures src.None? ==> r == []
    ensures src.Some? && dst.None? ==> r == src.value.Fields
    ensures src.Some? ==> IsSubsequence(r, src.value.Fields)
    ensures src.Some? && dst.Some? ==>
      forall k :: k in r <==> k in src.value.Fields && !HasName(dst.value.Fields, k.Name)
  {
    match src
    case None => []
    case Some(s) =>
      match dst
      case None =>
        SubsequenceReflexive(s.Fields);
        s.Fields
      case Some(d) =>
        FilterMembers(NameAbsent(d.Fields), s.Fields);
        FilterIsSubsequence(NameAbsent(d.Fields), s.Fields);
        Filter(NameAbsent(d.Fields), s.Fields)
  }

  /** What `UpdateSub(src, dst)` returns. */
  function Changed(src: Option<Table>, dst: Option<Table>): (r: seq<Field>)
    ensures src.None? ==> r == []
    ensures src.Some? && dst.None? ==> r == src.value.Fields
    ensures src.Some? ==> IsSubsequence(r, src.value.Fields)
    ensures src.Some? && dst.Some? ==>
      forall k :: k in r <==> k in src.value.Fields && RetypedIn(dst.value.Fields, k)
  {
    match src
    case None => []
    case Some(s) =>
      match dst
      case None =>
        SubsequenceReflexive(s.Fields);
        s.Fields
      case Some(d) =>
        FilterMembers(Retyped(d.Fields), s.Fields);
        FilterIsSubsequence(Retyped(d.Fields), s.Fields);
        Filter(Retyped(d.Fields), s.Fields)
  }

  /** The `has` closure of `Sub`: scans `dst` for a column named like `k`. */
  method HasSameName(dst: seq<Field>, k: Field) returns (found: bool)
    ensures found <==> HasName(dst, k.Name)
  {
    for i := 0 to |dst|
      invariant forall j :: 0 <= j < i ==> dst[j].Name != k.Name
    {
      if dst[i].Name == k.Name {
        return true;
      }
    }
    return false;
  }

  /** The `has` closure of `UpdateSub`: scans `dst` for a column named like `k`
      whose type differs from that of `k`. */
  method HasOtherType(dst: seq<Field>, k: Field) returns (found: bool)
    ensures found <==> RetypedIn(dst, k)
  {
    for i := 0 to |dst|
      invariant forall j :: 0 <= j < i ==> !(dst[j].Name == k.Name && dst[j].Type != k.Type)
    {
      if dst[i].Name == k.Name && dst[i].Type != k.Type {
        return true;
      }
    }
    return false;
  }

  /** The columns of `src` whose names do not occur in `dst`; all of them when
      `dst` is absent, none when `src` is. */
  method Sub(src: Option<Table>, dst: Option<Table>) returns (res: seq<Field>)
    ensures res == Missing(src, dst)
  {
    if src.None? {
      return [];
    }
    if dst.None? {
      return src.value.Fields;
    }
    var fields, others := src.value.Fields, dst.value.Fields;
    res := [];
    for i := 0 to |fields|
      invariant res == Filter(NameAbsent(others), fields[..i])
    {
      var has := HasSameName(others, fields[i]);
      FilterStep(NameAbsent(others), fields, i);
      if !has {
        res := res + [fields[i]];
      }
    }
    assert fields[..|fields|] == fields;
  }

  /** The columns of `src` that `dst` holds under a different type; all of them
      when `dst` is absent, none when `src` is. */
  method UpdateSub(src: Option<Table>, dst: Option<Table>) returns (res: seq<Field>)
    ensures res == Changed(src, dst)
  {
    if src.None? {
      return [];
    }
    if dst.None? {
      return src.value.Fields;
    }
    var fields, others := src.value.Fields, dst.value.Fields;
    res := [];
    for i := 0 to |fields|
      invariant res == Filter(Retyped(others), fields[..i])
    {
      var has := HasOtherType(others, fields[i]);
      FilterStep(Retyped(others), fields, i);
      if has {
        res := res + [fields[i]];
      }
    }
    assert fields[..|fields|] == fields;
  }

  /** Against a present table, `Sub` keeps each column of `src` whose name `dst`
      lacks exactly as often as `src` holds it, and no other. */
  lemma MissingCounts(src: Table, dst: Table)
    ensures forall k ::
      multiset(Missing(Some(src), Some(dst)))[k] == if HasName(dst.Fields, k.Name) then 0 else multiset(src.Fields)[k]
  {
    FilterCounts(NameAbsent(dst.Fields), src.Fields);
  }

  /** Against a present table, `UpdateSub` keeps each column of `src` that `dst`
      holds under another type exactly as often as `src` holds it, and no
      other. */
  lemma ChangedCounts(src: Table, dst: Table)
    ensures forall k ::
      multiset(Changed(Some(src), Some(dst)))[k] == if RetypedIn(dst.Fields, k) then multiset(src.Fields)[k] else 0
  {
    FilterCounts(Retyped(dst.Fields), src.Fields);
  }

  /** A table compared with itself has no missing columns. */
  lemma SubOfItselfIsEmpty(t: Table)
    ensures Missing(Some(t), Some(t)) == []
  {
    forall k | k in t.Fields
      ensures !NameAbsent(t.Fields)(k)
    {
      assert HasName(t.Fields, k.Name);
    }
    FilterNone(NameAbsent(t.Fields), t.Fields);
  }

  /** With unique names, a table compared with itself has no retyped columns. */
  lemma UpdateSubOfItselfIsEmpty(t: Table)
    requires UniqueNames(t.Fields)
    ensures Changed(Some(t), Some(t)) == []
  {
    FilterNone(Retyped(t.Fields), t.Fields);
  }

  /** What one table lacks of the other and what the other lacks of the one
      never share a column name. */
  lemma SubBothWaysDisjoint(a: Table, b: Table)
    ensures forall f, g :: f in Missing(Some(a), Some(b)) && g in Missing(Some(b), Some(a)) ==> f.Name != g.Name
  {
  }

  /** Against a present table, no name is both missing and retyped. */
  lemma SubAndUpdateSubDisjoint(src: Option<Table>, dst: Table)
    ensures forall f, g :: f in Missing(src, Some(dst)) && g in Changed(src, Some(dst)) ==> f.Name != g.Name
  {
  }
}
