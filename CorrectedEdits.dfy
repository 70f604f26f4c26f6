/** The reconciler's incremental edits as written break the binders'
    position bookkeeping in three ways (insert traps on a consistent state,
    delete and move leave stale indices). This module exhibits each
    discrepancy on the as-written `SectionEdits.ApplyEdit` and gives the
    corrected edit, proved to keep every binder's `sectionIndex` equal to
    its position. */
module CorrectedEdits {
  import opened ListUpdates
  import opened SectionEdits

  // ---------------------------------------------------------------------
  // Discrepancies of the as-written edits

  /** Inserting one section into a state whose binder array matches the
      previous list (one shorter than the new list) always traps: the shift
      loop force-reads the binder at position `|list| - 1`, one past the end. */
  lemma InsertTrapsOnConsistentState<S, T>(v: seq<Entry<S, T>>, list: seq<S>, i: nat)
    requires |list| == |v| + 1 && i < |list|
    ensures !EditApplicable(Some(v), |list|, Insert(i))
    ensures FixedApplicable(v, |list|, Insert(i))
  {
  }

  /** The scenario sections [A, B] becoming [A, C, B] with script [Insert(1)]:
      as written it traps; corrected it yields binders for A, C, B at
      indices 0, 1, 2. */
  lemma InsertScenario()
    ensures var v: seq<Entry<string, int>> := ReloadView(["A", "B"]);
      && !EditApplicable(Some(v), 3, Insert(1))
      && FixedEdit(v, ["A", "C", "B"], Insert(1))
         == [Entry("A", 0, None), Entry("C", 1, None), Entry("B", 2, None)]
  {
    var v: seq<Entry<string, int>> := ReloadView(["A", "B"]);
    assert v == [Entry("A", 0, None), Entry("B", 1, None)];
  }

  /** Deleting any section but the last from a correctly indexed state
      leaves the binder that slides into its place with a stale index. */
  lemma DeleteLeavesStaleIndex<S, T>(v: seq<Entry<S, T>>, list: seq<S>, i: nat)
    requires Indexed(v) && i + 1 < |v|
    ensures !Indexed(ApplyEdit(Some(v), list, Delete(i)).value)
  {
    var r := ApplyEdit(Some(v), list, Delete(i)).value;
    assert r[i].sectionIndex == i + 1;
  }

  /** Moving a section to a different position leaves the binder that slides
      into its old position with a stale index. */
  lemma MoveLeavesStaleIndex<S, T>(v: seq<Entry<S, T>>, list: seq<S>, from: nat, to: nat)
    requires Indexed(v) && from < |v| && to < |v| && from != to
    ensures !Indexed(ApplyEdit(Some(v), list, Move(from, to)).value)
  {
    var r := ApplyEdit(Some(v), list, Move(from, to)).value;
    if from < to {
      assert r[from].sectionIndex == from + 1;
    } else {
      assert r[from].sectionIndex == from - 1;
    }
  }

  // ---------------------------------------------------------------------
  // Corrected edits

  /** Entries at positions `lo..<hi` get `sectionIndex - 1`. */
  function Lowered<S, T>(v: seq<Entry<S, T>>, lo: nat, hi: nat): (r: seq<Entry<S, T>>)
    requires lo <= hi <= |v|
    ensures |r| == |v|
    ensures forall k :: 0 <= k < |v| ==> r[k].section == v[k].section && r[k].items == v[k].items
    ensures forall k :: 0 <= k < |v| ==> r[k].sectionIndex == v[k].sectionIndex - (if lo <= k < hi then 1 else 0)
  {
    seq(|v|, k requires 0 <= k < |v| =>
      if lo <= k < hi then v[k].(sectionIndex := v[k].sectionIndex - 1) else v[k])
  }

  /** Entries at positions `lo..<hi` get their position as `sectionIndex`. */
  function Reindexed<S, T>(v: seq<Entry<S, T>>, lo: nat, hi: nat): (r: seq<Entry<S, T>>)
    requires lo <= hi <= |v|
    ensures |r| == |v|
    ensures forall k :: 0 <= k < |v| ==> r[k].section == v[k].section && r[k].items == v[k].items
    ensures forall k :: 0 <= k < |v| ==> r[k].sectionIndex == if lo <= k < hi then k else v[k].sectionIndex
  {
    seq(|v|, k requires 0 <= k < |v| =>
      if lo <= k < hi then v[k].(sectionIndex := k) else v[k])
  }

  /** The corrected edits trap only on indices outside the current binders. */
  predicate FixedApplicable<S, T>(v: seq<Entry<S, T>>, n: nat, c: Change)
  {
    match c
    case Insert(i) => i < n && i <= |v|
    case Delete(i) => i < |v|
    case Move(f, t) => f < |v| && t < |v|
    case Reload => true
  }

  /** Insert shifts the binders that exist (bound `|v|`, not `|list|`);
      delete lowers the binders after the gap; move renumbers the range it
      rotates. */
  function FixedEdit<S, T>(v: seq<Entry<S, T>>, list: seq<S>, c: Change): (r: seq<Entry<S, T>>)
    requires FixedApplicable(v, |list|, c)
    ensures |r| == |v| + (if c.Insert? then 1 else 0) - (if c.Delete? then 1 else 0)
  {
    match c
    case Insert(i) => InsertAt(Shifted(v, i, |v|), i, Entry(list[i], i, None))
    case Delete(i) => Lowered(RemoveAt(v, i), i, |v| - 1)
    case Move(f, t) =>
      var lo := if f < t then f else t;
      var hi := if f < t then t + 1 else f + 1;
      Reindexed(InsertAt(RemoveAt(v, f), t, v[f].(sectionIndex := t)), lo, hi)
    case Reload => v
  }

  /** The corrected edit keeps every binder's index equal to its position. */
  lemma FixedEditKeepsIndexed<S, T>(v: seq<Entry<S, T>>, list: seq<S>, c: Change)
    requires Indexed(v) && FixedApplicable(v, |list|, c)
    ensures Indexed(FixedEdit(v, list, c))
  {
    var r := FixedEdit(v, list, c);
    match c
    case Insert(i) =>
      forall k | 0 <= k < |r| ensures r[k].sectionIndex == k {
        if k > i {
          assert r[k].sectionIndex == v[k - 1].sectionIndex + 1;
        }
      }
    case Delete(i) =>
      forall k | 0 <= k < |r| ensures r[k].sectionIndex == k {
        if k >= i {
          assert r[k].sectionIndex == v[k + 1].sectionIndex - 1;
        }
      }
    case Move(f, t) =>
    case Reload =>
  }

  /** The correction changes indices only: the sections, their order and
      the item lists are those of the as-written edit. */
  lemma FixedEditSameSections<S, T>(v: seq<Entry<S, T>>, list: seq<S>, c: Change)
    requires FixedApplicable(v, |list|, c) && EditApplicable(Some(v), |list|, c)
    ensures var a := ApplyEdit(Some(v), list, c).value;
      var r := FixedEdit(v, list, c);
      && Sections(r) == Sections(a)
      && (forall k :: 0 <= k < |r| ==> r[k].items == a[k].items)
  {
  }

  function FixedEdits<S, T>(v: seq<Entry<S, T>>, list: seq<S>, cs: seq<Change>): (r: Option<seq<Entry<S, T>>>)
    decreases |cs|
  {
    if cs == [] then Some(v)
    else if !FixedApplicable(v, |list|, cs[0]) then None
    else FixedEdits(FixedEdit(v, list, cs[0]), list, cs[1..])
  }

  /** A whole corrected batch keeps every binder's index equal to its
      position, which is the invariant the collection view relies on
      between batches. */
  lemma {:induction false} FixedEditsKeepIndexed<S, T>(v: seq<Entry<S, T>>, list: seq<S>, cs: seq<Change>)
    requires Indexed(v) && FixedEdits(v, list, cs).Some?
    ensures Indexed(FixedEdits(v, list, cs).value)
    decreases |cs|
  {
    if cs != [] {
      FixedEditKeepsIndexed(v, list, cs[0]);
      FixedEditsKeepIndexed(FixedEdit(v, list, cs[0]), list, cs[1..]);
    }
  }
}
