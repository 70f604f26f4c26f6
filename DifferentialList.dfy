/** The update accumulator behind `ObservableList.diff`: a stream of full
    snapshots is folded into a stream of `Update`s, each carrying the edit
    script from the previously emitted snapshot. The external diff library
    is a function parameter `diff(old, new)`. */
module DifferentialList {
  import opened ListUpdates

  /** The changes the external diff library reports. */
  datatype DiffChange =
    | DiffInsert(index: nat)
    | DiffDelete(index: nat)
    | DiffMove(fromIndex: nat, toIndex: nat)
    | DiffReplace(index: nat)

  /** The seed of the fold: an empty list with no changes. */
  function Seed<T>(): Update<T>
  {
    Update([], [])
  }

  /** Translation of one diff change into the library's own `Change`. */
  function ToChange(c: DiffChange): (r: Change)
    ensures r != Reload
    ensures c.DiffInsert? ==> r == Insert(c.index)
    ensures c.DiffDelete? ==> r == Delete(c.index)
    ensures c.DiffMove? ==> r == Move(c.fromIndex, c.toIndex)
    ensures c.DiffReplace? ==> r == Move(c.index, c.index)
  {
    match c
    case DiffInsert(i) => Insert(i)
    case DiffDelete(i) => Delete(i)
    case DiffMove(f, t) => Move(f, t)
    case DiffReplace(i) => Move(i, i)
  }

  /** The `map` over the diff output. */
  function ToChanges(cs: seq<DiffChange>): (r: seq<Change>)
    ensures |r| == |cs|
    ensures forall k :: 0 <= k < |cs| ==> r[k] == ToChange(cs[k])
    ensures Reload !in r
  {
    seq(|cs|, k requires 0 <= k < |cs| => ToChange(cs[k]))
  }

  /** One step of the `scan`: a forced reload after an update without
      changes, otherwise the translated diff against the previous list. */
  function Step<T>(previous: Update<T>, next: seq<T>, diff: (seq<T>, seq<T>) -> seq<DiffChange>): (r: Update<T>)
    ensures r.list == next
    ensures ReloadExclusive(r.changes)
    ensures r.changes == [Reload] <==> previous.changes == []
  {
    if previous.changes == [] then Update(next, [Reload])
    else Update(next, ToChanges(diff(previous.list, next)))
  }

  /** The emitted updates when folding `snapshots` from `previous`
      (the seed itself is not emitted). */
  function Scan<T>(previous: Update<T>, snapshots: seq<seq<T>>, diff: (seq<T>, seq<T>) -> seq<DiffChange>): (r: seq<Update<T>>)
    ensures |r| == |snapshots|
    ensures forall k :: 0 <= k < |r| ==> r[k].list == snapshots[k]
    ensures forall k :: 0 <= k < |r| ==> ReloadExclusive(r[k].changes)
    decreases |snapshots|
  {
    if snapshots == [] then []
    else
      var u := Step(previous, snapshots[0], diff);
      [u] + Scan(u, snapshots[1..], diff)
  }

  /** The stream of updates for a stream of snapshots: one update per
      snapshot, carrying that snapshot, a reload never mixed with other
      changes, and a reload first. */
  function Updates<T>(snapshots: seq<seq<T>>, diff: (seq<T>, seq<T>) -> seq<DiffChange>): (r: seq<Update<T>>)
    ensures |r| == |snapshots|
    ensures forall k :: 0 <= k < |r| ==> r[k].list == snapshots[k]
    ensures forall k :: 0 <= k < |r| ==> ReloadExclusive(r[k].changes)
    ensures |r| > 0 ==> r[0].changes == [Reload]
  {
    Scan(Seed(), snapshots, diff)
  }

  /** The first emitted update is always a reload of the first snapshot. */
  lemma FirstUpdateIsReload<T>(snapshots: seq<seq<T>>, diff: (seq<T>, seq<T>) -> seq<DiffChange>)
    requires |snapshots| > 0
    ensures Updates(snapshots, diff)[0] == Update(snapshots[0], [Reload])
  {
  }

  /** Every emitted update after the first is the step applied to the one
      emitted just before it. */
  lemma {:induction false} ScanRecurrence<T>(previous: Update<T>, snapshots: seq<seq<T>>,
                                             diff: (seq<T>, seq<T>) -> seq<DiffChange>, k: nat)
    requires 0 < k < |snapshots|
    ensures Scan(previous, snapshots, diff)[k] == Step(Scan(previous, snapshots, diff)[k - 1], snapshots[k], diff)
    decreases k
  {
    var u := Step(previous, snapshots[0], diff);
    assert Scan(previous, snapshots, diff) == [u] + Scan(u, snapshots[1..], diff);
    if k > 1 {
      ScanRecurrence(u, snapshots[1..], diff, k - 1);
    }
  }

  /** An update without changes is always followed by a forced reload of the
      next snapshot, whatever the diff would have said. */
  lemma ReloadAfterEmpty<T>(snapshots: seq<seq<T>>, diff: (seq<T>, seq<T>) -> seq<DiffChange>, k: nat)
    requires k + 1 < |snapshots|
    requires Updates(snapshots, diff)[k].changes == []
    ensures Updates(snapshots, diff)[k + 1] == Update(snapshots[k + 1], [Reload])
  {
    ScanRecurrence(Seed(), snapshots, diff, k + 1);
  }

  /** Otherwise the script is the translated diff whose `old` argument is the
      previous snapshot and whose `new` argument is the current one. */
  lemma DiffAgainstPrevious<T>(snapshots: seq<seq<T>>, diff: (seq<T>, seq<T>) -> seq<DiffChange>, k: nat)
    requires 0 < k < |snapshots|
    requires Updates(snapshots, diff)[k - 1].changes != []
    ensures Updates(snapshots, diff)[k].changes == ToChanges(diff(snapshots[k - 1], snapshots[k]))
  {
    ScanRecurrence(Seed(), snapshots, diff, k);
  }

  /** An update is a reload exactly when it is the first one or its
      predecessor carried no changes. */
  lemma ReloadIff<T>(snapshots: seq<seq<T>>, diff: (seq<T>, seq<T>) -> seq<DiffChange>, k: nat)
    requires k < |snapshots|
    ensures Updates(snapshots, diff)[k].changes == [Reload]
        <==> (k == 0 || Updates(snapshots, diff)[k - 1].changes == [])
  {
    if k > 0 {
      ScanRecurrence(Seed(), snapshots, diff, k);
    }
  }
}
