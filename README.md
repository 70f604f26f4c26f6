# RxSwiftCollections: update accumulator and sectioned collection-view reconciler

This project models two cooperating pieces of RxSwiftCollections in Dafny.

* **The update accumulator** behind `ObservableList.diff`
  (`DifferentialObservableList.updates`). It folds a stream of full
  snapshots into `Update { list, changes }` values:
  * The fold starts from the seed `{[], []}`.
  * If the previous update carried no changes, the next update is a forced
    `[reload]`.
  * Otherwise the changes are the external diff against the previous list.
    Insert, delete and move are translated one to one, and `replace(i)`
    becomes the self-move `move(i, i)`.
  * This part is pure: a step function and its fold (`DifferentialList`).
* **The sectioned collection-view data source**
  (`ObservableListSectionedDataSource`). It keeps three parallel arrays:
  * the current sections;
  * one item binder (`ObservableListDataSource`) per section, each with a
    mutable `sectionIndex`;
  * one subscription per binder.

  For each section-level update the handler does one of two things. If the
  changes contain a `reload`, it unbinds everything from the last position
  to the first, rebinds one fresh binder per section and reloads the view.
  Otherwise, inside one batch, it applies the inserts, deletes and moves in
  place and mirrors each one to the collection view.

  This part is imperative. `CollectionViewSections.SectionedDataSource` is a
  class with those arrays as `seq` fields. Its binders and subscriptions are
  objects. The collection view is a ghost log of the calls it receives, and
  there is also a ghost log of disposals.

Every state-changing method is proved against a value-level specification in
`SectionEdits`:

* Each binder is seen as an `Entry(section, sectionIndex, items)`.
* `ApplyEdit` / `ApplyEdits` / `ReloadView` say what the handler does to
  those entries.
* `Valid()` keeps the class's binder objects equal to that view.
* Lemmas about the specification functions say what each edit means.

The model follows the code as written, including the places where it departs
from the idealised invariant "the binder at position `k` has
`sectionIndex == k`". Those places are listed under Findings. Each of them has
a corrected definition in `CorrectedEdits` that is proved to keep the
invariant.

Files:

* `ListUpdates.dfy`: `Change`, `Update`, `Option` and the reload-exclusivity
  predicate.
* `DifferentialList.dfy`: the accumulator.
* `SectionEdits.dfy`: the value-level account of the reconciler.
* `CollectionViewSections.dfy`: the data source class.
* `CorrectedEdits.dfy`: the discrepancies and their corrections.

Three points of the code's behaviour shape the model:

* **Reload inside an incremental batch.** The batch ignores a `reload`
  change (`case .reload: break`). It also never receives one, because any
  `reload` in an update selects the reload branch. `ReloadsIgnored` and
  `HandleUpdate` state this.
* **Which binders an insert shifts.** An insert at `index` shifts the
  binders at positions `index..<update.list.count`. That range is counted on
  the new section list, not on the binders held. The model does the same
  (see Findings).
* **Index errors.** Force-unwraps and out-of-range subscripts trap. The
  model turns each trap into a precondition (`EditApplicable` and the
  `requires` listed under Left out).

Across a batch the class also tracks the subscription objects themselves.
`Track(held, changes, created)` replays the changes on a sequence of handles:
an insert places the next handle of `created`, a delete drops the handle at
its index, a move relocates one, a `reload` does nothing. It yields the
handles held afterwards and the ones dropped, in order. The batch methods
promise that the subscription array ends exactly as `Track` says and that the
disposals made during the batch are exactly the dropped ones. The same holds
for the binder array, with each subscription replaced by its binder. From
this follow the facts about objects: every subscription held afterwards was
held before or is new; every one held before and not afterwards is disposed;
and each disposal is of a distinct subscription that is no longer held. Valid
also keeps every logged disposal disposed.

## Model

All source paths are under `RxSwiftCollections/Classes/`.

| member | source | states |
|---|---|---|
| DifferentialList.ToChange | RxSwiftCollections/Classes/DifferentialObservableList.swift:31-41 | insert, delete and move become the same change with the same indices; `replace(i)` becomes the self-move `move(i, i)`; a diff change never becomes `reload` |
| DifferentialList.ToChanges | RxSwiftCollections/Classes/DifferentialObservableList.swift:30-42 | the mapped script has the diff's length and order, change `k` is the translation of diff change `k`, and it contains no `reload` |
| DifferentialList.Step | RxSwiftCollections/Classes/DifferentialObservableList.swift:25-42 | the new update's list is the newest snapshot; its changes are `[reload]` exactly when the previous update had no changes; every update is reload-exclusive (a lone `reload` or none) |
| DifferentialList.Scan | RxSwiftCollections/Classes/DifferentialObservableList.swift:19-45 | the fold emits one update per snapshot; update `k` carries snapshot `k` and is reload-exclusive |
| DifferentialList.Updates | RxSwiftCollections/Classes/DifferentialObservableList.swift:19-45 | the `updates` stream: one update per snapshot, update `k` carrying snapshot `k`, each reload-exclusive, and the first one `[reload]` |
| DifferentialList.FirstUpdateIsReload | RxSwiftCollections/Classes/DifferentialObservableList.swift:25-28 | starting from the seed `{[], []}`, the first emitted update is `{first snapshot, [reload]}` |
| DifferentialList.ScanRecurrence | RxSwiftCollections/Classes/DifferentialObservableList.swift:25 | every emitted update after the first is the step applied to the update emitted just before it |
| DifferentialList.ReloadAfterEmpty | RxSwiftCollections/Classes/DifferentialObservableList.swift:26-28 | an update with no changes (including a diff that found none) is always followed by exactly `{next snapshot, [reload]}` |
| DifferentialList.DiffAgainstPrevious | RxSwiftCollections/Classes/DifferentialObservableList.swift:30 | otherwise the script is the translated diff whose `old` argument is the previous snapshot and whose `new` argument is the current one |
| DifferentialList.ReloadIff | RxSwiftCollections/Classes/DifferentialObservableList.swift:26-30 | an update is a reload if and only if it is the first one or its predecessor had no changes |
| SectionEdits.InsertAt | RxSwiftCollections/Classes/ObservableList+UICollectionViewSections.swift:101-102 | `insert(_:at:)`: one longer, elements before `i` kept, `x` at `i`, the rest moved up by one |
| SectionEdits.RemoveAt | RxSwiftCollections/Classes/ObservableList+UICollectionViewSections.swift:106-108 | `remove(at:)`: one shorter, elements before `i` kept, the rest moved down by one |
| SectionEdits.Reversed | RxSwiftCollections/Classes/ObservableList+UICollectionViewSections.swift:129 | the order `(0..<count).reversed()` visits the subscriptions in: a sequence of the same length |
| SectionEdits.ReversedAt | RxSwiftCollections/Classes/ObservableList+UICollectionViewSections.swift:129 | the reversed order visits position `count - 1 - k` at step `k` |
| SectionEdits.TrimLast | RxSwiftCollections/Classes/ObservableList+UICollectionViewSections.swift:128-132 | removing the last held subscription leaves the shorter prefix, and a disposal log holding the later subscriptions in reverse grows to hold this one too |
| SectionEdits.MovedAt | RxSwiftCollections/Classes/ObservableList+UICollectionViewSections.swift:171-178 | after removing at `from` and inserting at `to`, position `to` holds the moved element and every other position holds the element from its `MoveSource` |
| SectionEdits.MoveSourceInjective | RxSwiftCollections/Classes/ObservableList+UICollectionViewSections.swift:171-178 | distinct positions after a move come from distinct positions before it |
| SectionEdits.InsertAtMultiset | RxSwiftCollections/Classes/ObservableList+UICollectionViewSections.swift:177-178 | inserting adds exactly that element to the multiset |
| SectionEdits.RemoveAtMultiset | RxSwiftCollections/Classes/ObservableList+UICollectionViewSections.swift:171-173 | removing takes exactly that element from the multiset |
| SectionEdits.Shifted | RxSwiftCollections/Classes/ObservableList+UICollectionViewSections.swift:154-160 | the shift loop: binders at positions `lo..<hi` get `sectionIndex + 1`, every other field and position is unchanged |
| SectionEdits.ReloadView | RxSwiftCollections/Classes/ObservableList+UICollectionViewSections.swift:134-143 | after the reload branch the binders' sections are the new list, binder `k` has `sectionIndex == k`, and none has an item list yet |
| SectionEdits.EditApplicable | RxSwiftCollections/Classes/ObservableList+UICollectionViewSections.swift:153-180 | when one change runs without a trap: a `reload` always does; before the first reload (no binders held) exactly a `delete`, which is then a no-op, or a `reload` does, while an insert or a move force-unwraps the absent arrays |
| SectionEdits.ApplyEdit | RxSwiftCollections/Classes/ObservableList+UICollectionViewSections.swift:151-184 | one change of the batch keeps the binders present exactly when they were present |
| SectionEdits.ApplyEdits | RxSwiftCollections/Classes/ObservableList+UICollectionViewSections.swift:151-184 | the whole `forEach` over the changes keeps the binders present exactly when they were present |
| SectionEdits.BatchApplicable | RxSwiftCollections/Classes/ObservableList+UICollectionViewSections.swift:151-184 | a whole `forEach` runs without a trap: before the first reload exactly when every change is a `delete` or a `reload`; a batch made only of reloads always does |
| SectionEdits.BatchStep | RxSwiftCollections/Classes/ObservableList+UICollectionViewSections.swift:151-184 | the batch from change `k` on is change `k` followed by the batch from `k + 1`, both for the binders and for the calls the collection view receives |
| SectionEdits.EditLog | RxSwiftCollections/Classes/ObservableList+UICollectionViewSections.swift:164-182 | a change reaches the collection view as nothing exactly when it is a `reload` |
| SectionEdits.BatchLog | RxSwiftCollections/Classes/ObservableList+UICollectionViewSections.swift:151-184 | a batch with no `reload` makes exactly one collection-view call per change |
| SectionEdits.BatchLogPrefix | RxSwiftCollections/Classes/ObservableList+UICollectionViewSections.swift:151-184 | the calls for the first `k + 1` changes are those for the first `k` followed by those for change `k` |
| SectionEdits.LogExtended | RxSwiftCollections/Classes/ObservableList+UICollectionViewSections.swift:151-184 | a log ending in the calls of the first `k` changes, extended by change `k`'s calls, ends in the calls of the first `k + 1` |
| SectionEdits.CountDeletesPrefix | RxSwiftCollections/Classes/ObservableList+UICollectionViewSections.swift:165-168 | the deletes among the first `k + 1` changes are those among the first `k`, plus one if change `k` is a delete |
| SectionEdits.InsertEdit | RxSwiftCollections/Classes/ObservableList+UICollectionViewSections.swift:153-164 | `insert(i)` puts a new binder for `list[i]` with index `i` at `i`; the binders that were at `i..<list.count` move up one place and get `sectionIndex + 1`; the binders beyond keep their index; every old binder keeps its section and its items; the sections become the old ones with `list[i]` inserted at `i` |
| SectionEdits.DeleteEdit | RxSwiftCollections/Classes/ObservableList+UICollectionViewSections.swift:165-168 | `delete(i)` removes the section at `i`; every other binder keeps its whole entry: section, `sectionIndex` and items |
| SectionEdits.MoveEdit | RxSwiftCollections/Classes/ObservableList+UICollectionViewSections.swift:169-180 | `move(from, to)` keeps the length; the moved binder sits at `to` with `sectionIndex == to`; the sections are a permutation of before; every other binder keeps its entry, its index and its relative order |
| SectionEdits.BatchLength | RxSwiftCollections/Classes/ObservableList+UICollectionViewSections.swift:151-184 | after a batch the number of binders is the old number plus the inserts minus the deletes |
| SectionEdits.ReloadsIgnored | RxSwiftCollections/Classes/ObservableList+UICollectionViewSections.swift:181-182 | a batch made only of `reload` entries applies, changes no binder and reaches the collection view as nothing |
| SectionEdits.ConservedInsert | RxSwiftCollections/Classes/ObservableList+UICollectionViewSections.swift:102 | counted with multiplicity, the handles held at the start plus those created still equal those held plus those dropped when a new handle is inserted and counted as created |
| SectionEdits.ConservedDelete | RxSwiftCollections/Classes/ObservableList+UICollectionViewSections.swift:106-110 | the same count still balances when the handle at `i` is removed and counted as dropped |
| SectionEdits.ConservedMove | RxSwiftCollections/Classes/ObservableList+UICollectionViewSections.swift:173-178 | the same count still balances when a held handle is removed at `from` and reinserted at `to` |
| SectionEdits.ReleasedOnce | RxSwiftCollections/Classes/ObservableList+UICollectionViewSections.swift:151-184 | if what was held plus what was created has no repeats and the count balances, then the dropped ones have no repeats, each was held or created and is no longer held, everything held now was held or created, and everything once held and no longer held was dropped |
| SectionEdits.DistinctAppend | RxSwiftCollections/Classes/ObservableList+UICollectionViewSections.swift:102 | a handle that is neither held nor created yet can be counted as created without repeating anything |
| SectionEdits.Next | RxSwiftCollections/Classes/ObservableList+UICollectionViewSections.swift:152-183 | one change on the tracked handles: an insert takes exactly one new handle and a delete drops exactly the handle at its index, appended to the dropped ones; other changes drop nothing; the held count moves by the inserts and deletes |
| SectionEdits.Track | RxSwiftCollections/Classes/ObservableList+UICollectionViewSections.swift:151-184 | the changes of a batch replayed on the handles, in order; when it succeeds, handles held afterwards plus handles dropped number the handles held at the start plus those created |
| SectionEdits.TrackNext | RxSwiftCollections/Classes/ObservableList+UICollectionViewSections.swift:152-183 | tracking the first `k + 1` changes is tracking the first `k` and then applying change `k` as the array did: an insert adds the new handle to `created`, a delete appends the removed handle to the dropped ones |
| SectionEdits.TrackConserved | RxSwiftCollections/Classes/ObservableList+UICollectionViewSections.swift:151-184 | over a whole batch the handles held at the start plus those created equal, as a multiset, those held afterwards plus those dropped |
| SectionEdits.TrackDeletes | RxSwiftCollections/Classes/ObservableList+UICollectionViewSections.swift:165-168 | a batch drops exactly one handle per delete |
| SectionEdits.NextMapped | RxSwiftCollections/Classes/ObservableList+UICollectionViewSections.swift:152-183 | one change commutes with replacing every handle by its image under `f` |
| SectionEdits.TrackMapped | RxSwiftCollections/Classes/ObservableList+UICollectionViewSections.swift:151-184 | tracking the images of the handles under `f` gives the images of the tracked handles, so the binder array follows the subscription array |
| SectionEdits.Settled | RxSwiftCollections/Classes/ObservableList+UICollectionViewSections.swift:151-184 | a disposal log that grew by the dropped handles of a batch: its new part has one entry per delete, no handle twice, each held before or created and none still held, and holds every handle held before and not afterwards |
| CollectionViewSections.InsertKeepsParallel | RxSwiftCollections/Classes/ObservableList+UICollectionViewSections.swift:101-102 | inserting a fresh binder and its subscription at the same position keeps the arrays parallel and the binders distinct |
| CollectionViewSections.RemoveKeepsParallel | RxSwiftCollections/Classes/ObservableList+UICollectionViewSections.swift:105-109 | removing a binder and its subscription at the same position keeps the arrays parallel and the binders distinct, and the removed subscription is held no more |
| CollectionViewSections.MoveKeepsParallel | RxSwiftCollections/Classes/ObservableList+UICollectionViewSections.swift:171-178 | moving a binder and its subscription together keeps the arrays parallel and the binders distinct |
| CollectionViewSections.BindersTracked | RxSwiftCollections/Classes/ObservableList+UICollectionViewSections.swift:151-184 | while each subscription belongs to the binder at its position, before and after a batch, the binder array is tracked through the batch exactly like the subscription array, with each subscription replaced by its binder |
| CollectionViewSections.Subscription.Dispose | RxSwiftCollections/Classes/ObservableList+UICollectionViewSections.swift:110 | a disposed subscription is marked disposed |
| CollectionViewSections.SectionedDataSource.constructor | RxSwiftCollections/Classes/ObservableList+UICollectionViewSections.swift:43-64 | a new data source holds no sections, binders or subscriptions and owns no objects yet, so the update handler may be called on it at once; it reports 0 sections and 0 items in every section |
| CollectionViewSections.SectionedDataSource.NumberOfSections | RxSwiftCollections/Classes/ObservableList+UICollectionViewSections.swift:66-68 | 0 before the first update, otherwise the number of current sections |
| CollectionViewSections.SectionedDataSource.NumberOfItemsInSection | RxSwiftCollections/Classes/ObservableList+UICollectionViewSections.swift:70-74 | 0 before the first update, otherwise the item count of the binder at that section (0 until it has items) |
| CollectionViewSections.SectionedDataSource.SizeForItemAt | RxSwiftCollections/Classes/ObservableList+UICollectionViewSections.swift:23-40 | the default 240 x 240 size for a section at or beyond the section count or a row at or beyond that section's item count; otherwise the sizer's answer for the live item at that section and row |
| CollectionViewSections.SectionedDataSource.Bind | RxSwiftCollections/Classes/ObservableList+UICollectionViewSections.swift:95-103 | a fresh binder for the section and its fresh subscription are inserted at the same index in both arrays; the view gains `Entry(section, index, none)` there; nothing happens while the arrays are absent |
| CollectionViewSections.SectionedDataSource.Unbind | RxSwiftCollections/Classes/ObservableList+UICollectionViewSections.swift:105-111 | both arrays lose the same position; exactly the removed subscription is disposed and logged; nothing happens while the arrays are absent |
| CollectionViewSections.SectionedDataSource.UnbindLast | RxSwiftCollections/Classes/ObservableList+UICollectionViewSections.swift:129-131 | one iteration of the unbinding loop: the last held subscription is removed and disposed; the disposal log, which held the later subscriptions in descending order, now holds this one after them; all of them are disposed |
| CollectionViewSections.SectionedDataSource.UnbindAll | RxSwiftCollections/Classes/ObservableList+UICollectionViewSections.swift:128-132 | every previously held subscription is disposed; the disposal log grows by exactly the held subscriptions in descending index order; the arrays end empty |
| CollectionViewSections.SectionedDataSource.BindAll | RxSwiftCollections/Classes/ObservableList+UICollectionViewSections.swift:138-142 | binding sections `0..<count` in ascending order to empty arrays yields the reload view: one fresh binder per section, binder `k` with `sectionIndex == k` |
| CollectionViewSections.SectionedDataSource.Reset | RxSwiftCollections/Classes/ObservableList+UICollectionViewSections.swift:134-136 | once nothing is bound: the current sections become the new list and both arrays become present and empty; disposals and calls are unchanged |
| CollectionViewSections.SectionedDataSource.Record | RxSwiftCollections/Classes/ObservableList+UICollectionViewSections.swift:143 | the collection view receives exactly the given call, appended to its log; nothing else changes |
| CollectionViewSections.SectionedDataSource.ReloadSections | RxSwiftCollections/Classes/ObservableList+UICollectionViewSections.swift:128-145 | the reload branch: every old subscription is disposed once in descending order; the current sections are the new list; there is one fresh binder per section at its own index; the collection view gets exactly one `reloadData` |
| CollectionViewSections.SectionedDataSource.ShiftIndices | RxSwiftCollections/Classes/ObservableList+UICollectionViewSections.swift:154-160 | the shift loop: the binders at `lo..<hi` get `sectionIndex + 1`; the arrays are unchanged |
| CollectionViewSections.SectionedDataSource.ApplyInsert | RxSwiftCollections/Classes/ObservableList+UICollectionViewSections.swift:153-164 | the insert case transforms the binders exactly as `ApplyEdit(insert(i))`; both arrays are the old ones with one fresh binder and one fresh subscription inserted at `i`, so every old object keeps its order; nothing is disposed; the collection view receives `insertSections(i)` |
| CollectionViewSections.SectionedDataSource.ApplyDelete | RxSwiftCollections/Classes/ObservableList+UICollectionViewSections.swift:165-168 | the delete case removes position `i` from both arrays, every other object keeping its order; it disposes and logs exactly the subscription that was at `i` and may change no other subscription; the collection view receives `deleteSections(i)` |
| CollectionViewSections.SectionedDataSource.ApplyMove | RxSwiftCollections/Classes/ObservableList+UICollectionViewSections.swift:169-180 | the binder and its subscription move together from `from` to `to`; the binder gets `sectionIndex == to`; the collection view receives `moveSection(from, to)` |
| CollectionViewSections.SectionedDataSource.ApplyChange | RxSwiftCollections/Classes/ObservableList+UICollectionViewSections.swift:152-183 | one change transforms the binders exactly as `ApplyEdit` and the calls exactly as `EditLog`; per case it states the new arrays as objects: insert adds fresh objects at `i`, delete removes and disposes the one at `i`, move relocates the pair, `reload` keeps both arrays; only a delete disposes anything |
| CollectionViewSections.SectionedDataSource.ApplyRecorded | RxSwiftCollections/Classes/ObservableList+UICollectionViewSections.swift:152-183 | one change of a batch with its tracked subscriptions: the binders and calls as `ApplyChange`; the subscription array after the first `k + 1` changes is what `Track` gives, the disposals since the batch began are its dropped handles, and anything newly counted as created is new in the footprint |
| CollectionViewSections.SectionedDataSource.Started | RxSwiftCollections/Classes/ObservableList+UICollectionViewSections.swift:148-151 | at the start of a batch the whole batch is still to be applied and leads to `ApplyEdits`, nothing is created or dropped yet, and the held subscriptions have no repeats |
| CollectionViewSections.SectionedDataSource.Finished | RxSwiftCollections/Classes/ObservableList+UICollectionViewSections.swift:184 | at the end of a batch the binders are the goal, the calls are exactly those of all changes, and the subscriptions are tracked through every change |
| CollectionViewSections.SectionedDataSource.ApplyNext | RxSwiftCollections/Classes/ObservableList+UICollectionViewSections.swift:151-184 | one turn of `forEach`: the rest of the batch still leads to the same final binders, the calls grow by change `k`'s calls, and the subscriptions stay tracked through one more change; new subscriptions and their binders are new in the footprint |
| CollectionViewSections.SectionedDataSource.RunChanges | RxSwiftCollections/Classes/ObservableList+UICollectionViewSections.swift:151-184 | the `forEach` loop, from the start of the batch to its end: every change is applied in order, so the binders reach `ApplyEdits`, the calls grow by `BatchLog`, and the subscriptions are tracked through the whole batch; the created subscriptions and their binders are new in the footprint |
| CollectionViewSections.SectionedDataSource.Retired | RxSwiftCollections/Classes/ObservableList+UICollectionViewSections.swift:151-184 | what the tracking of a whole batch means for objects: the subscription array ends as `Track` says with the disposals since as its dropped handles, one per delete; subscriptions held afterwards were held before or are fresh; ones dropped are disposed; the disposals since are distinct, disposed and no longer held |
| CollectionViewSections.SectionedDataSource.ApplyChanges | RxSwiftCollections/Classes/ObservableList+UICollectionViewSections.swift:151-184 | applying the changes in order yields `ApplyEdits` of the old binders and grows the calls by `BatchLog`; while the arrays are present, the subscription array and the binder array end exactly as `Track` replays the changes, with fresh inserted objects, and the disposals since are exactly the subscriptions the deletes removed, in order, one per delete; hence every subscription held afterwards was held before or is fresh, every one held before and not afterwards is disposed, and none is disposed twice; before the first reload nothing changes |
| CollectionViewSections.SectionedDataSource.ApplyBatch | RxSwiftCollections/Classes/ObservableList+UICollectionViewSections.swift:148-185 | the incremental branch: inside one batch the sections become the new list first; the binders become `ApplyEdits`; the calls are begin, the batch's calls, end; the subscription and binder arrays and the disposals obey the same `Track` equations and object facts as `ApplyChanges` |
| CollectionViewSections.SectionedDataSource.HandleUpdate | RxSwiftCollections/Classes/ObservableList+UICollectionViewSections.swift:116-185 | any `reload` in the changes selects the reload branch: every old subscription disposed in descending order, fresh binders and subscriptions throughout, one `reloadData`; otherwise the incremental branch, with `ApplyBatch`'s binders, calls, `Track` equations and subscription facts; either way the sections become `update.list`, earlier disposals stay logged and the parallel-array invariant holds |
| CorrectedEdits.InsertTrapsOnConsistentState | RxSwiftCollections/Classes/ObservableList+UICollectionViewSections.swift:154-160 | as written, inserting one section into binders that match the previous list always traps, while the corrected insert applies |
| CorrectedEdits.InsertScenario | RxSwiftCollections/Classes/ObservableList+UICollectionViewSections.swift:153-164 | sections [A, B] becoming [A, C, B] by `insert(1)`: as written it traps; corrected, it gives binders A, C, B at indices 0, 1, 2 |
| CorrectedEdits.DeleteLeavesStaleIndex | RxSwiftCollections/Classes/ObservableList+UICollectionViewSections.swift:165-168 | as written, deleting any section but the last from correctly indexed binders leaves a stale `sectionIndex` |
| CorrectedEdits.MoveLeavesStaleIndex | RxSwiftCollections/Classes/ObservableList+UICollectionViewSections.swift:169-180 | as written, any move to a different position leaves a stale `sectionIndex` |
| CorrectedEdits.Lowered | RxSwiftCollections/Classes/ObservableList+UICollectionViewSections.swift:165-168 | the renumbering a delete needs: binders at `lo..<hi` get `sectionIndex - 1`, nothing else changes |
| CorrectedEdits.Reindexed | RxSwiftCollections/Classes/ObservableList+UICollectionViewSections.swift:169-180 | the renumbering a move needs: binders at `lo..<hi` get their position as index, nothing else changes |
| CorrectedEdits.FixedEdit | RxSwiftCollections/Classes/ObservableList+UICollectionViewSections.swift:151-184 | the corrected change grows the binders by one on insert, shrinks them by one on delete, and keeps the length otherwise |
| CorrectedEdits.FixedEditKeepsIndexed | RxSwiftCollections/Classes/ObservableList+UICollectionViewSections.swift:151-184 | the corrected change keeps every binder's `sectionIndex` equal to its position |
| CorrectedEdits.FixedEditSameSections | RxSwiftCollections/Classes/ObservableList+UICollectionViewSections.swift:151-184 | the correction changes indices only: the sections, their order and the item lists are those of the as-written change |
| CorrectedEdits.FixedEditsKeepIndexed | RxSwiftCollections/Classes/ObservableList+UICollectionViewSections.swift:151-184 | a whole corrected batch keeps every binder's `sectionIndex` equal to its position |

## Left out

- Rx plumbing: `observeOn(MainScheduler)`, `subscribe`, the `[weak self]` guard and the `onError` / `onCompleted` handlers (`ObservableList+UICollectionViewSections.swift:114-119,186-188`) are scheduling and lifetime concerns. One call of the handler is the sequential method `HandleUpdate`. The initial `map` of each snapshot to a reload update (`DifferentialObservableList.swift:22-24`) is overwritten by the `scan` and is not modelled.
- UIKit: cell creation and selection callbacks (`:76-93`), delegate and data source assignment, the `bindSections` entry points and `AssociatedObjectDisposable` (`:192-226`). The collection view is a ghost log of `ConsumerCall`s. `performBatchUpdates` appears only as the `BeginBatch` / `EndBatch` calls around the batch.
- The `disposable` field and the disposal of the whole data source.
- DeepDiff's algorithm: `diff` is a function parameter with no properties assumed.
- `CGSize`: sizes are pairs of reals with no floating-point semantics. The sizer is a function parameter.
- `SizeForItemAt`: the collection view's own section and item counts are taken to be the ones this data source reports (`NumberOfSections`, `NumberOfItemsInSection`).
- `ObservableListDataSource` is not part of this model beyond the fields the reconciler uses. The binder's `sectionIndex` and `currentList` are kept. Its own item subscription, which fills `currentList`, is not modelled, so new binders start with no item list. The section transformer is represented by the binder's `section` value.
- Traps (force-unwraps and out-of-range subscripts) are not modelled as error values. Each one is a precondition: `EditApplicable`, `BatchApplicable` in the `requires` of `HandleUpdate`, `ApplyBatch` and `ApplyChanges`, and the `requires` of `NumberOfItemsInSection`, `SizeForItemAt`, `Bind`, `Unbind`, `ApplyInsert`, `ApplyDelete` and `ApplyMove`.
- `Example/RxSwiftCollections/ViewController.swift` is demo setup and is not part of this model.

## Findings

| source | as written | input that shows it | evidently intended | confidence | as-written member | corrected member |
|---|---|---|---|---|---|---|
| RxSwiftCollections/Classes/ObservableList+UICollectionViewSections.swift:154-160 | the insert shift loop runs to `update.list.count - 1` and force-reads the binder there; before the insert the binders number one fewer, so the last read is one past the end | sections [A, B] with binders at 0, 1, update [A, C, B] with changes [insert(1)]: the loop reads binder 2 of 2 | shift the binders that exist, positions `index..<currentDataSources.count` | high (not executed) | CorrectedEdits.InsertTrapsOnConsistentState, CorrectedEdits.InsertScenario | CorrectedEdits.FixedEdit, CorrectedEdits.FixedEditKeepsIndexed |
| RxSwiftCollections/Classes/ObservableList+UICollectionViewSections.swift:165-168 | delete removes the binder but does not lower the `sectionIndex` of the binders after it | binders [A:0, B:1, C:2], changes [delete(0)]: B sits at position 0 with index 1 | lower the `sectionIndex` of every later binder by one | high (not executed) | CorrectedEdits.DeleteLeavesStaleIndex | CorrectedEdits.FixedEdit, CorrectedEdits.FixedEditKeepsIndexed |
| RxSwiftCollections/Classes/ObservableList+UICollectionViewSections.swift:169-180 | move sets the moved binder's index but not the indices of the binders it slides past | binders [A:0, B:1], changes [move(0, 1)]: B sits at position 0 with index 1 | renumber every binder between `from` and `to` to its new position | high (not executed) | CorrectedEdits.MoveLeavesStaleIndex | CorrectedEdits.FixedEdit, CorrectedEdits.FixedEditKeepsIndexed |

The class `SectionedDataSource` follows the code as written. For inserts, the
first finding appears there as the precondition `EditApplicable`, which needs
at least `update.list.count` binders. The corrected definitions are value-level
functions with their index invariant proved (`FixedEditsKeepIndexed` for a
whole batch).
