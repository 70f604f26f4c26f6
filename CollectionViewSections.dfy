/** `ObservableListSectionedDataSource`: keeps a section list, one item
    binder per section and one subscription per binder in three parallel
    arrays, and applies each section-level `Update` to them while mirroring
    the structural edits to the collection view. The collection view is a
    ghost log of the calls it receives. */
module CollectionViewSections {
  import opened ListUpdates
  import opened SectionEdits

  /** The per-section item binder (`ObservableListDataSource`): only the
      fields the reconciler touches. `section` stands for the item stream the
      section transformer derives from the section value. */
  class DataSource<S, T> {
    const section: S
    var sectionIndex: int
    var currentList: Option<seq<T>>

    constructor (section: S, sectionIndex: int)
      ensures this.section == section && this.sectionIndex == sectionIndex && currentList == None
    {
      this.section := section;
      this.sectionIndex := sectionIndex;
      currentList := None;
    }

    /** This binder as a value. */
    function AsEntry(): Entry<S, T>
      reads this
    {
      Entry(section, sectionIndex, currentList)
    }

    /** Item count the collection view is told for this section: zero until
        the binder has received its first item list. */
    function NumberOfItems(): nat
      reads this
    {
      if currentList.None? then 0 else |currentList.value|
    }
  }

  /** The handle returned by binding a `DataSource` to the collection view. */
  class Subscription<S, T> {
    const source: DataSource<S, T>
    var disposed: bool

    constructor (source: DataSource<S, T>)
      ensures this.source == source && !disposed
    {
      this.source := source;
      disposed := false;
    }

    /** Disposing is idempotent: the handle only ever moves to disposed. */
    method Dispose()
      modifies this
      ensures disposed
    {
      disposed := true;
    }
  }

  /** Every subscription of `xs` and its binder are among `objects`. */
  ghost predicate Within<S, T>(xs: seq<Subscription<S, T>>, objects: set<object>)
  {
    forall s :: s in xs ==> s in objects && s.source in objects
  }

  /** A footprint that grows from `footprint` to `footprint'` keeps the
      subscriptions kept since `start` inside the growth, together with those
      that arrived with it. */
  lemma WithinGrown<S, T>(created: seq<Subscription<S, T>>, created': seq<Subscription<S, T>>,
                          start: set<object>, footprint: set<object>, footprint': set<object>)
    requires start <= footprint <= footprint' && Within(created, footprint - start)
    requires forall s :: s in created' ==> s in created || (s in footprint' - footprint && s.source in footprint' - footprint)
    ensures Within(created', footprint' - start)
  {
  }

  /** The binder a subscription belongs to. */
  function SourceOf<S, T>(s: Subscription<S, T>): DataSource<S, T>
  {
    s.source
  }

  /** Binders follow their subscriptions: where each subscription belongs
      to the binder at its position, before and after a batch, the binders
      are tracked through the batch with the subscriptions' binders. */
  lemma BindersTracked<S, T>(sources: seq<DataSource<S, T>>, subscriptions: seq<Subscription<S, T>>,
                             sources': seq<DataSource<S, T>>, subscriptions': seq<Subscription<S, T>>,
                             cs: seq<Change>, created: seq<Subscription<S, T>>, dropped: seq<Subscription<S, T>>)
    requires |sources| == |subscriptions| && forall k :: 0 <= k < |subscriptions| ==> subscriptions[k].source == sources[k]
    requires |sources'| == |subscriptions'| && forall k :: 0 <= k < |subscriptions'| ==> subscriptions'[k].source == sources'[k]
    requires Track(subscriptions, cs, created) == Some(Tracked(subscriptions', dropped))
    ensures Track(sources, cs, Mapped(SourceOf, created)) == Some(Tracked(sources', Mapped(SourceOf, dropped)))
  {
    assert sources == Mapped(SourceOf, subscriptions) && sources' == Mapped(SourceOf, subscriptions');
    TrackMapped(SourceOf, subscriptions, cs, created);
  }

  datatype IndexPath = IndexPath(section: nat, item: nat)

  datatype Size = Size(width: real, height: real)

  /** The size answered for an item the collection view does not hold yet. */
  const DefaultSize := Size(240.0, 240.0)

  /** Inserting a fresh binder with its subscription at the same position
      keeps the arrays parallel, the binders distinct and the view exact. */
  lemma InsertKeepsParallel<S, T>(ds: seq<DataSource<S, T>>, subs: seq<Subscription<S, T>>,
                                  v: seq<Entry<S, T>>, i: nat, d: DataSource<S, T>, s: Subscription<S, T>)
    requires |ds| == |subs| == |v| && i <= |ds|
    requires forall k :: 0 <= k < |subs| ==> subs[k].source == ds[k]
    requires forall j, k :: 0 <= j < k < |ds| ==> ds[j] != ds[k]
    requires d !in ds && s.source == d
    ensures var ds' := InsertAt(ds, i, d); var subs' := InsertAt(subs, i, s);
      && (forall k :: 0 <= k < |subs'| ==> subs'[k].source == ds'[k])
      && (forall j, k :: 0 <= j < k < |ds'| ==> ds'[j] != ds'[k])
  {
  }

  /** Removing one binder with its subscription keeps the arrays parallel
      and the binders distinct, and the removed subscription is held no
      more. */
  lemma RemoveKeepsParallel<S, T>(ds: seq<DataSource<S, T>>, subs: seq<Subscription<S, T>>, i: nat)
    requires |ds| == |subs| && i < |ds|
    requires forall k :: 0 <= k < |subs| ==> subs[k].source == ds[k]
    requires forall j, k :: 0 <= j < k < |ds| ==> ds[j] != ds[k]
    ensures var ds' := RemoveAt(ds, i); var subs' := RemoveAt(subs, i);
      && (forall k :: 0 <= k < |subs'| ==> subs'[k].source == ds'[k])
      && (forall j, k :: 0 <= j < k < |ds'| ==> ds'[j] != ds'[k])
      && subs[i] !in subs'
  {
    var subs' := RemoveAt(subs, i);
    forall k | 0 <= k < |subs'| ensures subs'[k] != subs[i] {
      var j := if k < i then k else k + 1;
      assert subs'[k].source == ds[j];
    }
  }

  /** Moving one binder with its subscription keeps the arrays parallel and
      the binders distinct. */
  lemma MoveKeepsParallel<S, T>(ds: seq<DataSource<S, T>>, subs: seq<Subscription<S, T>>, from: nat, to: nat)
    requires |ds| == |subs| && from < |ds| && to < |ds|
    requires forall k :: 0 <= k < |subs| ==> subs[k].source == ds[k]
    requires forall j, k :: 0 <= j < k < |ds| ==> ds[j] != ds[k]
    ensures var ds' := InsertAt(RemoveAt(ds, from), to, ds[from]);
      var subs' := InsertAt(RemoveAt(subs, from), to, subs[from]);
      && (forall k :: 0 <= k < |subs'| ==> subs'[k].source == ds'[k])
      && (forall j, k :: 0 <= j < k < |ds'| ==> ds'[j] != ds'[k])
  {
    var ds' := InsertAt(RemoveAt(ds, from), to, ds[from]);
    var subs' := InsertAt(RemoveAt(subs, from), to, subs[from]);
    forall k | 0 <= k < |subs'| ensures subs'[k].source == ds'[k] {
      MovedAt(subs, from, to, subs[from], k);
      MovedAt(ds, from, to, ds[from], k);
    }
    forall j, k | 0 <= j < k < |ds'| ensures ds'[j] != ds'[k] {
      MovedAt(ds, from, to, ds[from], j);
      MovedAt(ds, from, to, ds[from], k);
      MoveSourceInjective(from, to, j, k);
    }
  }

  class SectionedDataSource<S, T> {
    var currentSections: Option<seq<S>>
    var currentDataSources: Option<seq<DataSource<S, T>>>
    var currentSubscriptions: Option<seq<Subscription<S, T>>>
    /** The binders as values (see `SectionEdits.Entry`), kept in step with
        the binder objects by `Valid()`. */
    ghost var view: Option<seq<Entry<S, T>>>
    /** Calls the collection view has received, in order. */
    ghost var calls: seq<ConsumerCall>
    /** Subscriptions this data source has disposed, in order. */
    ghost var disposals: seq<Subscription<S, T>>
    /** Every binder and subscription this data source has created. */
    ghost var Repr: set<object>

    function DataSources(): seq<DataSource<S, T>>
      reads this`currentDataSources
    {
      if currentDataSources.None? then [] else currentDataSources.value
    }

    function Subscriptions(): seq<Subscription<S, T>>
      reads this`currentSubscriptions
    {
      if currentSubscriptions.None? then [] else currentSubscriptions.value
    }

    /** Binders and subscriptions are parallel: both present or both absent,
        of one length, the subscription at `k` belongs to the binder at `k`,
        no binder is held twice, every held subscription is live and both are
        in `Repr`; `view` is the value of the binders; and a subscription once
        disposed stays disposed. */
    ghost predicate Valid()
      reads this`currentDataSources, this`currentSubscriptions, this`view, this`Repr, this`disposals
      reads DataSources(), Subscriptions(), disposals
    {
      && (currentDataSources.Some? <==> currentSubscriptions.Some?)
      && (view.Some? <==> currentDataSources.Some?)
      && |DataSources()| == |Subscriptions()|
      && (view.Some? ==> |view.value| == |DataSources()|)
      && (forall j, k :: 0 <= j < k < |DataSources()| ==> DataSources()[j] != DataSources()[k])
      && (forall k :: 0 <= k < |DataSources()| ==>
            && Subscriptions()[k].source == DataSources()[k]
            && !Subscriptions()[k].disposed
            && DataSources()[k] in Repr && Subscriptions()[k] in Repr
            && (view.Some? ==> view.value[k] == DataSources()[k].AsEntry()))
      && (forall s :: s in disposals ==> s.disposed)
    }

    /** The subscriptions over a batch under way: from `held` at its start,
        the changes `cs` with the subscriptions `created` by their inserts
        lead to the subscriptions held now and to `released`, the disposals
        since `logged`; no subscription was held or created twice. Before
        the first reload nothing is held, created or released. */
    ghost predicate Traced(held: seq<Subscription<S, T>>, created: seq<Subscription<S, T>>,
                           released: seq<Subscription<S, T>>, logged: seq<Subscription<S, T>>, cs: seq<Change>)
      reads this`currentSubscriptions, this`disposals
    {
      && disposals == logged + released
      && Distinct(held + created)
      && if currentSubscriptions.Some? then Track(held, cs, created) == Some(Tracked(Subscriptions(), released))
         else created == [] && released == []
    }

    /** A batch under way after its first `k` changes: the rest is still
        applicable and leads to `goal`, and the calls since `log` are those of
        the first `k` changes. */
    ghost predicate Pending(list: seq<S>, changes: seq<Change>, k: nat, goal: Option<seq<Entry<S, T>>>, log: seq<ConsumerCall>)
      reads this`view, this`calls
    {
      && k <= |changes|
      && BatchApplicable(view, list, changes[k..])
      && ApplyEdits(view, list, changes[k..]) == goal
      && calls == log + BatchLog(changes[..k])
    }

    /** A batch under way after its first `k` changes, with its
        subscriptions tracked so far. */
    ghost predicate Underway(list: seq<S>, changes: seq<Change>, k: nat, goal: Option<seq<Entry<S, T>>>, log: seq<ConsumerCall>,
                             held: seq<Subscription<S, T>>, created: seq<Subscription<S, T>>,
                             released: seq<Subscription<S, T>>, logged: seq<Subscription<S, T>>)
      reads this`view, this`calls, this`currentSubscriptions, this`disposals
    {
      Pending(list, changes, k, goal, log) && k <= |changes| && Traced(held, created, released, logged, changes[..k])
    }

    constructor ()
      ensures Valid()
      ensures currentSections == None && currentDataSources == None && currentSubscriptions == None
      ensures calls == [] && disposals == [] && Repr == {}
      ensures NumberOfSections() == 0
      ensures forall s: nat :: NumberOfItemsInSection(s) == 0
    {
      currentSections := None;
      currentDataSources := None;
      currentSubscriptions := None;
      view := None;
      calls := [];
      disposals := [];
      Repr := {};
    }

    // -------------------------------------------------------------------
    // Read-only queries of the collection view's data source protocol

    function NumberOfSections(): (n: nat)
      reads this
      ensures currentSections.None? ==> n == 0
      ensures currentSections.Some? ==> n == |currentSections.value|
    {
      if currentSections.None? then 0 else |currentSections.value|
    }

    /** Zero before the first reload; otherwise the bound binder's count,
        which traps when `section` is not a binder position. */
    function NumberOfItemsInSection(section: nat): (n: nat)
      requires currentDataSources.Some? ==> section < |currentDataSources.value|
      reads this, DataSources()
      ensures currentDataSources.None? ==> n == 0
      ensures currentDataSources.Some? ==>
        n == (var items := DataSources()[section].currentList; if items.None? then 0 else |items.value|)
    {
      if currentDataSources.None? then 0 else currentDataSources.value[section].NumberOfItems()
    }

    /** The sizing variant's layout query. It answers the default size for a
        section or row the collection view does not hold, and otherwise asks
        the sizer about the live item at that position. */
    function SizeForItemAt(path: IndexPath, sizer: (IndexPath, T) -> Size): (r: Size)
      requires path.section < NumberOfSections() && currentDataSources.Some? ==>
        path.section < |currentDataSources.value|
      reads this, DataSources()
      ensures path.section >= NumberOfSections() ==> r == DefaultSize
      ensures path.section < NumberOfSections() && path.item >= NumberOfItemsInSection(path.section) ==>
        r == DefaultSize
      ensures path.section < NumberOfSections() && path.item < NumberOfItemsInSection(path.section) ==>
        && currentDataSources.Some?
        && DataSources()[path.section].currentList.Some?
        && path.item < |DataSources()[path.section].currentList.value|
        && r == sizer(path, DataSources()[path.section].currentList.value[path.item])
    {
      if path.section >= NumberOfSections() then DefaultSize
      else if path.item >= NumberOfItemsInSection(path.section) then DefaultSize
      else
        var source := currentDataSources.value[path.section];
        sizer(path, source.currentList.value[path.item])
    }

    // -------------------------------------------------------------------
    // Binding and unbinding one section

    /** Creates a binder for `section` at `sectionIndex`, subscribes it and
        inserts both at that position; nothing happens to the arrays before
        the first reload (they are absent then). */
    method Bind(section: S, sectionIndex: nat)
      requires Valid()
      requires currentDataSources.Some? ==> sectionIndex <= |DataSources()|
      modifies this
      ensures Valid()
      ensures currentSections == old(currentSections) && calls == old(calls) && disposals == old(disposals)
      ensures view == if old(view).None? then None
        else Some(InsertAt(old(view).value, sectionIndex, Entry(section, sectionIndex, None)))
      ensures old(currentDataSources).Some? ==>
        && DataSources() == InsertAt(old(DataSources()), sectionIndex, DataSources()[sectionIndex])
        && Subscriptions() == InsertAt(old(Subscriptions()), sectionIndex, Subscriptions()[sectionIndex])
        && fresh(DataSources()[sectionIndex]) && fresh(Subscriptions()[sectionIndex])
      ensures old(currentDataSources).None? ==> currentDataSources == None && currentSubscriptions == None
      ensures old(Repr) <= Repr && fresh(Repr - old(Repr))
    {
      ghost var sources, subscriptions, entries := DataSources(), Subscriptions(), view;
      var dataSource := new DataSource(section, sectionIndex);
      if currentDataSources.Some? {
        currentDataSources := Some(InsertAt(currentDataSources.value, sectionIndex, dataSource));
        view := Some(InsertAt(view.value, sectionIndex, dataSource.AsEntry()));
      }
      if currentSubscriptions.Some? {
        var subscription := new Subscription(dataSource);
        currentSubscriptions := Some(InsertAt(currentSubscriptions.value, sectionIndex, subscription));
        Repr := Repr + {dataSource, subscription};
      }
      if currentDataSources.Some? {
        InsertKeepsParallel(sources, subscriptions, entries.value, sectionIndex,
                            dataSource, Subscriptions()[sectionIndex]);
        forall k | 0 <= k < |DataSources()|
          ensures view.value[k] == DataSources()[k].AsEntry()
          ensures DataSources()[k] in Repr && Subscriptions()[k] in Repr
          ensures !Subscriptions()[k].disposed
        {
        }
      }
    }

    /** Removes the binder and subscription at `sectionIndex` and disposes
        exactly that subscription. */
    method Unbind(sectionIndex: nat)
      requires Valid()
      requires currentDataSources.Some? ==> sectionIndex < |DataSources()|
      modifies this, if currentSubscriptions.Some? then {currentSubscriptions.value[sectionIndex]} else {}
      ensures Valid()
      ensures currentSections == old(currentSections) && calls == old(calls)
      ensures view == if old(view).None? then None else Some(RemoveAt(old(view).value, sectionIndex))
      ensures old(currentDataSources).Some? ==>
        && currentDataSources == Some(RemoveAt(old(DataSources()), sectionIndex))
        && currentSubscriptions == Some(RemoveAt(old(Subscriptions()), sectionIndex))
        && old(Subscriptions())[sectionIndex].disposed
        && disposals == old(disposals) + [old(Subscriptions())[sectionIndex]]
      ensures old(currentDataSources).None? ==>
        currentDataSources == None && currentSubscriptions == None && disposals == old(disposals)
      ensures Repr == old(Repr)
    {
      if currentDataSources.Some? {
        RemoveKeepsParallel(DataSources(), Subscriptions(), sectionIndex);
      }
      var removed: Option<Subscription<S, T>> := None;
      if currentSubscriptions.Some? {
        removed := Some(currentSubscriptions.value[sectionIndex]);
        currentSubscriptions := Some(RemoveAt(currentSubscriptions.value, sectionIndex));
      }
      if currentDataSources.Some? {
        currentDataSources := Some(RemoveAt(currentDataSources.value, sectionIndex));
        view := Some(RemoveAt(view.value, sectionIndex));
      }
      if removed.Some? {
        removed.value.Dispose();
        disposals := disposals + [removed.value];
      }
      forall k | 0 <= k < |DataSources()|
        ensures view.value[k] == DataSources()[k].AsEntry()
        ensures Subscriptions()[k].source == DataSources()[k] && !Subscriptions()[k].disposed
        ensures DataSources()[k] in Repr && Subscriptions()[k] in Repr
      {
      }
    }

    // -------------------------------------------------------------------
    // The update handler

    /** The collection view receives `c`. */
    method Record(c: ConsumerCall)
      modifies this`calls
      ensures calls == old(calls) + [c]
    {
      calls := calls + [c];
    }

    /** One turn of the unbinding loop: the held subscriptions are the
        first `index + 1` of `subscriptions`, and the last of them goes,
        disposed and appended to the disposal log. */
    method UnbindLast(ghost subscriptions: seq<Subscription<S, T>>, index: nat, ghost log: seq<Subscription<S, T>>)
      requires Valid()
      requires index < |subscriptions| && currentSubscriptions == Some(subscriptions[..index + 1])
      requires disposals == log + Reversed(subscriptions[index + 1..])
      requires forall k :: index < k < |subscriptions| ==> subscriptions[k].disposed
      modifies this, subscriptions[index]
      ensures Valid()
      ensures currentSubscriptions == Some(subscriptions[..index])
      ensures currentSections == old(currentSections) && calls == old(calls) && Repr == old(Repr)
      ensures disposals == log + Reversed(subscriptions[index..])
      ensures forall k :: index <= k < |subscriptions| ==> subscriptions[k].disposed
    {
      TrimLast(subscriptions, index, log);
      Unbind(index);
    }

    /** The first half of the reload branch: unbinds every held section
        from the last position to the first. */
    method UnbindAll()
      requires Valid()
      modifies this, Subscriptions()
      ensures Valid()
      ensures currentSections == old(currentSections) && calls == old(calls)
      ensures old(currentSubscriptions).Some? ==> currentDataSources == Some([]) && currentSubscriptions == Some([])
      ensures old(currentSubscriptions).None? ==> currentDataSources == None && currentSubscriptions == None
      ensures forall k :: 0 <= k < |old(Subscriptions())| ==> old(Subscriptions())[k].disposed
      ensures disposals == old(disposals) + Reversed(old(Subscriptions()))
      ensures Repr == old(Repr)
    {
      if currentSubscriptions.Some? {
        var subscriptions := currentSubscriptions.value;
        var index := |subscriptions|;
        assert subscriptions[..index] == subscriptions;
        while index > 0
          invariant 0 <= index <= |subscriptions|
          invariant Valid()
          invariant currentSubscriptions == Some(subscriptions[..index])
          invariant currentSections == old(currentSections) && calls == old(calls) && Repr == old(Repr)
          invariant disposals == old(disposals) + Reversed(subscriptions[index..])
          invariant forall k :: index <= k < |subscriptions| ==> subscriptions[k].disposed
          decreases index
        {
          index := index - 1;
          UnbindLast(subscriptions, index, old(disposals));
        }
      }
    }

    /** The second half of the reload branch: binds one fresh binder per
        section of `list`, in ascending order, to empty arrays. */
    method BindAll(list: seq<S>)
      requires Valid() && currentDataSources == Some([]) && currentSubscriptions == Some([])
      modifies this
      ensures Valid()
      ensures currentSections == old(currentSections) && calls == old(calls) && disposals == old(disposals)
      ensures view == Some(ReloadView(list))
      ensures forall k :: 0 <= k < |DataSources()| ==> fresh(DataSources()[k]) && fresh(Subscriptions()[k])
      ensures old(Repr) <= Repr && fresh(Repr - old(Repr))
    {
      var i := 0;
      while i < |list|
        invariant 0 <= i <= |list|
        invariant Valid()
        invariant currentSections == old(currentSections) && calls == old(calls) && disposals == old(disposals)
        invariant view == Some(ReloadView<S, T>(list)[..i])
        invariant forall k :: 0 <= k < |DataSources()| ==> fresh(DataSources()[k]) && fresh(Subscriptions()[k])
        invariant old(Repr) <= Repr && fresh(Repr - old(Repr))
      {
        ghost var sourcesBefore, subscriptionsBefore := DataSources(), Subscriptions();
        Bind(list[i], i);
        assert forall k :: 0 <= k < i ==>
          DataSources()[k] == sourcesBefore[k] && Subscriptions()[k] == subscriptionsBefore[k];
        ghost var prefix := ReloadView<S, T>(list)[..i];
        assert InsertAt(prefix, i, Entry(list[i], i, None)) == prefix + [Entry(list[i], i, None)];
        assert ReloadView<S, T>(list)[..i + 1] == prefix + [Entry(list[i], i, None)];
        i := i + 1;
      }
      assert ReloadView<S, T>(list)[..i] == ReloadView<S, T>(list);
    }

    /** The middle of the reload branch, once nothing is bound: takes the
        new section list and starts both arrays empty. */
    method Reset(list: seq<S>)
      requires Valid() && DataSources() == [] && Subscriptions() == []
      modifies this
      ensures Valid()
      ensures currentSections == Some(list)
      ensures currentDataSources == Some([]) && currentSubscriptions == Some([]) && view == Some([])
      ensures calls == old(calls) && disposals == old(disposals) && Repr == old(Repr)
    {
      currentSections := Some(list);
      currentSubscriptions := Some([]);
      currentDataSources := Some([]);
      view := Some([]);
    }

    /** The reload branch: unbinds every section from the last to the first,
        takes the new section list and binds one fresh binder per section in
        ascending order, then reloads the collection view. */
    method ReloadSections(list: seq<S>)
      requires Valid()
      modifies this, Subscriptions()
      ensures Valid()
      ensures currentSections == Some(list)
      ensures view == Some(ReloadView(list))
      ensures forall k :: 0 <= k < |DataSources()| ==> fresh(DataSources()[k]) && fresh(Subscriptions()[k])
      ensures forall k :: 0 <= k < |old(Subscriptions())| ==> old(Subscriptions())[k].disposed
      ensures disposals == old(disposals) + Reversed(old(Subscriptions()))
      ensures calls == old(calls) + [ReloadData]
      ensures old(Repr) <= Repr && fresh(Repr - old(Repr))
    {
      UnbindAll();
      Reset(list);
      BindAll(list);
      Record(ReloadData);
    }

    /** The shift loop of the insert case: binders at positions `lo..<hi`
        get `sectionIndex + 1`. */
    method ShiftIndices(lo: nat, hi: nat)
      requires Valid() && currentDataSources.Some? && lo <= hi <= |DataSources()|
      modifies this, DataSources()
      ensures Valid()
      ensures currentDataSources == old(currentDataSources) && currentSubscriptions == old(currentSubscriptions)
      ensures currentSections == old(currentSections) && calls == old(calls) && disposals == old(disposals)
      ensures view == Some(Shifted(old(view).value, lo, hi))
      ensures Repr == old(Repr)
    {
      var j := lo;
      assert Shifted(old(view).value, lo, lo) == old(view).value;
      while j < hi
        invariant lo <= j <= hi
        invariant Valid()
        invariant currentDataSources == old(currentDataSources) && currentSubscriptions == old(currentSubscriptions)
        invariant currentSections == old(currentSections) && calls == old(calls) && disposals == old(disposals)
        invariant view == Some(Shifted(old(view).value, lo, j))
        invariant Repr == old(Repr)
      {
        var dataSource := currentDataSources.value[j];
        dataSource.sectionIndex := dataSource.sectionIndex + 1;
        view := Some(view.value[j := dataSource.AsEntry()]);
        assert view.value == Shifted(old(view).value, lo, j + 1);
        forall k | 0 <= k < |DataSources()|
          ensures view.value[k] == DataSources()[k].AsEntry()
          ensures !Subscriptions()[k].disposed
        {
          assert k != j ==> DataSources()[k] != dataSource;
        }
        j := j + 1;
      }
    }

    /** The insert case: shifts the binders at positions
        `index..<|list|`, binds `list[index]` at `index` and tells the
        collection view. */
    method ApplyInsert(list: seq<S>, index: nat)
      requires Valid()
      requires EditApplicable(view, |list|, Insert(index))
      modifies this, DataSources()
      ensures Valid()
      ensures old(Repr) <= Repr && fresh(Repr - old(Repr))
      ensures currentSections == old(currentSections) && disposals == old(disposals)
      ensures view == ApplyEdit(old(view), list, Insert(index))
      ensures calls == old(calls) + [InsertSection(index)]
      ensures currentDataSources.Some? && |DataSources()| == |old(DataSources())| + 1
      ensures DataSources() == InsertAt(old(DataSources()), index, DataSources()[index])
      ensures Subscriptions() == InsertAt(old(Subscriptions()), index, Subscriptions()[index])
      ensures fresh(DataSources()[index]) && fresh(Subscriptions()[index])
    {
      ShiftIndices(index, |list|);
      Bind(list[index], index);
      Record(InsertSection(index));
    }

    /** The delete case: unbinds the section at `index` (its siblings keep
        their indices) and tells the collection view. */
    method ApplyDelete(index: nat)
      requires Valid()
      requires currentDataSources.Some? ==> index < |DataSources()|
      modifies this, if currentSubscriptions.Some? then {currentSubscriptions.value[index]} else {}
      ensures Valid()
      ensures Repr == old(Repr)
      ensures currentSections == old(currentSections)
      ensures view == if old(view).None? then None else Some(RemoveAt(old(view).value, index))
      ensures calls == old(calls) + [DeleteSection(index)]
      ensures old(currentDataSources).Some? ==>
        && currentDataSources == Some(RemoveAt(old(DataSources()), index))
        && currentSubscriptions == Some(RemoveAt(old(Subscriptions()), index))
        && old(Subscriptions())[index].disposed
        && disposals == old(disposals) + [old(Subscriptions())[index]]
      ensures old(currentDataSources).None? ==>
        currentDataSources == None && currentSubscriptions == None && disposals == old(disposals)
    {
      Unbind(index);
      Record(DeleteSection(index));
    }

    /** The move case: takes the binder and its subscription out at `from`,
        gives the binder `sectionIndex == to` and puts both back at `to`. */
    method ApplyMove(from: nat, to: nat)
      requires Valid()
      requires currentDataSources.Some? && from < |DataSources()| && to < |DataSources()|
      modifies this, DataSources()
      ensures Valid()
      ensures currentDataSources.Some?
      ensures DataSources() == InsertAt(RemoveAt(old(DataSources()), from), to, old(DataSources())[from])
      ensures Subscriptions() == InsertAt(RemoveAt(old(Subscriptions()), from), to, old(Subscriptions())[from])
      ensures currentSections == old(currentSections) && disposals == old(disposals)
      ensures view == Some(InsertAt(RemoveAt(old(view).value, from), to, old(view).value[from].(sectionIndex := to)))
      ensures calls == old(calls) + [MoveSection(from, to)]
      ensures Repr == old(Repr)
    {
      ghost var sources, subscriptions, entries := DataSources(), Subscriptions(), view.value;
      var dataSource := currentDataSources.value[from];
      currentDataSources := Some(RemoveAt(currentDataSources.value, from));
      var subscription := currentSubscriptions.value[from];
      currentSubscriptions := Some(RemoveAt(currentSubscriptions.value, from));
      dataSource.sectionIndex := to;
      currentDataSources := Some(InsertAt(currentDataSources.value, to, dataSource));
      currentSubscriptions := Some(InsertAt(currentSubscriptions.value, to, subscription));
      view := Some(InsertAt(RemoveAt(view.value, from), to, dataSource.AsEntry()));
      Record(MoveSection(from, to));
      MoveKeepsParallel(sources, subscriptions, from, to);
      forall k | 0 <= k < |sources|
        ensures view.value[k] == DataSources()[k].AsEntry()
        ensures DataSources()[k] in Repr && Subscriptions()[k] in Repr
        ensures !Subscriptions()[k].disposed
      {
        MovedAt(entries, from, to, dataSource.AsEntry(), k);
        MovedAt(sources, from, to, dataSource, k);
        MovedAt(subscriptions, from, to, subscription, k);
      }
    }

    /** One change of an incremental batch, against the new section list:
        what it does to the binders, to both arrays and to the disposals; a
        `Reload` inside a batch does nothing. */
    method ApplyChange(list: seq<S>, c: Change)
      requires Valid()
      requires EditApplicable(view, |list|, c)
      modifies this, DataSources()
      modifies if c.Delete? && currentSubscriptions.Some? then {currentSubscriptions.value[c.index]} else {}
      ensures Valid()
      ensures old(Repr) <= Repr && fresh(Repr - old(Repr))
      ensures currentSections == old(currentSections)
      ensures view == ApplyEdit(old(view), list, c)
      ensures calls == old(calls) + EditLog(c)
      ensures c.Insert? ==>
        && currentDataSources.Some? && |DataSources()| == |old(DataSources())| + 1
        && DataSources() == InsertAt(old(DataSources()), c.index, DataSources()[c.index])
        && Subscriptions() == InsertAt(old(Subscriptions()), c.index, Subscriptions()[c.index])
        && fresh(DataSources()[c.index]) && fresh(Subscriptions()[c.index])
      ensures c.Delete? && old(currentDataSources).Some? ==>
        && currentDataSources == Some(RemoveAt(old(DataSources()), c.index))
        && currentSubscriptions == Some(RemoveAt(old(Subscriptions()), c.index))
        && old(Subscriptions())[c.index].disposed
        && disposals == old(disposals) + [old(Subscriptions())[c.index]]
      ensures c.Move? ==>
        && currentDataSources.Some?
        && DataSources() == InsertAt(RemoveAt(old(DataSources()), c.from), c.to, old(DataSources())[c.from])
        && Subscriptions() == InsertAt(RemoveAt(old(Subscriptions()), c.from), c.to, old(Subscriptions())[c.from])
      ensures c.Reload? || (c.Delete? && old(currentDataSources).None?) ==>
        currentDataSources == old(currentDataSources) && currentSubscriptions == old(currentSubscriptions)
      ensures !(c.Delete? && old(currentDataSources).Some?) ==> disposals == old(disposals)
    {
      match c
      case Insert(index) => ApplyInsert(list, index);
      case Delete(index) => ApplyDelete(index);
      case Move(from, to) => ApplyMove(from, to);
      case Reload =>
    }

    /** One change of a batch together with its subscriptions since the
        start of the batch: `held` at the start, `created` and `released`
        since, `logged` the disposals before it. An insert adds the
        subscription it created, a delete of a held section the one it
        disposed. */
    method ApplyRecorded(list: seq<S>, changes: seq<Change>, k: nat, ghost held: seq<Subscription<S, T>>, ghost created: seq<Subscription<S, T>>,
                         ghost released: seq<Subscription<S, T>>, ghost logged: seq<Subscription<S, T>>)
      returns (ghost created': seq<Subscription<S, T>>, ghost released': seq<Subscription<S, T>>)
      requires Valid()
      requires k < |changes| && EditApplicable(view, |list|, changes[k])
      requires Traced(held, created, released, logged, changes[..k])
      modifies this, DataSources()
      modifies if changes[k].Delete? && currentSubscriptions.Some? then {currentSubscriptions.value[changes[k].index]} else {}
      ensures Valid()
      ensures old(Repr) <= Repr && fresh(Repr - old(Repr))
      ensures currentSections == old(currentSections)
      ensures view == ApplyEdit(old(view), list, changes[k])
      ensures calls == old(calls) + EditLog(changes[k])
      ensures Traced(held, created', released', logged, changes[..k + 1])
      ensures forall s :: s in created' ==> s in created || (s in Repr - old(Repr) && s.source in Repr - old(Repr))
    {
      ghost var before := Subscriptions();
      ApplyChange(list, changes[k]);
      ghost var c := changes[k];
      created' := if c.Insert? then created + [Subscriptions()[c.index]] else created;
      released' := if c.Delete? && old(currentSubscriptions).Some? then released + [before[c.index]] else released;
      if c.Insert? {
        DistinctAppend(held, created, Subscriptions()[c.index]);
      }
      if old(currentSubscriptions).Some? {
        TrackNext(held, changes, k, created, before, Subscriptions(), released, logged);
      }
    }

    /** At the start of a batch the whole batch is pending, its
        subscriptions are those held, none of them twice, and nothing is
        created or released yet. */
    lemma Started(list: seq<S>, changes: seq<Change>)
      requires Valid() && BatchApplicable(view, list, changes)
      ensures Underway(list, changes, 0, ApplyEdits(view, list, changes), calls, Subscriptions(), [], [], disposals)
    {
      forall i, j | 0 <= i < j < |Subscriptions()| ensures Subscriptions()[i] != Subscriptions()[j] {
        assert Subscriptions()[i].source == DataSources()[i] && Subscriptions()[j].source == DataSources()[j];
      }
      assert Subscriptions() + [] == Subscriptions() && disposals + [] == disposals && calls + [] == calls;
      assert changes[..0] == [] && changes[0..] == changes;
    }

    /** At the end of a batch the view is the goal, the log holds the calls
        of all changes and the subscriptions are tracked through all of them. */
    lemma Finished(list: seq<S>, changes: seq<Change>, goal: Option<seq<Entry<S, T>>>, log: seq<ConsumerCall>,
                   held: seq<Subscription<S, T>>, created: seq<Subscription<S, T>>,
                   released: seq<Subscription<S, T>>, logged: seq<Subscription<S, T>>)
      requires Underway(list, changes, |changes|, goal, log, held, created, released, logged)
      ensures view == goal && calls == log + BatchLog(changes)
      ensures Traced(held, created, released, logged, changes)
    {
      assert changes[..|changes|] == changes && changes[|changes|..] == [];
    }

    /** Applies change `k` of a batch: the pending rest of the batch still
        leads to `goal`, the log grows by that change's calls, and the
        subscriptions are tracked through one more change. */
    method ApplyNext(list: seq<S>, changes: seq<Change>, k: nat, ghost goal: Option<seq<Entry<S, T>>>, ghost log: seq<ConsumerCall>,
                     ghost held: seq<Subscription<S, T>>, ghost created: seq<Subscription<S, T>>,
                     ghost released: seq<Subscription<S, T>>, ghost logged: seq<Subscription<S, T>>, ghost start: set<object>)
      returns (ghost created': seq<Subscription<S, T>>, ghost released': seq<Subscription<S, T>>)
      requires Valid()
      requires k < |changes| && Underway(list, changes, k, goal, log, held, created, released, logged)
      requires start <= Repr && Within(created, Repr - start)
      modifies this, Repr
      ensures Valid()
      ensures old(Repr) <= Repr && fresh(Repr - old(Repr))
      ensures currentSections == old(currentSections)
      ensures Underway(list, changes, k + 1, goal, log, held, created', released', logged)
      ensures Within(created', Repr - start)
    {
      BatchStep(view, list, changes, k);
      LogExtended(log, changes, k);
      ghost var footprint := Repr;
      created', released' := ApplyRecorded(list, changes, k, held, created, released, logged);
      WithinGrown(created, created', start, footprint, Repr);
    }

    /** The loop of the incremental branch: applies the changes of a batch
        in order, from its start (see `Started`) to its end (see `Finished`),
        tracking its subscriptions (`held` at the start, `created` and
        `released` since). */
    method RunChanges(list: seq<S>, changes: seq<Change>, ghost goal: Option<seq<Entry<S, T>>>, ghost log: seq<ConsumerCall>,
                      ghost held: seq<Subscription<S, T>>, ghost logged: seq<Subscription<S, T>>)
      returns (ghost created: seq<Subscription<S, T>>, ghost released: seq<Subscription<S, T>>)
      requires Valid()
      requires Underway(list, changes, 0, goal, log, held, [], [], logged)
      modifies this, Repr
      ensures Valid()
      ensures old(Repr) <= Repr && fresh(Repr - old(Repr))
      ensures currentSections == old(currentSections)
      ensures Underway(list, changes, |changes|, goal, log, held, created, released, logged)
      ensures Within(created, Repr - old(Repr))
    {
      created, released := [], [];
      var k := 0;
      while k < |changes|
        invariant Valid()
        invariant old(Repr) <= Repr && fresh(Repr - old(Repr))
        invariant currentSections == old(currentSections)
        invariant Underway(list, changes, k, goal, log, held, created, released, logged)
        invariant Within(created, Repr - old(Repr))
      {
        ghost var footprint := Repr;
        created, released := ApplyNext(list, changes, k, goal, log, held, created, released, logged, old(Repr));
        assert Repr - old(Repr) <= (Repr - footprint) + (footprint - old(Repr));
        k := k + 1;
      }
    }

    /** The incremental changes of one update. With the arrays present,
        both arrays end exactly as `Track` says: every change in order, the
        inserts placing the fresh subscriptions `created` and their fresh
        binders, and the disposals since are the subscriptions the deletes
        took out, in order, one per delete. Hence every subscription held
        afterwards was held before or is new, every one held before and not
        afterwards is disposed, and each is disposed exactly once. Before the
        first reload nothing changes. */
    method ApplyChanges(list: seq<S>, changes: seq<Change>) returns (ghost created: seq<Subscription<S, T>>)
      requires Valid()
      requires BatchApplicable(view, list, changes)
      modifies this, Repr
      ensures Valid()
      ensures old(Repr) <= Repr && fresh(Repr - old(Repr))
      ensures currentSections == old(currentSections)
      ensures view == ApplyEdits(old(view), list, changes)
      ensures calls == old(calls) + BatchLog(changes)
      ensures old(disposals) <= disposals
      ensures old(currentSubscriptions).Some? ==>
        && Track(old(Subscriptions()), changes, created) == Some(Tracked(Subscriptions(), disposals[|old(disposals)|..]))
        && Track(old(DataSources()), changes, Mapped(SourceOf, created))
           == Some(Tracked(DataSources(), Mapped(SourceOf, disposals[|old(disposals)|..])))
        && |disposals| == |old(disposals)| + CountDeletes(changes)
      ensures old(currentSubscriptions).None? ==>
        currentDataSources == None && currentSubscriptions == None && disposals == old(disposals)
      ensures forall s :: s in created ==> fresh(s) && fresh(s.source)
      ensures forall s :: s in Subscriptions() ==> s in old(Subscriptions()) || fresh(s)
      ensures forall s :: s in old(Subscriptions()) && s !in Subscriptions() ==> s in disposals[|old(disposals)|..] && s.disposed
      ensures forall i :: |old(disposals)| <= i < |disposals| ==>
        && disposals[i].disposed && disposals[i] !in Subscriptions()
        && (disposals[i] in old(Subscriptions()) || fresh(disposals[i]))
      ensures forall i, j :: |old(disposals)| <= i < j < |disposals| ==> disposals[i] != disposals[j]
    {
      ghost var goal, held, released := ApplyEdits(view, list, changes), Subscriptions(), [];
      Started(list, changes);
      created, released := RunChanges(list, changes, goal, calls, held, disposals);
      Finished(list, changes, goal, old(calls), held, created, released, old(disposals));
      Retired(held, created, released, changes);
      if old(currentSubscriptions).Some? {
        BindersTracked(old(DataSources()), old(Subscriptions()), DataSources(), Subscriptions(), changes, created, released);
      }
    }

    /** What the tracked subscriptions of a whole batch mean, between the
        state before the batch and now (see `ApplyChanges`); the binders
        follow by `BindersTracked`.

        Every parameter is declared `new`, values included: Dafny 4.11 does
        not translate a call to a two-state lemma that checks two or more
        parameters for allocation in the previous state. */
    twostate lemma Retired(new held: seq<Subscription<S, T>>, new created: seq<Subscription<S, T>>, new released: seq<Subscription<S, T>>,
                           new changes: seq<Change>)
      requires Valid()
      requires held == old(Subscriptions())
      requires currentSubscriptions.Some? == old(currentSubscriptions).Some?
      requires Traced(held, created, released, old(disposals), changes)
      requires forall s :: s in created ==> fresh(s)
      ensures old(disposals) <= disposals
      ensures old(currentSubscriptions).Some? ==>
        && Track(old(Subscriptions()), changes, created) == Some(Tracked(Subscriptions(), disposals[|old(disposals)|..]))
        && |disposals| == |old(disposals)| + CountDeletes(changes)
      ensures old(currentSubscriptions).None? ==>
        currentDataSources == None && currentSubscriptions == None && disposals == old(disposals)
      ensures forall s :: s in Subscriptions() ==> s in old(Subscriptions()) || fresh(s)
      ensures forall s :: s in old(Subscriptions()) && s !in Subscriptions() ==> s in disposals[|old(disposals)|..] && s.disposed
      ensures forall i :: |old(disposals)| <= i < |disposals| ==>
        && disposals[i].disposed && disposals[i] !in Subscriptions()
        && (disposals[i] in old(Subscriptions()) || fresh(disposals[i]))
      ensures forall i, j :: |old(disposals)| <= i < j < |disposals| ==> disposals[i] != disposals[j]
    {
      if old(currentSubscriptions).Some? {
        Settled(held, changes, created, Subscriptions(), old(disposals), disposals);
      } else {
        assert held + created == [] && Subscriptions() == [];
      }
    }

    /** The incremental branch: inside one batch of the collection view,
        takes the new section list first, then applies the changes in order,
        with the effect `ApplyChanges` states. */
    method ApplyBatch(update: Update<S>) returns (ghost created: seq<Subscription<S, T>>)
      requires Valid()
      requires BatchApplicable(view, update.list, update.changes)
      modifies this, Repr
      ensures Valid()
      ensures old(Repr) <= Repr && fresh(Repr - old(Repr))
      ensures currentSections == Some(update.list)
      ensures view == ApplyEdits(old(view), update.list, update.changes)
      ensures calls == old(calls) + [BeginBatch] + BatchLog(update.changes) + [EndBatch]
      ensures old(disposals) <= disposals
      ensures old(currentSubscriptions).Some? ==>
        && Track(old(Subscriptions()), update.changes, created) == Some(Tracked(Subscriptions(), disposals[|old(disposals)|..]))
        && Track(old(DataSources()), update.changes, Mapped(SourceOf, created))
           == Some(Tracked(DataSources(), Mapped(SourceOf, disposals[|old(disposals)|..])))
        && |disposals| == |old(disposals)| + CountDeletes(update.changes)
      ensures old(currentSubscriptions).None? ==>
        currentDataSources == None && currentSubscriptions == None && disposals == old(disposals)
      ensures forall s :: s in created ==> fresh(s) && fresh(s.source)
      ensures forall s :: s in Subscriptions() ==> s in old(Subscriptions()) || fresh(s)
      ensures forall s :: s in old(Subscriptions()) && s !in Subscriptions() ==> s in disposals[|old(disposals)|..] && s.disposed
      ensures forall i :: |old(disposals)| <= i < |disposals| ==>
        && disposals[i].disposed && disposals[i] !in Subscriptions()
        && (disposals[i] in old(Subscriptions()) || fresh(disposals[i]))
      ensures forall i, j :: |old(disposals)| <= i < j < |disposals| ==> disposals[i] != disposals[j]
    {
      Record(BeginBatch);
      currentSections := Some(update.list);
      created := ApplyChanges(update.list, update.changes);
      Record(EndBatch);
    }

    /** The handler run for each section-level update: any `Reload` in the
        changes selects the reload branch, otherwise the changes are applied
        as one batch; `created` are the subscriptions a batch's inserts
        create. */
    method HandleUpdate(update: Update<S>) returns (ghost created: seq<Subscription<S, T>>)
      requires Valid()
      requires Reload !in update.changes ==> BatchApplicable(view, update.list, update.changes)
      modifies this, Repr
      ensures Valid()
      ensures old(Repr) <= Repr && fresh(Repr - old(Repr))
      ensures currentSections == Some(update.list)
      ensures old(disposals) <= disposals
      ensures Reload in update.changes ==>
        && view == Some(ReloadView(update.list))
        && calls == old(calls) + [ReloadData]
        && disposals == old(disposals) + Reversed(old(Subscriptions()))
        && (forall k :: 0 <= k < |old(Subscriptions())| ==> old(Subscriptions())[k].disposed)
        && (forall k :: 0 <= k < |DataSources()| ==> fresh(DataSources()[k]) && fresh(Subscriptions()[k]))
      ensures Reload !in update.changes ==>
        && view == ApplyEdits(old(view), update.list, update.changes)
        && calls == old(calls) + [BeginBatch] + BatchLog(update.changes) + [EndBatch]
        && (old(currentSubscriptions).Some? ==>
              && Track(old(Subscriptions()), update.changes, created) == Some(Tracked(Subscriptions(), disposals[|old(disposals)|..]))
              && Track(old(DataSources()), update.changes, Mapped(SourceOf, created))
                 == Some(Tracked(DataSources(), Mapped(SourceOf, disposals[|old(disposals)|..])))
              && |disposals| == |old(disposals)| + CountDeletes(update.changes))
        && (old(currentSubscriptions).None? ==>
              currentDataSources == None && currentSubscriptions == None && disposals == old(disposals))
        && (forall s :: s in created ==> fresh(s) && fresh(s.source))
        && (forall s :: s in Subscriptions() ==> s in old(Subscriptions()) || fresh(s))
        && (forall s :: s in old(Subscriptions()) && s !in Subscriptions() ==> s in disposals[|old(disposals)|..] && s.disposed)
        && (forall i :: |old(disposals)| <= i < |disposals| ==>
              && disposals[i].disposed && disposals[i] !in Subscriptions()
              && (disposals[i] in old(Subscriptions()) || fresh(disposals[i])))
        && (forall i, j :: |old(disposals)| <= i < j < |disposals| ==> disposals[i] != disposals[j])
    {
      if Reload in update.changes {
        ReloadSections(update.list);
        created := [];
      } else {
        created := ApplyBatch(update);
      }
    }
  }
}
