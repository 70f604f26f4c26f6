/** A value-level account of the section reconciler. Each bound section is
    seen as an `Entry`: the section value its binder was created for, the
    binder's mutable `sectionIndex`, and the binder's item list. The
    reconciler's methods are proved to transform this view exactly as the
    functions here say; the lemmas here say what those functions mean. */
module SectionEdits {
  import opened ListUpdates

  datatype Entry<S, T> = Entry(section: S, sectionIndex: int, items: Option<seq<T>>)

  /** The structural calls the collection view receives. */
  datatype ConsumerCall =
    | InsertSection(index: nat)
    | DeleteSection(index: nat)
    | MoveSection(from: nat, to: nat)
    | ReloadData
    | BeginBatch
    | EndBatch

  // ---------------------------------------------------------------------
  // Sequence helpers (Swift's `insert(_:at:)` and `remove(at:)`)

  function InsertAt<X>(s: seq<X>, i: nat, x: X): (r: seq<X>)
    requires i <= |s|
    ensures |r| == |s| + 1
    ensures forall k :: 0 <= k < |r| ==> r[k] == if k < i then s[k] else if k == i then x else s[k - 1]
  {
    s[..i] + [x] + s[i..]
  }

  function RemoveAt<X>(s: seq<X>, i: nat): (r: seq<X>)
    requires i < |s|
    ensures |r| == |s| - 1
    ensures forall k :: 0 <= k < |r| ==> r[k] == if k < i then s[k] else s[k + 1]
  {
    s[..i] + s[i + 1..]
  }

  /** The elements of `s` from last to first: the order in which the reload
      branch unbinds the held sections, `(0..<count).reversed()`. */
  function Reversed<X>(s: seq<X>): (r: seq<X>)
    ensures |r| == |s|
    decreases |s|
  {
    if s == [] then [] else Reversed(s[1..]) + [s[0]]
  }

  /** Position `k` of the reversal holds position `|s| - 1 - k` of `s`: the
      `k`-th subscription the reload branch disposes is the one held at
      `count - 1 - k`. */
  lemma {:induction false} ReversedAt<X>(s: seq<X>, k: nat)
    requires k < |s|
    ensures Reversed(s)[k] == s[|s| - 1 - k]
    decreases |s|
  {
    if k < |s| - 1 {
      ReversedAt(s[1..], k);
    }
  }

  /** Taking the last element off a prefix, and reversing a suffix one
      element at a time: the two steps of unbinding from the end. */
  lemma TrimLast<X>(s: seq<X>, i: nat, log: seq<X>)
    requires i < |s|
    ensures RemoveAt(s[..i + 1], i) == s[..i]
    ensures Reversed(s[i..]) == Reversed(s[i + 1..]) + [s[i]]
    ensures (log + Reversed(s[i + 1..])) + [s[i]] == log + Reversed(s[i..])
  {
    assert s[i..][1..] == s[i + 1..];
  }

  /** Where the element at position `k` after a move from `from` to `to`
      came from. */
  function MoveSource(from: nat, to: nat, k: nat): nat
  {
    if k == to then from
    else
      var m := if k < to then k else k - 1;
      if m < from then m else m + 1
  }

  lemma MovedAt<X>(s: seq<X>, from: nat, to: nat, x: X, k: nat)
    requires from < |s| && to < |s| && k < |s|
    ensures MoveSource(from, to, k) < |s|
    ensures InsertAt(RemoveAt(s, from), to, x)[k] == if k == to then x else s[MoveSource(from, to, k)]
  {
  }

  lemma MoveSourceInjective(from: nat, to: nat, j: nat, k: nat)
    requires j != k
    ensures MoveSource(from, to, j) != MoveSource(from, to, k)
  {
  }

  lemma InsertAtMultiset<X>(s: seq<X>, i: nat, x: X)
    requires i <= |s|
    ensures multiset(InsertAt(s, i, x)) == multiset(s) + multiset{x}
  {
    assert s == s[..i] + s[i..];
  }

  lemma RemoveAtMultiset<X>(s: seq<X>, i: nat)
    requires i < |s|
    ensures multiset(RemoveAt(s, i)) == multiset(s) - multiset{s[i]}
  {
    assert s == s[..i] + [s[i]] + s[i + 1..];
  }

  // ---------------------------------------------------------------------
  // Views

  function Sections<S, T>(v: seq<Entry<S, T>>): (r: seq<S>)
    ensures |r| == |v|
    ensures forall k :: 0 <= k < |v| ==> r[k] == v[k].section
  {
    seq(|v|, k requires 0 <= k < |v| => v[k].section)
  }

  /** The idealised invariant: every binder knows its own position. */
  ghost predicate Indexed<S, T>(v: seq<Entry<S, T>>)
  {
    forall k :: 0 <= k < |v| ==> v[k].sectionIndex == k
  }

  /** Entries at positions `lo..<hi` get `sectionIndex + 1`. */
  function Shifted<S, T>(v: seq<Entry<S, T>>, lo: nat, hi: nat): (r: seq<Entry<S, T>>)
    requires lo <= hi <= |v|
    ensures |r| == |v|
    ensures forall k :: 0 <= k < |v| ==> r[k].section == v[k].section && r[k].items == v[k].items
    ensures forall k :: 0 <= k < |v| ==> r[k].sectionIndex == v[k].sectionIndex + (if lo <= k < hi then 1 else 0)
  {
    seq(|v|, k requires 0 <= k < |v| =>
      if lo <= k < hi then v[k].(sectionIndex := v[k].sectionIndex + 1) else v[k])
  }

  /** The view right after the reload branch: one fresh binder per section,
      bound at its own position, with no item list delivered yet. */
  function ReloadView<S, T>(list: seq<S>): (r: seq<Entry<S, T>>)
    ensures Sections(r) == list
    ensures Indexed(r)
    ensures forall k :: 0 <= k < |r| ==> r[k].items == None
  {
    seq(|list|, k requires 0 <= k < |list| => Entry(list[k], k, None))
  }

  // ---------------------------------------------------------------------
  // The incremental branch, as written

  /** When one change can be applied without a trap, given the binders held
      (`None` before the first reload) and the count `n` of the new list:
      insert reads `list[i]` and force-reads binders `i..<n`; move
      force-unwraps and removes at `from`, then inserts at `to`; delete on
      a missing array is a no-op, on a present one removes at `i`. */
  predicate EditApplicable<S, T>(v: Option<seq<Entry<S, T>>>, n: nat, c: Change): (ok: bool)
    ensures c.Reload? ==> ok
    ensures v.None? ==> (ok <==> c.Delete? || c.Reload?)
  {
    match c
    case Insert(i) => i < n && v.Some? && n <= |v.value|
    case Delete(i) => v.None? || i < |v.value|
    case Move(f, t) => v.Some? && f < |v.value| && t < |v.value|
    case Reload => true
  }

  /** The effect of one change on the view, as the update handler does it. */
  function ApplyEdit<S, T>(v: Option<seq<Entry<S, T>>>, list: seq<S>, c: Change): (r: Option<seq<Entry<S, T>>>)
    requires EditApplicable(v, |list|, c)
    ensures r.Some? <==> v.Some?
  {
    match c
    case Insert(i) => Some(InsertAt(Shifted(v.value, i, |list|), i, Entry(list[i], i, None)))
    case Delete(i) => if v.None? then None else Some(RemoveAt(v.value, i))
    case Move(f, t) => Some(InsertAt(RemoveAt(v.value, f), t, v.value[f].(sectionIndex := t)))
    case Reload => v
  }

  /** A whole batch applies without a trap. Before the first reload that is
      a batch of deletes and reloads only; a batch of reloads only always
      applies. */
  predicate BatchApplicable<S, T>(v: Option<seq<Entry<S, T>>>, list: seq<S>, cs: seq<Change>): (ok: bool)
    ensures v.None? ==> (ok <==> forall k :: 0 <= k < |cs| ==> cs[k].Delete? || cs[k].Reload?)
    ensures (forall k :: 0 <= k < |cs| ==> cs[k].Reload?) ==> ok
    decreases |cs|
  {
    cs == [] || (EditApplicable(v, |list|, cs[0]) && BatchApplicable(ApplyEdit(v, list, cs[0]), list, cs[1..]))
  }

  function ApplyEdits<S, T>(v: Option<seq<Entry<S, T>>>, list: seq<S>, cs: seq<Change>): (r: Option<seq<Entry<S, T>>>)
    requires BatchApplicable(v, list, cs)
    ensures r.Some? <==> v.Some?
    decreases |cs|
  {
    if cs == [] then v else ApplyEdits(ApplyEdit(v, list, cs[0]), list, cs[1..])
  }

  /** Applying a batch from position `k` is applying change `k` and then the
      rest. */
  lemma BatchStep<S, T>(v: Option<seq<Entry<S, T>>>, list: seq<S>, cs: seq<Change>, k: nat)
    requires k < |cs| && BatchApplicable(v, list, cs[k..])
    ensures EditApplicable(v, |list|, cs[k])
    ensures BatchApplicable(ApplyEdit(v, list, cs[k]), list, cs[k + 1..])
    ensures ApplyEdits(v, list, cs[k..]) == ApplyEdits(ApplyEdit(v, list, cs[k]), list, cs[k + 1..])
    ensures BatchLog(cs[k..]) == EditLog(cs[k]) + BatchLog(cs[k + 1..])
  {
    assert cs[k..][0] == cs[k] && cs[k..][1..] == cs[k + 1..];
  }

  /** The calls the collection view receives for one change. */
  function EditLog(c: Change): (r: seq<ConsumerCall>)
    ensures c.Reload? <==> r == []
  {
    match c
    case Insert(i) => [InsertSection(i)]
    case Delete(i) => [DeleteSection(i)]
    case Move(f, t) => [MoveSection(f, t)]
    case Reload => []
  }

  function BatchLog(cs: seq<Change>): (r: seq<ConsumerCall>)
    ensures Reload !in cs ==> |r| == |cs|
    decreases |cs|
  {
    if cs == [] then [] else EditLog(cs[0]) + BatchLog(cs[1..])
  }

  lemma {:induction false} BatchLogPrefix(cs: seq<Change>, k: nat)
    requires k < |cs|
    ensures BatchLog(cs[..k + 1]) == BatchLog(cs[..k]) + EditLog(cs[k])
    decreases k
  {
    if k > 0 {
      BatchLogPrefix(cs[1..], k - 1);
      assert cs[..k + 1][1..] == cs[1..][..k];
      assert cs[..k][1..] == cs[1..][..k - 1];
    }
  }

  /** A log holding the calls of the first `k` changes after `log` holds
      those of the first `k + 1` once change `k`'s calls are appended. */
  lemma LogExtended(log: seq<ConsumerCall>, cs: seq<Change>, k: nat)
    requires k < |cs|
    ensures (log + BatchLog(cs[..k])) + EditLog(cs[k]) == log + BatchLog(cs[..k + 1])
  {
    BatchLogPrefix(cs, k);
  }

  function CountInserts(cs: seq<Change>): nat
  {
    if cs == [] then 0 else (if cs[0].Insert? then 1 else 0) + CountInserts(cs[1..])
  }

  function CountDeletes(cs: seq<Change>): nat
  {
    if cs == [] then 0 else (if cs[0].Delete? then 1 else 0) + CountDeletes(cs[1..])
  }

  lemma {:induction false} CountDeletesPrefix(cs: seq<Change>, k: nat)
    requires k < |cs|
    ensures CountDeletes(cs[..k + 1]) == CountDeletes(cs[..k]) + (if cs[k].Delete? then 1 else 0)
    decreases k
  {
    if k > 0 {
      CountDeletesPrefix(cs[1..], k - 1);
      assert cs[..k + 1][1..] == cs[1..][..k];
      assert cs[..k][1..] == cs[1..][..k - 1];
    }
  }

  // ---------------------------------------------------------------------
  // What each change does to the view

  /** Insert places a binder for `list[i]` with index `i` at position `i`;
      the binders that were at positions `i..<|list|` move one place up and
      get `sectionIndex + 1`; binders beyond `|list|` move up but keep
      their index. Every binder keeps its section and its items. */
  lemma InsertEdit<S, T>(v: seq<Entry<S, T>>, list: seq<S>, i: nat)
    requires EditApplicable(Some(v), |list|, Insert(i))
    ensures var r := ApplyEdit(Some(v), list, Insert(i)).value;
      && |r| == |v| + 1
      && r[i] == Entry(list[i], i, None)
      && Sections(r) == InsertAt(Sections(v), i, list[i])
      && (forall k :: 0 <= k < |v| ==>
            r[if k < i then k else k + 1].sectionIndex == v[k].sectionIndex + (if i <= k < |list| then 1 else 0))
      && (forall k :: 0 <= k < |v| ==>
            r[if k < i then k else k + 1].section == v[k].section && r[if k < i then k else k + 1].items == v[k].items)
  {
    var w := Shifted(v, i, |list|);
    var r := InsertAt(w, i, Entry(list[i], i, None));
    assert ApplyEdit(Some(v), list, Insert(i)).value == r;
    var sections := InsertAt(Sections(v), i, list[i]);
    forall k | 0 <= k < |r| ensures Sections(r)[k] == sections[k] {
    }
    forall k | 0 <= k < |v|
      ensures r[if k < i then k else k + 1].sectionIndex == v[k].sectionIndex + (if i <= k < |list| then 1 else 0)
      ensures r[if k < i then k else k + 1].section == v[k].section && r[if k < i then k else k + 1].items == v[k].items
    {
      assert r[if k < i then k else k + 1] == w[k];
    }
  }

  /** Delete removes the binder at `i`; every other binder keeps its
      section, its index and its items. */
  lemma DeleteEdit<S, T>(v: seq<Entry<S, T>>, list: seq<S>, i: nat)
    requires i < |v|
    ensures var r := ApplyEdit(Some(v), list, Delete(i)).value;
      && Sections(r) == RemoveAt(Sections(v), i)
      && (forall k :: 0 <= k < |r| ==> r[k] == v[if k < i then k else k + 1])
  {
  }

  /** Move puts the moved binder at `to` with `sectionIndex == to`; the
      sections are a permutation of before; every other binder keeps its
      entry, relative order and index. */
  lemma MoveEdit<S, T>(v: seq<Entry<S, T>>, list: seq<S>, from: nat, to: nat)
    requires from < |v| && to < |v|
    ensures var r := ApplyEdit(Some(v), list, Move(from, to)).value;
      && |r| == |v|
      && r[to] == v[from].(sectionIndex := to)
      && multiset(Sections(r)) == multiset(Sections(v))
      && RemoveAt(r, to) == RemoveAt(v, from)
  {
    var rest := RemoveAt(v, from);
    var r := InsertAt(rest, to, v[from].(sectionIndex := to));
    assert ApplyEdit(Some(v), list, Move(from, to)).value == r;
    SectionsInsert(rest, to, v[from].(sectionIndex := to));
    SectionsRemove(v, from);
    InsertAtMultiset(Sections(rest), to, v[from].section);
    RemoveAtMultiset(Sections(v), from);
    RemoveInserted(rest, to, v[from].(sectionIndex := to));
  }

  /** The sections of a view with an entry inserted. */
  lemma SectionsInsert<S, T>(v: seq<Entry<S, T>>, i: nat, e: Entry<S, T>)
    requires i <= |v|
    ensures Sections(InsertAt(v, i, e)) == InsertAt(Sections(v), i, e.section)
  {
    var l, r := Sections(InsertAt(v, i, e)), InsertAt(Sections(v), i, e.section);
    forall k | 0 <= k < |l| ensures l[k] == r[k] {
    }
  }

  /** The sections of a view with an entry removed. */
  lemma SectionsRemove<S, T>(v: seq<Entry<S, T>>, i: nat)
    requires i < |v|
    ensures Sections(RemoveAt(v, i)) == RemoveAt(Sections(v), i)
  {
    var l, r := Sections(RemoveAt(v, i)), RemoveAt(Sections(v), i);
    forall k | 0 <= k < |l| ensures l[k] == r[k] {
    }
  }

  /** Removing what was just inserted gives back the original. */
  lemma RemoveInserted<X>(s: seq<X>, i: nat, x: X)
    requires i <= |s|
    ensures RemoveAt(InsertAt(s, i, x), i) == s
  {
    var l := RemoveAt(InsertAt(s, i, x), i);
    forall k | 0 <= k < |l| ensures l[k] == s[k] {
    }
  }

  /** After a batch, the number of binders is the old number plus the
      inserts minus the deletes. */
  lemma {:induction false} BatchLength<S, T>(v: seq<Entry<S, T>>, list: seq<S>, cs: seq<Change>)
    requires BatchApplicable(Some(v), list, cs)
    ensures |ApplyEdits(Some(v), list, cs).value| + CountDeletes(cs) == |v| + CountInserts(cs)
    decreases |cs|
  {
    if cs != [] {
      var w := ApplyEdit(Some(v), list, cs[0]).value;
      BatchLength(w, list, cs[1..]);
    }
  }

  /** A batch made only of reload entries changes nothing and reaches the
      consumer as nothing. */
  lemma {:induction false} ReloadsIgnored<S, T>(v: Option<seq<Entry<S, T>>>, list: seq<S>, cs: seq<Change>)
    requires forall k :: 0 <= k < |cs| ==> cs[k] == Reload
    ensures BatchApplicable(v, list, cs)
    ensures ApplyEdits(v, list, cs) == v
    ensures BatchLog(cs) == []
    decreases |cs|
  {
    if cs != [] {
      ReloadsIgnored(v, list, cs[1..]);
    }
  }

  // ---------------------------------------------------------------------
  // Subscription handles: what happens to them over a batch

  /** No element occurs twice. */
  ghost predicate Distinct<X>(s: seq<X>)
  {
    forall i, j :: 0 <= i < j < |s| ==> s[i] != s[j]
  }

  /** The handles held at the start of a stretch of edits together with
      those created since are, counted with multiplicity, the handles held
      now together with those released since. */
  ghost predicate Conserved<X>(before: seq<X>, created: seq<X>, after: seq<X>, released: seq<X>)
  {
    multiset(before) + multiset(created) == multiset(after) + multiset(released)
  }

  /** Binding a new handle at `i`. */
  lemma ConservedInsert<X>(before: seq<X>, created: seq<X>, after: seq<X>, released: seq<X>, i: nat, x: X)
    requires Conserved(before, created, after, released) && i <= |after|
    ensures Conserved(before, created + [x], InsertAt(after, i, x), released)
  {
    InsertAtMultiset(after, i, x);
    calc {
      multiset(before) + multiset(created + [x]);
      multiset(before) + multiset(created) + multiset{x};
      multiset(after) + multiset(released) + multiset{x};
      multiset(InsertAt(after, i, x)) + multiset(released);
    }
  }

  /** Unbinding the handle at `i` releases exactly that handle. */
  lemma ConservedDelete<X>(before: seq<X>, created: seq<X>, after: seq<X>, released: seq<X>, i: nat)
    requires Conserved(before, created, after, released) && i < |after|
    ensures Conserved(before, created, RemoveAt(after, i), released + [after[i]])
  {
    RemoveAtMultiset(after, i);
  }

  /** Moving a handle neither creates nor releases one. */
  lemma ConservedMove<X>(before: seq<X>, created: seq<X>, after: seq<X>, released: seq<X>, from: nat, to: nat)
    requires Conserved(before, created, after, released) && from < |after| && to < |after|
    ensures Conserved(before, created, InsertAt(RemoveAt(after, from), to, after[from]), released)
  {
    RemoveAtMultiset(after, from);
    InsertAtMultiset(RemoveAt(after, from), to, after[from]);
  }

  lemma {:induction false} DistinctCount<X>(s: seq<X>, x: X)
    requires Distinct(s)
    ensures multiset(s)[x] <= 1
    decreases |s|
  {
    if s != [] {
      assert s == [s[0]] + s[1..];
      DistinctCount(s[1..], x);
      if x == s[0] {
        assert x !in s[1..];
      }
    }
  }

  lemma RepeatCount<X>(s: seq<X>, i: nat, j: nat)
    requires i < j < |s| && s[i] == s[j]
    ensures multiset(s)[s[i]] >= 2
  {
    assert s == s[..j] + [s[j]] + s[j + 1..];
    assert s[..j][i] == s[i];
  }

  /** When no handle was held or created twice, conservation means every
      one of them is either still held or released, never both, and
      released at most once; nothing else is held or released. */
  lemma ReleasedOnce<X>(before: seq<X>, created: seq<X>, after: seq<X>, released: seq<X>)
    requires Conserved(before, created, after, released) && Distinct(before + created)
    ensures Distinct(released)
    ensures forall x :: x in released ==> (x in before || x in created) && x !in after
    ensures forall x :: x in after ==> x in before || x in created
    ensures forall x :: x in before && x !in after ==> x in released
  {
    assert multiset(before + created) == multiset(before) + multiset(created);
    forall x
      ensures multiset(after)[x] + multiset(released)[x] <= 1
      ensures multiset(after)[x] + multiset(released)[x] == multiset(before)[x] + multiset(created)[x]
    {
      DistinctCount(before + created, x);
    }
    forall x
      ensures x in released ==> (x in before || x in created) && x !in after
      ensures x in after ==> x in before || x in created
      ensures x in before && x !in after ==> x in released
    {
      assert x in before <==> multiset(before)[x] > 0;
      assert x in created <==> multiset(created)[x] > 0;
      assert x in after <==> multiset(after)[x] > 0;
      assert x in released <==> multiset(released)[x] > 0;
    }
    forall i, j | 0 <= i < j < |released| ensures released[i] != released[j] {
      if released[i] == released[j] {
        RepeatCount(released, i, j);
      }
    }
  }

  /** A handle that is neither held nor created yet keeps them distinct. */
  lemma DistinctAppend<X>(held: seq<X>, created: seq<X>, x: X)
    requires Distinct(held + created) && x !in held + created
    ensures Distinct(held + (created + [x]))
  {
    assert held + (created + [x]) == (held + created) + [x];
  }

  // ---------------------------------------------------------------------
  // Tracking the handles themselves over a batch

  /** The handles held after some changes, and those dropped so far, in
      the order they were dropped. */
  datatype Tracked<X> = Tracked(held: seq<X>, dropped: seq<X>)

  /** One more change to tracked handles, as the incremental branch does it
      to the binder and to the subscription array: insert places the one
      handle in `made` at `i`, delete drops the handle at `i`, move takes the
      handle at `from` out and puts it back at `to`, reload keeps them all.
      `None` when an index does not fit the handles (where the arrays trap)
      or `made` is not what the change creates. */
  function Next<X>(t: Tracked<X>, c: Change, made: seq<X>): (r: Option<Tracked<X>>)
    ensures r.Some? ==> |made| == (if c.Insert? then 1 else 0)
    ensures r.Some? ==> |r.value.held| == |t.held| + |made| - (if c.Delete? then 1 else 0)
    ensures r.Some? && c.Delete? ==> c.index < |t.held| && r.value.dropped == t.dropped + [t.held[c.index]]
    ensures r.Some? && !c.Delete? ==> r.value.dropped == t.dropped
  {
    match c
    case Insert(i) =>
      if i <= |t.held| && |made| == 1 then Some(Tracked(InsertAt(t.held, i, made[0]), t.dropped)) else None
    case Delete(i) =>
      if i < |t.held| && made == [] then Some(Tracked(RemoveAt(t.held, i), t.dropped + [t.held[i]])) else None
    case Move(from, to) =>
      if from < |t.held| && to < |t.held| && made == [] then Some(Tracked(InsertAt(RemoveAt(t.held, from), to, t.held[from]), t.dropped))
      else None
    case Reload => if made == [] then Some(t) else None
  }

  /** The handles after the changes `cs` in order, starting from `xs` held
      and nothing dropped, where `created` are the handles the inserts place,
      one per insert in order. `None` when some change does not fit. */
  function Track<X>(xs: seq<X>, cs: seq<Change>, created: seq<X>): (r: Option<Tracked<X>>)
    ensures r.Some? ==> |r.value.held| + |r.value.dropped| == |xs| + |created|
    decreases |cs|
  {
    if cs == [] then (if created == [] then Some(Tracked(xs, [])) else None)
    else
      var n := if cs[|cs| - 1].Insert? then 1 else 0;
      if |created| < n then None
      else match Track(xs, cs[..|cs| - 1], created[..|created| - n])
        case None => None
        case Some(t) => Next(t, cs[|cs| - 1], created[|created| - n..])
  }

  /** Extending a tracked batch by change `k`, which turned the handles
      `before` into `after`: an insert adds the handle it placed to
      `created`, a delete adds the handle it took out to the dropped ones
      (and to a log `logged` that precedes them). */
  lemma TrackNext<X>(xs: seq<X>, cs: seq<Change>, k: nat, created: seq<X>,
                     before: seq<X>, after: seq<X>, dropped: seq<X>, logged: seq<X>)
    requires k < |cs| && Track(xs, cs[..k], created) == Some(Tracked(before, dropped))
    requires cs[k].Insert? ==>
      cs[k].index < |after| && cs[k].index <= |before| && after == InsertAt(before, cs[k].index, after[cs[k].index])
    requires cs[k].Delete? ==> cs[k].index < |before| && after == RemoveAt(before, cs[k].index)
    requires cs[k].Move? ==>
      cs[k].from < |before| && cs[k].to < |before| && after == InsertAt(RemoveAt(before, cs[k].from), cs[k].to, before[cs[k].from])
    requires cs[k].Reload? ==> after == before
    ensures Track(xs, cs[..k + 1], if cs[k].Insert? then created + [after[cs[k].index]] else created)
         == Some(Tracked(after, if cs[k].Delete? then dropped + [before[cs[k].index]] else dropped))
    ensures cs[k].Delete? ==> (logged + dropped) + [before[cs[k].index]] == logged + (dropped + [before[cs[k].index]])
  {
    var made := if cs[k].Insert? then [after[cs[k].index]] else [];
    var grown := if cs[k].Insert? then created + made else created;
    assert cs[..k + 1][..k] == cs[..k] && cs[..k + 1][k] == cs[k];
    assert grown[..|grown| - |made|] == created && grown[|grown| - |made|..] == made;
    assert Track(xs, cs[..k + 1], grown) == Next(Tracked(before, dropped), cs[k], made);
  }

  /** Every handle held at the start or created is, counted with
      multiplicity, either held after the changes or dropped. */
  lemma {:induction false} TrackConserved<X>(xs: seq<X>, cs: seq<Change>, created: seq<X>)
    requires Track(xs, cs, created).Some?
    ensures Conserved(xs, created, Track(xs, cs, created).value.held, Track(xs, cs, created).value.dropped)
    decreases |cs|
  {
    if cs != [] {
      var c := cs[|cs| - 1];
      var n := if c.Insert? then 1 else 0;
      var before := created[..|created| - n];
      TrackConserved(xs, cs[..|cs| - 1], before);
      var t := Track(xs, cs[..|cs| - 1], before).value;
      match c
      case Insert(i) =>
        assert created == before + [created[|created| - 1]];
        ConservedInsert(xs, before, t.held, t.dropped, i, created[|created| - 1]);
      case Delete(i) =>
        assert before == created;
        ConservedDelete(xs, created, t.held, t.dropped, i);
      case Move(from, to) =>
        assert before == created;
        ConservedMove(xs, created, t.held, t.dropped, from, to);
      case Reload =>
        assert before == created;
    }
  }

  /** Exactly one handle is dropped per delete. */
  lemma {:induction false} TrackDeletes<X>(xs: seq<X>, cs: seq<Change>, created: seq<X>)
    requires Track(xs, cs, created).Some?
    ensures |Track(xs, cs, created).value.dropped| == CountDeletes(cs)
    decreases |cs|
  {
    if cs != [] {
      var n := if cs[|cs| - 1].Insert? then 1 else 0;
      TrackDeletes(xs, cs[..|cs| - 1], created[..|created| - n]);
      CountDeletesPrefix(cs, |cs| - 1);
      assert cs[..|cs| - 1 + 1] == cs;
    }
  }

  function Mapped<X, Y>(f: X -> Y, s: seq<X>): (r: seq<Y>)
    ensures |r| == |s| && forall k :: 0 <= k < |s| ==> r[k] == f(s[k])
  {
    seq(|s|, k requires 0 <= k < |s| => f(s[k]))
  }

  function MappedTracked<X, Y>(f: X -> Y, t: Tracked<X>): Tracked<Y>
  {
    Tracked(Mapped(f, t.held), Mapped(f, t.dropped))
  }

  /** Inserting commutes with taking images under `f`. */
  lemma MappedInsert<X, Y>(f: X -> Y, s: seq<X>, i: nat, x: X)
    requires i <= |s|
    ensures Mapped(f, InsertAt(s, i, x)) == InsertAt(Mapped(f, s), i, f(x))
  {
    var l, r := Mapped(f, InsertAt(s, i, x)), InsertAt(Mapped(f, s), i, f(x));
    forall k | 0 <= k < |l| ensures l[k] == r[k] {
    }
  }

  /** Removing commutes with taking images under `f`. */
  lemma MappedRemove<X, Y>(f: X -> Y, s: seq<X>, i: nat)
    requires i < |s|
    ensures Mapped(f, RemoveAt(s, i)) == RemoveAt(Mapped(f, s), i)
  {
    var l, r := Mapped(f, RemoveAt(s, i)), RemoveAt(Mapped(f, s), i);
    forall k | 0 <= k < |l| ensures l[k] == r[k] {
    }
  }

  /** One change commutes with taking images under `f`. */
  lemma NextMapped<X, Y>(f: X -> Y, t: Tracked<X>, c: Change, made: seq<X>)
    requires Next(t, c, made).Some?
    ensures Next(MappedTracked(f, t), c, Mapped(f, made)) == Some(MappedTracked(f, Next(t, c, made).value))
  {
    match c
    case Insert(i) =>
      MappedInsert(f, t.held, i, made[0]);
    case Delete(i) =>
      MappedRemove(f, t.held, i);
      assert Mapped(f, t.dropped + [t.held[i]]) == Mapped(f, t.dropped) + [f(t.held[i])];
    case Move(from, to) =>
      MappedRemove(f, t.held, from);
      MappedInsert(f, RemoveAt(t.held, from), to, t.held[from]);
    case Reload =>
  }

  /** Tracking the images of the handles under `f` (a subscription's
      binder, say) tracks the images of the handles. */
  lemma {:induction false} TrackMapped<X, Y>(f: X -> Y, xs: seq<X>, cs: seq<Change>, created: seq<X>)
    requires Track(xs, cs, created).Some?
    ensures Track(Mapped(f, xs), cs, Mapped(f, created)) == Some(MappedTracked(f, Track(xs, cs, created).value))
    decreases |cs|
  {
    if cs == [] {
      assert Mapped(f, created) == [];
    } else {
      var n := if cs[|cs| - 1].Insert? then 1 else 0;
      var before, made := created[..|created| - n], created[|created| - n..];
      TrackMapped(f, xs, cs[..|cs| - 1], before);
      assert Mapped(f, created)[..|created| - n] == Mapped(f, before);
      assert Mapped(f, created)[|created| - n..] == Mapped(f, made);
      NextMapped(f, Track(xs, cs[..|cs| - 1], before).value, cs[|cs| - 1], made);
    }
  }

  /** A whole batch, seen from a log of releases: when `log` is what was
      logged before the batch followed by what the batch dropped, the part
      of the log written during the batch holds one entry per delete, each
      handle at most once, each one held before or created during the batch
      and none still held; and every handle held before and not after is in
      that part. */
  lemma Settled<X>(held: seq<X>, cs: seq<Change>, created: seq<X>, after: seq<X>, logged: seq<X>, log: seq<X>)
    requires Distinct(held + created)
    requires Track(held, cs, created).Some? && Track(held, cs, created).value.held == after
    requires log == logged + Track(held, cs, created).value.dropped
    ensures log[|logged|..] == Track(held, cs, created).value.dropped
    ensures |log| == |logged| + CountDeletes(cs)
    ensures forall x :: x in after ==> x in held || x in created
    ensures forall x :: x in held && x !in after ==> x in log[|logged|..]
    ensures forall i :: |logged| <= i < |log| ==> log[i] !in after && (log[i] in held || log[i] in created)
    ensures forall i, j :: |logged| <= i < j < |log| ==> log[i] != log[j]
  {
    var released := Track(held, cs, created).value.dropped;
    assert log[|logged|..] == released;
    TrackConserved(held, cs, created);
    TrackDeletes(held, cs, created);
    ReleasedOnce(held, created, after, released);
    forall i | |logged| <= i < |log|
      ensures log[i] !in after && (log[i] in held || log[i] in created)
    {
      assert log[i] == released[i - |logged|];
    }
    forall i, j | |logged| <= i < j < |log| ensures log[i] != log[j] {
      assert log[i] == released[i - |logged|] && log[j] == released[j - |logged|];
    }
  }
}
