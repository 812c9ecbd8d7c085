/** The window of content views the sliding viewport keeps: which spine
    indices it holds for a given current index, the order the delegate's
    factory is asked for them, and how views already held are found again
    when the window moves (TriptychView.swift, the `Views` type and the
    body of `updateViews`). */
module Window {
  import opened Shared

  /** A content view, known by an id and tagged with the spine index and
      the edge it was made for. Ids are handed out in increasing order, so
      a view with an id not seen before is a new view. */
  datatype View = View(id: nat, spine: int, location: Location)

  /** One call of the delegate's factory: a view for `spine`, shown first
      at `location`. */
  datatype Request = Request(spine: int, location: Location)

  /** The views held: one, two, or the current one with its previous
      and/or next neighbour. */
  datatype Views =
    | One(view: View)
    | Two(firstView: View, secondView: View)
    | Many(currentView: View, otherViews: Disjunction<View, View>)
  {
    /** Number of views held. */
    function Count(): (n: nat)
      ensures 1 <= n <= 3
      ensures n == 1 <==> One?
      ensures n == 3 <==> Many? && otherViews.Both?
    {
      match this
      case One(_) => 1
      case Two(_, _) => 2
      case Many(_, others) => 1 + others.Count()
    }

    /** The views left to right as the scroll container lays them out:
        the previous view, then the current one, then the next one. */
    function Array(): (a: seq<View>)
      ensures |a| == Count()
      ensures One? ==> a == [view]
      ensures Many? ==> a[CurrentPage()] == currentView
      ensures Many? && !otherViews.Second? ==> a[0] == otherViews.first
      ensures Many? && !otherViews.First? ==> a[|a| - 1] == otherViews.second
      ensures Two? ==> a[0] == firstView && a[|a| - 1] == secondView
    {
      match this
      case One(v) => [v]
      case Two(f, s) => [f, s]
      case Many(c, others) =>
        match others
        case First(p) => [p, c]
        case Second(n) => [c, n]
        case Both(p, n) => [p, c, n]
    }

    /** Position of `currentView` in `Array()` when there is one. */
    function CurrentPage(): nat
      requires Many?
    {
      if otherViews.Second? then 0 else 1
    }
  }

  /** Spine indices of a row of views. */
  function Spines(vs: seq<View>): (s: seq<int>)
    ensures |s| == |vs|
    ensures forall k :: 0 <= k < |vs| ==> s[k] == vs[k].spine
  {
    if vs == [] then [] else [vs[0].spine] + Spines(vs[1..])
  }

  /** Ids of a row of views. */
  function Ids(vs: seq<View>): set<nat>
  {
    if vs == [] then {} else Ids(vs[..|vs| - 1]) + {vs[|vs| - 1].id}
  }

  /** The ids of a row of views are the ids of its members. */
  lemma {:induction false} IdsAreMembers(vs: seq<View>)
    ensures forall i :: i in Ids(vs) <==> exists v :: v in vs && v.id == i
  {
    if vs != [] {
      var init := vs[..|vs| - 1];
      IdsAreMembers(init);
      assert vs == init + [vs[|vs| - 1]];
    }
  }

  /** The spine indices held around `index`, left to right. */
  function WindowOf(viewCount: int, index: int): (w: seq<int>)
    requires 0 <= index < viewCount
    ensures forall j :: j in w <==> 0 <= j < viewCount && index - 1 <= j <= index + 1
    ensures forall k :: 0 <= k < |w| - 1 ==> w[k + 1] == w[k] + 1
  {
    if viewCount == 1 then [0]
    else if viewCount == 2 then [0, 1]
    else if index == 0 then [0, 1]
    else if index == viewCount - 1 then [index - 1, index]
    else [index - 1, index, index + 1]
  }

  /** The factory calls `updateViews` would make for `index` when nothing
      is held, in the order it makes them: the current view first, then the
      previous one, then the next one (for two spine items, the first item
      and then the second). */
  function Requests(viewCount: int, index: int): (r: seq<Request>)
    requires 0 <= index < viewCount
    ensures |r| == |WindowOf(viewCount, index)|
  {
    if viewCount == 1 then
      [Request(0, Beginning)]
    else if viewCount == 2 then
      if index == 0 then [Request(0, Beginning), Request(1, Beginning)]
      else [Request(0, End), Request(1, Beginning)]
    else if index == 0 then
      [Request(index, Beginning), Request(index + 1, Beginning)]
    else if index == viewCount - 1 then
      [Request(index, Beginning), Request(index - 1, End)]
    else
      [Request(index, Beginning), Request(index - 1, End), Request(index + 1, Beginning)]
  }

  /** The requests cover the window, one per spine index, the ones before
      `index` at `End` and the others at `Beginning`. For two spine items
      the first is asked for before the second; from three on, the current
      one is asked for first, and away from the edges the previous one
      before the next one. */
  lemma RequestsCoverWindow(viewCount: int, index: int)
    requires 0 <= index < viewCount
    ensures var r := Requests(viewCount, index);
            (forall k :: 0 <= k < |r| ==> r[k].spine in WindowOf(viewCount, index)) &&
            (forall k, l :: 0 <= k < l < |r| ==> r[k].spine != r[l].spine) &&
            (forall k :: 0 <= k < |r| ==>
               r[k].location == (if r[k].spine < index then End else Beginning)) &&
            (viewCount == 2 ==> r[0].spine == 0 && r[1].spine == 1) &&
            (viewCount >= 3 ==> r[0].spine == index) &&
            (viewCount >= 3 && 0 < index < viewCount - 1 ==>
               r[1].spine == index - 1 && r[2].spine == index + 1)
  {
  }

  /** The `Views` value assembled from the views obtained for
      `Requests(viewCount, index)`, in that order. */
  function Build(viewCount: int, index: int, made: seq<View>): (v: Views)
    requires 0 <= index < viewCount
    requires |made| == |Requests(viewCount, index)|
    ensures v.Count() == |made|
    ensures HasShape(v, viewCount, index)
  {
    if viewCount == 1 then One(made[0])
    else if viewCount == 2 then Two(made[0], made[1])
    else if index == 0 then Many(made[0], Second(made[1]))
    else if index == viewCount - 1 then Many(made[0], First(made[1]))
    else Many(made[0], Both(made[1], made[2]))
  }

  /** The case of `Views` that `updateViews` builds for `index`. */
  predicate HasShape(v: Views, viewCount: int, index: int)
  {
    match viewCount
    case 1 => v.One?
    case 2 => v.Two?
    case _ =>
      v.Many? &&
      if index == 0 then v.otherViews.Second?
      else if index == viewCount - 1 then v.otherViews.First?
      else v.otherViews.Both?
  }

  /** `v` is the window for `index`: the case `updateViews` builds for it,
      each view made for the spine index of its place. */
  predicate Matches(v: Views, viewCount: int, index: int)
  {
    0 <= index < viewCount &&
    match v
    case One(a) => viewCount == 1 && a.spine == 0
    case Two(a, b) => viewCount == 2 && a.spine == 0 && b.spine == 1
    case Many(c, others) =>
      viewCount >= 3 && c.spine == index &&
      match others
      case First(p) => index == viewCount - 1 && p.spine == index - 1
      case Second(n) => index == 0 && n.spine == index + 1
      case Both(p, n) => 0 < index < viewCount - 1 && p.spine == index - 1 && n.spine == index + 1
  }

  /** A matching window is exactly the right case holding, left to right,
      views for the spine indices of `WindowOf`. */
  lemma MatchesIsWindow(v: Views, viewCount: int, index: int)
    requires 0 <= index < viewCount
    ensures Matches(v, viewCount, index) <==>
            HasShape(v, viewCount, index) && Spines(v.Array()) == WindowOf(viewCount, index)
  {
    var a := v.Array();
    if HasShape(v, viewCount, index) && Spines(a) == WindowOf(viewCount, index) {
      assert forall k :: 0 <= k < |a| ==> a[k].spine == WindowOf(viewCount, index)[k];
    }
  }

  /** Every view of `v` was numbered below `n`. */
  predicate MadeBefore(v: Views, n: nat)
  {
    match v
    case One(a) => a.id < n
    case Two(a, b) => a.id < n && b.id < n
    case Many(c, others) =>
      c.id < n &&
      match others
      case First(p) => p.id < n
      case Second(q) => q.id < n
      case Both(p, q) => p.id < n && q.id < n
  }

  lemma MadeBeforeAll(v: Views, n: nat)
    ensures MadeBefore(v, n) <==> forall x :: x in v.Array() ==> x.id < n
  {
  }

  /** The `indexesToCurrentViews` dictionary: where the views held for the
      window around `previousIndex` sit, keyed by spine index. */
  function Held(v: Views, previousIndex: int): (h: map<int, View>)
    ensures v.Many? ==> previousIndex in h && h[previousIndex] == v.currentView
    ensures v.Many? ==> h.Keys <= {previousIndex - 1, previousIndex, previousIndex + 1}
    ensures !v.Many? ==> h.Keys <= {0, 1}
  {
    match v
    case One(view) => map[0 := view]
    case Two(f, s) => map[0 := f, 1 := s]
    case Many(c, others) =>
      match others
      case First(p) => map[previousIndex := c, previousIndex - 1 := p]
      case Second(n) => map[previousIndex := c, previousIndex + 1 := n]
      case Both(p, n) => map[previousIndex := c, previousIndex - 1 := p, previousIndex + 1 := n]
  }

  /** The dictionary consulted by `viewForIndex`: empty when there are no
      views yet or no previous index was given. */
  function HeldFor(views: Option<Views>, previousIndex: Option<int>): map<int, View>
  {
    if views.Some? && previousIndex.Some? then Held(views.value, previousIndex.value)
    else map[]
  }

  /** The requests of `reqs` whose spine index is not held, in order. */
  function Unheld(reqs: seq<Request>, held: map<int, View>): (r: seq<Request>)
    ensures |r| <= |reqs|
    ensures forall x :: x in r <==> x in reqs && x.spine !in held
  {
    if reqs == [] then []
    else if reqs[0].spine in held then Unheld(reqs[1..], held)
    else [reqs[0]] + Unheld(reqs[1..], held)
  }

  /** What a run of `viewForIndex` calls produces: the views, in call
      order; the factory requests it made; the next unused id. */
  datatype Materialized = Materialized(made: seq<View>, requested: seq<Request>, nextId: nat)

  /** Serve `reqs` in order: a held view for a held spine index, otherwise a
      new view from the factory, numbered from `nextId` on. */
  function Materialize(reqs: seq<Request>, held: map<int, View>, nextId: nat): (m: Materialized)
    ensures |m.made| == |reqs|
    ensures m.nextId == nextId + |m.requested|
    decreases |reqs|
  {
    if reqs == [] then Materialized([], [], nextId)
    else if reqs[0].spine in held then
      var rest := Materialize(reqs[1..], held, nextId);
      Materialized([held[reqs[0].spine]] + rest.made, rest.requested, rest.nextId)
    else
      var rest := Materialize(reqs[1..], held, nextId + 1);
      Materialized([View(nextId, reqs[0].spine, reqs[0].location)] + rest.made,
                   [reqs[0]] + rest.requested, rest.nextId)
  }

  /** Each request is served by the view held for its spine index, or
      else by a new view made for that spine index and location, numbered
      from `nextId` on. */
  lemma {:induction false} MaterializeServes(reqs: seq<Request>, held: map<int, View>, nextId: nat)
    ensures var m := Materialize(reqs, held, nextId);
            (forall k :: 0 <= k < |reqs| && reqs[k].spine in held ==>
               m.made[k] == held[reqs[k].spine]) &&
            (forall k :: 0 <= k < |reqs| && reqs[k].spine !in held ==>
               m.made[k].spine == reqs[k].spine && m.made[k].location == reqs[k].location &&
               nextId <= m.made[k].id < m.nextId)
    decreases |reqs|
  {
    if reqs != [] {
      var n1 := if reqs[0].spine in held then nextId else nextId + 1;
      MaterializeServes(reqs[1..], held, n1);
      var m := Materialize(reqs, held, nextId);
      var rest := Materialize(reqs[1..], held, n1);
      assert forall k :: 1 <= k < |reqs| ==> m.made[k] == rest.made[k - 1] && reqs[k] == reqs[1..][k - 1];
    }
  }

  /** The view `viewForIndex` gives for one request. */
  function Serve(r: Request, held: map<int, View>, nextId: nat): View
  {
    if r.spine in held then held[r.spine] else View(nextId, r.spine, r.location)
  }

  /** The next unused id after serving one request. */
  function Bump(r: Request, held: map<int, View>, nextId: nat): nat
  {
    if r.spine in held then nextId else nextId + 1
  }

  /** The factory call made for one request, if any. */
  function Asked(r: Request, held: map<int, View>): seq<Request>
  {
    if r.spine in held then [] else [r]
  }

  lemma AppendAssociates<T>(a: seq<T>, b: seq<T>, c: seq<T>)
    ensures a + b + c == a + (b + c)
  {
  }

  /** Filtering keeps the order of the requests: the unheld requests of
      two runs are those of the first followed by those of the second. */
  lemma {:induction false} UnheldAppend(a: seq<Request>, b: seq<Request>, held: map<int, View>)
    ensures Unheld(a + b, held) == Unheld(a, held) + Unheld(b, held)
    decreases |a|
  {
    if a == [] {
      assert a + b == b;
    } else {
      assert (a + b)[1..] == a[1..] + b;
      UnheldAppend(a[1..], b, held);
      if a[0].spine !in held {
        AppendAssociates([a[0]], Unheld(a[1..], held), Unheld(b, held));
      }
    }
  }

  /** Serving requests one by one, as the straight-line code of
      `updateViews` does, is serving them all. */
  lemma MaterializeOne(r0: Request, held: map<int, View>, n0: nat)
    ensures Materialize([r0], held, n0) ==
            Materialized([Serve(r0, held, n0)], Asked(r0, held), Bump(r0, held, n0))
  {
    assert [r0][1..] == [];
  }

  lemma MaterializeTwo(r0: Request, r1: Request, held: map<int, View>, n0: nat)
    ensures var n1 := Bump(r0, held, n0);
            Materialize([r0, r1], held, n0) ==
            Materialized([Serve(r0, held, n0), Serve(r1, held, n1)],
                         Asked(r0, held) + Asked(r1, held), Bump(r1, held, n1))
  {
    assert [r0, r1][1..] == [r1];
    MaterializeOne(r1, held, Bump(r0, held, n0));
  }

  lemma MaterializeThree(r0: Request, r1: Request, r2: Request, held: map<int, View>, n0: nat)
    ensures var n1 := Bump(r0, held, n0);
            var n2 := Bump(r1, held, n1);
            Materialize([r0, r1, r2], held, n0) ==
            Materialized([Serve(r0, held, n0), Serve(r1, held, n1), Serve(r2, held, n2)],
                         Asked(r0, held) + Asked(r1, held) + Asked(r2, held), Bump(r2, held, n2))
  {
    assert [r0, r1, r2][1..] == [r1, r2];
    MaterializeTwo(r1, r2, held, Bump(r0, held, n0));
  }

  /** The straight-line form of reconciliation, case by case: the views
      served one by one for the window's requests, in request order,
      assembled as `Build` assembles them. */
  function Served(viewCount: int, index: int, held: map<int, View>, n0: nat): (m: Materialized)
    requires 0 <= index < viewCount
  {
    var reqs := Requests(viewCount, index);
    var n1 := Bump(reqs[0], held, n0);
    if |reqs| == 1 then
      Materialized([Serve(reqs[0], held, n0)], Asked(reqs[0], held), n1)
    else
      var n2 := Bump(reqs[1], held, n1);
      if |reqs| == 2 then
        Materialized([Serve(reqs[0], held, n0), Serve(reqs[1], held, n1)],
                     Asked(reqs[0], held) + Asked(reqs[1], held), n2)
      else
        Materialized([Serve(reqs[0], held, n0), Serve(reqs[1], held, n1), Serve(reqs[2], held, n2)],
                     Asked(reqs[0], held) + Asked(reqs[1], held) + Asked(reqs[2], held),
                     Bump(reqs[2], held, n2))
  }

  /** Serving the window's requests one at a time is reconciling them. */
  lemma ServedIsMaterialized(viewCount: int, index: int, held: map<int, View>, n0: nat)
    requires 0 <= index < viewCount
    ensures Served(viewCount, index, held, n0) == Materialize(Requests(viewCount, index), held, n0)
  {
    var reqs := Requests(viewCount, index);
    if |reqs| == 1 {
      assert reqs == [reqs[0]];
      MaterializeOne(reqs[0], held, n0);
    } else if |reqs| == 2 {
      assert reqs == [reqs[0], reqs[1]];
      MaterializeTwo(reqs[0], reqs[1], held, n0);
    } else {
      assert reqs == [reqs[0], reqs[1], reqs[2]];
      MaterializeThree(reqs[0], reqs[1], reqs[2], held, n0);
    }
  }

  /** The factory is asked for exactly the requests whose spine index is
      not held, in their order. */
  lemma {:induction false} MaterializeAsksUnheld(reqs: seq<Request>, held: map<int, View>, nextId: nat)
    ensures Materialize(reqs, held, nextId).requested == Unheld(reqs, held)
    decreases |reqs|
  {
    if reqs != [] {
      MaterializeAsksUnheld(reqs[1..], held, if reqs[0].spine in held then nextId else nextId + 1);
    }
  }

  /** The `currentView` property: which held view is the current one. */
  function CurrentViewOf(views: Option<Views>, index: int, viewCount: int): (r: Option<View>)
    ensures r.Some? <==> views.Some?
    ensures r.Some? ==> r.value in views.value.Array()
  {
    match views
    case None => None
    case Some(v) =>
      match v
      case One(a) => Some(a)
      case Two(a, b) => Some(if index == 0 then a else b)
      case Many(a, others) =>
        match others
        case First(b) => Some(if index == 0 || index == viewCount - 1 then a else b)
        case Both(_, _) => Some(a)
        case Second(b) => Some(if index == viewCount - 1 then b else a)
  }

  /** `isAtAnEdge`: the first or the last spine index. */
  predicate IsAtAnEdge(index: int, viewCount: int)
  {
    index == 0 || index == viewCount - 1
  }

  /** Views obtained for `Requests(viewCount, index)`, each made for the
      spine index it was asked for, assemble into the window for `index`;
      the assembled window holds exactly the views obtained. */
  lemma BuildMatches(viewCount: int, index: int, made: seq<View>)
    requires 0 <= index < viewCount
    requires |made| == |Requests(viewCount, index)|
    requires forall k :: 0 <= k < |made| ==> made[k].spine == Requests(viewCount, index)[k].spine
    ensures Matches(Build(viewCount, index, made), viewCount, index)
    ensures forall x :: x in Build(viewCount, index, made).Array() <==> x in made
  {
    var w := Build(viewCount, index, made).Array();
    assert Spines(w) == WindowOf(viewCount, index);
  }

  /** The dictionary built from the window around `previousIndex` holds
      exactly that window's spine indices, each keyed to the view made for
      it, and nothing but the views held. */
  lemma HeldIsWindow(v: Views, viewCount: int, previousIndex: int)
    requires Matches(v, viewCount, previousIndex)
    ensures forall j :: j in Held(v, previousIndex) <==> j in WindowOf(viewCount, previousIndex)
    ensures forall j :: j in Held(v, previousIndex) ==>
              Held(v, previousIndex)[j].spine == j && Held(v, previousIndex)[j] in v.Array()
  {
    var a := v.Array();
    assert forall k :: 0 <= k < |a| ==> a[k].spine == WindowOf(viewCount, previousIndex)[k];
  }

  /** With nothing held every view comes from the factory, in request
      order, numbered consecutively from `nextId`. */
  lemma {:induction false} NothingHeldAllNew(reqs: seq<Request>, nextId: nat)
    ensures Materialize(reqs, map[], nextId).requested == reqs
    ensures forall k :: 0 <= k < |reqs| ==>
              Materialize(reqs, map[], nextId).made[k] == View(nextId + k, reqs[k].spine, reqs[k].location)
    decreases |reqs|
  {
    if reqs != [] {
      NothingHeldAllNew(reqs[1..], nextId + 1);
      var rest := Materialize(reqs[1..], map[], nextId + 1);
      var m := Materialize(reqs, map[], nextId);
      assert m.made == [View(nextId, reqs[0].spine, reqs[0].location)] + rest.made;
      forall k | 1 <= k < |reqs|
        ensures m.made[k] == View(nextId + k, reqs[k].spine, reqs[k].location)
      {
        assert m.made[k] == rest.made[k - 1];
        assert reqs[k] == reqs[1..][k - 1];
      }
    }
  }

  /** The view a matching window holds for spine index `j`. */
  function ViewAtSpine(v: Views, viewCount: int, index: int, j: int): (x: View)
    requires Matches(v, viewCount, index)
    requires j in WindowOf(viewCount, index)
    ensures x in v.Array() && x.spine == j
  {
    var w := WindowOf(viewCount, index);
    assert forall k :: 0 <= k < |w| ==> w[k] == w[0] + k;
    assert Spines(v.Array())[j - w[0]] == j;
    v.Array()[j - w[0]]
  }

  /** The window for `index` after reconciling `v`, held for
      `previousIndex`, with new views numbered from `nextId`. */
  function Reconciled(v: Views, viewCount: int, previousIndex: int, index: int, nextId: nat): Views
    requires 0 <= index < viewCount
  {
    Build(viewCount, index, Materialize(Requests(viewCount, index), Held(v, previousIndex), nextId).made)
  }

  /** Moving the window from `previousIndex` to `index` (reconciliation
      with a previous index): the result is the window for `index`; for a
      spine index already in the old window it holds the very view held
      before; every other view is new, made for its spine index at
      `Beginning` when it lies at or after `index` and at `End` before it;
      and the factory is asked exactly for the spine indices not held
      before. */
  lemma Reconcile(v: Views, viewCount: int, previousIndex: int, index: int, nextId: nat)
    requires Matches(v, viewCount, previousIndex)
    requires 0 <= index < viewCount
    ensures Matches(Reconciled(v, viewCount, previousIndex, index, nextId), viewCount, index)
    ensures forall j :: j in WindowOf(viewCount, index) && j in WindowOf(viewCount, previousIndex) ==>
              ViewAtSpine(Reconciled(v, viewCount, previousIndex, index, nextId), viewCount, index, j)
              == ViewAtSpine(v, viewCount, previousIndex, j)
    ensures forall j :: j in WindowOf(viewCount, index) && j !in WindowOf(viewCount, previousIndex) ==>
              var x := ViewAtSpine(Reconciled(v, viewCount, previousIndex, index, nextId), viewCount, index, j);
              nextId <= x.id && x.location == (if j < index then End else Beginning)
    ensures forall r :: r in Materialize(Requests(viewCount, index), Held(v, previousIndex), nextId).requested
              <==> r in Requests(viewCount, index) && r.spine !in WindowOf(viewCount, previousIndex)
  {
    var reqs := Requests(viewCount, index);
    var held := Held(v, previousIndex);
    var m := Materialize(reqs, held, nextId);
    var nv := Reconciled(v, viewCount, previousIndex, index, nextId);
    RequestsCoverWindow(viewCount, index);
    HeldIsWindow(v, viewCount, previousIndex);
    MaterializeServes(reqs, held, nextId);
    BuildMatches(viewCount, index, m.made);
    MaterializeAsksUnheld(reqs, held, nextId);
    forall j | j in WindowOf(viewCount, index)
      ensures j in WindowOf(viewCount, previousIndex) ==>
                ViewAtSpine(nv, viewCount, index, j) == ViewAtSpine(v, viewCount, previousIndex, j)
      ensures j !in WindowOf(viewCount, previousIndex) ==>
                nextId <= ViewAtSpine(nv, viewCount, index, j).id &&
                ViewAtSpine(nv, viewCount, index, j).location == (if j < index then End else Beginning)
    {
      var x := ViewAtSpine(nv, viewCount, index, j);
      var k :| 0 <= k < |m.made| && m.made[k] == x;
      assert reqs[k].spine == j;
      if j in WindowOf(viewCount, previousIndex) {
        ViewForSpineIsUnique(v, viewCount, previousIndex, x, ViewAtSpine(v, viewCount, previousIndex, j));
      }
    }
  }

  /** Reconciliation with no previous index (or no views yet) asks the
      factory for every view of the window. */
  lemma ReconcileFromScratch(viewCount: int, index: int, nextId: nat)
    requires 0 <= index < viewCount
    ensures var m := Materialize(Requests(viewCount, index), HeldFor(None, None), nextId);
            Matches(Build(viewCount, index, m.made), viewCount, index) &&
            m.requested == Requests(viewCount, index)
  {
    var reqs := Requests(viewCount, index);
    NothingHeldAllNew(reqs, nextId);
    BuildMatches(viewCount, index, Materialize(reqs, map[], nextId).made);
  }

  /** The current view is the view made for `index`, and it sits at page
      `min(1, index)` of the container, the page `layoutSubviews` scrolls
      to. */
  lemma CurrentViewIsShownPage(v: Views, viewCount: int, index: int)
    requires Matches(v, viewCount, index)
    ensures CurrentViewOf(Some(v), index, viewCount) == Some(v.Array()[Min(1, index)])
    ensures v.Array()[Min(1, index)].spine == index
  {
    assert Spines(v.Array())[Min(1, index)] == WindowOf(viewCount, index)[Min(1, index)];
  }

  /** Three views are held exactly when `index` is not at an edge. */
  lemma ThreeViewsAwayFromEdges(v: Views, viewCount: int, index: int)
    requires Matches(v, viewCount, index)
    ensures v.Count() == 3 <==> !IsAtAnEdge(index, viewCount)
  {
  }

  /** One step forward asks the factory for one view at most: the one
      that enters the window on the right, at `Beginning`. */
  lemma StepForwardAsksOne(v: Views, viewCount: int, previousIndex: int, nextId: nat)
    requires Matches(v, viewCount, previousIndex)
    requires previousIndex + 1 < viewCount
    ensures Materialize(Requests(viewCount, previousIndex + 1), Held(v, previousIndex), nextId).requested
            == if viewCount >= 3 && previousIndex + 2 < viewCount
               then [Request(previousIndex + 2, Beginning)] else []
  {
    var index := previousIndex + 1;
    var reqs := Requests(viewCount, index);
    var held := Held(v, previousIndex);
    HeldIsWindow(v, viewCount, previousIndex);
    MaterializeAsksUnheld(reqs, held, nextId);
    UnheldOfWindow(viewCount, previousIndex, index, held);
  }

  /** One step backward asks the factory for one view at most: the one
      that enters the window on the left, at `End`. */
  lemma StepBackwardAsksOne(v: Views, viewCount: int, previousIndex: int, nextId: nat)
    requires Matches(v, viewCount, previousIndex)
    requires previousIndex >= 1
    ensures Materialize(Requests(viewCount, previousIndex - 1), Held(v, previousIndex), nextId).requested
            == if viewCount >= 3 && previousIndex >= 2
               then [Request(previousIndex - 2, End)] else []
  {
    var index := previousIndex - 1;
    var reqs := Requests(viewCount, index);
    var held := Held(v, previousIndex);
    HeldIsWindow(v, viewCount, previousIndex);
    MaterializeAsksUnheld(reqs, held, nextId);
    UnheldOfWindow(viewCount, previousIndex, index, held);
  }

  /** The requests for a window next to the previous one that are not
      held are those for the one spine index that enters it. */
  lemma UnheldOfWindow(viewCount: int, previousIndex: int, index: int, held: map<int, View>)
    requires 0 <= previousIndex < viewCount && 0 <= index < viewCount
    requires index == previousIndex + 1 || index == previousIndex - 1
    requires forall j :: j in held <==> j in WindowOf(viewCount, previousIndex)
    ensures Unheld(Requests(viewCount, index), held)
            == if viewCount < 3 then []
               else if index == previousIndex + 1 && index + 1 < viewCount then [Request(index + 1, Beginning)]
               else if index == previousIndex - 1 && index >= 1 then [Request(index - 1, End)]
               else []
  {
    var reqs := Requests(viewCount, index);
    RequestsCoverWindow(viewCount, index);
    assert reqs[0].spine in held;
    assert Unheld(reqs, held) == Unheld(reqs[1..], held);
    if viewCount < 3 {
      assert reqs[1].spine in held;
      assert Unheld(reqs[1..], held) == Unheld(reqs[2..], held);
      assert reqs[2..] == [];
    } else if |reqs| == 2 {
      var b := reqs[1];
      assert reqs[1..] == [b];
      assert [b][1..] == [];
      if index == previousIndex + 1 {
        assert b.spine !in held <==> index + 1 < viewCount;
      }
    } else {
      var b, c := reqs[1], reqs[2];
      assert reqs[1..] == [b, c];
      assert [b, c][1..] == [c] && [c][1..] == [];
      if index == previousIndex + 1 {
        assert b.spine in held && c.spine !in held;
        assert Unheld([b, c], held) == [c];
      } else {
        assert b.spine !in held && c.spine in held;
        assert Unheld([b, c], held) == [b];
      }
    }
  }

  /** Going one step forward and back again keeps the current view: the
      view shown for `index` afterwards is the very view shown before. */
  lemma ForwardAndBackKeepsCurrent(v: Views, viewCount: int, index: int, nextId: nat)
    requires Matches(v, viewCount, index)
    requires index + 1 < viewCount
    ensures var v1 := Reconciled(v, viewCount, index, index + 1, nextId);
            var afterId := Materialize(Requests(viewCount, index + 1), Held(v, index), nextId).nextId;
            CurrentViewOf(Some(Reconciled(v1, viewCount, index + 1, index, afterId)), index, viewCount)
              == CurrentViewOf(Some(v), index, viewCount)
  {
  }

  /** The current view is the view the window holds for `index`. */
  lemma CurrentIsViewAtSpine(v: Views, viewCount: int, index: int)
    requires Matches(v, viewCount, index)
    ensures index in WindowOf(viewCount, index)
    ensures CurrentViewOf(Some(v), index, viewCount) == Some(ViewAtSpine(v, viewCount, index, index))
  {
    CurrentViewIsShownPage(v, viewCount, index);
    ViewForSpineIsUnique(v, viewCount, index, v.Array()[Min(1, index)], ViewAtSpine(v, viewCount, index, index));
  }

  /** A window holds one view per spine index. */
  lemma ViewForSpineIsUnique(v: Views, viewCount: int, index: int, x: View, y: View)
    requires Matches(v, viewCount, index)
    requires x in v.Array() && y in v.Array() && x.spine == y.spine
    ensures x == y
  {
    var a := v.Array();
    var i :| 0 <= i < |a| && a[i] == x;
    var j :| 0 <= j < |a| && a[j] == y;
    assert Spines(a)[i] == Spines(a)[j];
  }
}
