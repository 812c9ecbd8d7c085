/** The sliding viewport (TriptychView.swift): a horizontally paging
    scroll container holding the views of the previous, current and next
    spine items. The delegate's factory, the container's subviews, the
    message handlers of the content views and the commands sent to them are
    kept as plain state: a log of factory requests, the row of views in the
    container, the ids of the views that listen for taps, and a log of
    commands. The offset and the page width are whole points. */
module Triptych {
  import opened Shared
  import opened Window
  import opened Scrolling

  /** What the viewport asks of a content view in `moveTo`. What the
      content view does with it is not part of this model. */
  datatype ViewCommand =
    | ScrollAtLocation(target: View, location: Location)
    | ScrollAtTag(target: View, tagId: string)
    | OverrideInitialPosition(target: View, position: real)
    | SetInitialId(target: View, tagId: string)

  /** The views in the container for `views`, left to right. */
  function Shown(views: Option<Views>): seq<View>
  {
    if views.Some? then views.value.Array() else []
  }

  /** Commands for a same-index `moveTo`: the current view scrolls to its
      beginning for the empty id, to the tag otherwise. */
  function SameIndexCommands(current: View, id: Option<string>): seq<ViewCommand>
  {
    match id
    case None => []
    case Some(t) => if t == "" then [ScrollAtLocation(current, Beginning)] else [ScrollAtTag(current, t)]
  }

  /** Commands for the view arriving at the centre in `moveTo`: it is told
      to open at position 0.0 for the empty id, at the tag otherwise. */
  function ArrivalCommands(current: View, id: Option<string>): seq<ViewCommand>
  {
    match id
    case None => []
    case Some(t) => if t == "" then [OverrideInitialPosition(current, 0.0)] else [SetInitialId(current, t)]
  }

  /** The page a settled drag rests on is in the window, and the new index
      is the spine index of the view on that page: the index follows what
      the user sees, and stays within the spine. */
  lemma SettleFollowsPage(v: Views, viewCount: int, index: int, offset: int, width: int)
    requires Matches(v, viewCount, index)
    requires width > 0 && 0 <= offset <= (v.Count() - 1) * width
    ensures 0 <= PageOffset(offset, width) < v.Count()
    ensures SettledIndex(index, PageOffset(offset, width)) == v.Array()[PageOffset(offset, width)].spine
    ensures 0 <= SettledIndex(index, PageOffset(offset, width)) < viewCount
  {
    RoundDivInRange(offset, width, v.Count());
    var page := PageOffset(offset, width);
    assert Spines(v.Array())[page] == WindowOf(viewCount, index)[page];
  }

  /** The page `layoutSubviews` scrolls to, `min(1, index)` widths in,
      shows the current view. */
  lemma LayoutShowsCurrent(v: Views, viewCount: int, index: int, width: int)
    requires Matches(v, viewCount, index) && width > 0
    ensures PageOffset(width * Min(1, index), width) == Min(1, index) < v.Count()
    ensures CurrentViewOf(Some(v), index, viewCount) == Some(v.Array()[Min(1, index)])
    ensures v.Array()[Min(1, index)].spine == index
  {
    RoundDivExact(Min(1, index), width);
    assert width * Min(1, index) == Min(1, index) * width;
    CurrentViewIsShownPage(v, viewCount, index);
  }

  /** Reconciling from any held views (none, or the window around the
      previous index) gives the window for `index`, and every view in it has
      an id below the next unused one. */
  lemma RebuildIsWindow(previousViews: Option<Views>, previousIndex: Option<int>, viewCount: int, index: int, nextId: nat)
    requires 0 <= index < viewCount
    requires previousViews.Some? && previousIndex.Some? ==>
               Matches(previousViews.value, viewCount, previousIndex.value) && MadeBefore(previousViews.value, nextId)
    ensures var m := Materialize(Requests(viewCount, index), HeldFor(previousViews, previousIndex), nextId);
            Matches(Build(viewCount, index, m.made), viewCount, index) &&
            MadeBefore(Build(viewCount, index, m.made), m.nextId)
  {
    var reqs := Requests(viewCount, index);
    var held := HeldFor(previousViews, previousIndex);
    var m := Materialize(reqs, held, nextId);
    if previousViews.Some? && previousIndex.Some? {
      HeldIsWindow(previousViews.value, viewCount, previousIndex.value);
      MadeBeforeAll(previousViews.value, nextId);
    }
    RequestsCoverWindow(viewCount, index);
    MaterializeServes(reqs, held, nextId);
    BuildMatches(viewCount, index, m.made);
    forall x | x in Build(viewCount, index, m.made).Array() ensures x.id < m.nextId {
      var k :| 0 <= k < |m.made| && m.made[k] == x;
    }
    MadeBeforeAll(Build(viewCount, index, m.made), m.nextId);
  }

  class TriptychView {
    /** Number of spine items. */
    const viewCount: int
    /** Width of a page (the viewport's frame). */
    const width: int
    /** The current spine index. */
    var index: int
    var views: Option<Views>
    var clamping: Clamping
    /** The container's horizontal content offset. */
    var offset: int
    /** The container's content width. */
    var contentWidth: int
    /** Whether a delegate has been set. */
    var hasDelegate: bool
    /** Every call of the delegate's factory, in order. */
    var factoryLog: seq<Request>
    /** The id the next new view gets. */
    var nextId: nat
    /** The container's subviews, left to right. */
    var subviews: seq<View>
    /** Ids of the views whose message handlers are registered. */
    var listening: set<nat>
    /** Every command sent to a content view, in order. */
    var commands: seq<ViewCommand>

    /** The invariant apart from the agreement of `views` with `index`. */
    ghost predicate Frame()
      reads this`index, this`views, this`hasDelegate, this`subviews, this`listening
    {
      viewCount >= 1 && width > 0 && 0 <= index < viewCount &&
      (views.Some? ==> hasDelegate) &&
      subviews == Shown(views) && listening == Ids(subviews)
    }

    /** The views held are the window around `i`, and all are numbered
        below `nextId`. */
    ghost predicate HeldAround(i: int)
      reads this`views, this`nextId
    {
      views.Some? ==>
        Matches(views.value, viewCount, i) && MadeBefore(views.value, nextId)
    }

    ghost predicate Valid()
      reads this`index, this`views, this`hasDelegate, this`subviews, this`listening, this`nextId
    {
      Frame() && HeldAround(index)
    }

    /** The view for the current index (`currentView`). */
    function CurrentView(): Option<View>
      reads this`views, this`index
    {
      CurrentViewOf(views, index, viewCount)
    }

    /** Number of pages in the container: one per view, or one page the
        size of the viewport when there are none. */
    function Pages(): nat
      reads this`views
    {
      if views.Some? then views.value.Count() else 1
    }

    /** `init(frame:viewCount:initialIndex:)`: at least one spine item and
        an initial index within them. */
    constructor (width: int, viewCount: int, initialIndex: int)
      requires width > 0
      requires viewCount >= 1
      requires 0 <= initialIndex < viewCount
      ensures Valid()
      ensures this.width == width && this.viewCount == viewCount && index == initialIndex
      ensures views == None && clamping == NoClamp && !hasDelegate
      ensures offset == 0 && contentWidth == 0 && nextId == 0
      ensures factoryLog == [] && subviews == [] && listening == {} && commands == []
    {
      this.width := width;
      this.viewCount := viewCount;
      index := initialIndex;
      views := None;
      clamping := NoClamp;
      offset := 0;
      contentWidth := 0;
      hasDelegate := false;
      factoryLog := [];
      nextId := 0;
      subviews := [];
      listening := {};
      commands := [];
    }

    /** Setting the delegate (`delegate.didSet`) rebuilds every view from
        the factory. */
    method SetDelegate()
      requires Valid()
      modifies this`hasDelegate, this`views, this`factoryLog, this`nextId, this`subviews, this`listening
      ensures Valid() && hasDelegate
      ensures views == Some(Build(viewCount, index, Materialize(Requests(viewCount, index), map[], old(nextId)).made))
      ensures factoryLog == old(factoryLog) + Requests(viewCount, index)
      ensures nextId == old(nextId) + |Requests(viewCount, index)|
    {
      hasDelegate := true;
      assert HeldFor(views, None) == HeldFor(None, None) == map[];
      ReconcileFromScratch(viewCount, index, nextId);
      UpdateViews(None);
    }

    /** The delegate's factory: a new view for spine index `j`, shown first
        at `location`. */
    method MakeView(j: int, location: Location) returns (v: View)
      modifies this`factoryLog, this`nextId
      ensures v == View(old(nextId), j, location)
      ensures factoryLog == old(factoryLog) + [Request(j, location)]
      ensures nextId == old(nextId) + 1
    {
      v := View(nextId, j, location);
      factoryLog := factoryLog + [Request(j, location)];
      nextId := nextId + 1;
    }

    /** `viewForIndex`: the view already held for `j` when there are views
        and a previous index, otherwise a new one from the factory. */
    method ViewForIndex(j: int, location: Location, previousIndex: Option<int>) returns (v: View)
      modifies this`factoryLog, this`nextId
      ensures var held := HeldFor(views, previousIndex);
              v == Serve(Request(j, location), held, old(nextId)) &&
              factoryLog == old(factoryLog) + Asked(Request(j, location), held) &&
              nextId == Bump(Request(j, location), held, old(nextId))
    {
      if views.None? || previousIndex.None? {
        v := MakeView(j, location);
        return;
      }
      var indexesToCurrentViews := Held(views.value, previousIndex.value);
      if j in indexesToCurrentViews {
        return indexesToCurrentViews[j];
      }
      v := MakeView(j, location);
    }

    /** `updateViews(previousIndex:)`: nothing happens when the previous
        index is the current one or there is no delegate; otherwise the
        window for `index` is rebuilt, reusing the views held for the
        window around the previous index, and the container synced. */
    method UpdateViews(previousIndex: Option<int>)
      requires Frame()
      requires HeldAround(if previousIndex.Some? then previousIndex.value else index)
      modifies this`views, this`factoryLog, this`nextId, this`subviews, this`listening
      ensures Valid()
      ensures previousIndex == Some(index) || !hasDelegate ==>
                views == old(views) && factoryLog == old(factoryLog) && nextId == old(nextId) &&
                subviews == old(subviews) && listening == old(listening)
      ensures previousIndex != Some(index) && hasDelegate ==>
                var m := Materialize(Requests(viewCount, index), HeldFor(old(views), previousIndex), old(nextId));
                views == Some(Build(viewCount, index, m.made)) &&
                factoryLog == old(factoryLog) + m.requested && nextId == m.nextId
    {
      if previousIndex == Some(index) {
        return;
      }
      if !hasDelegate {
        return;
      }
      Rebuild(previousIndex);
    }

    /** The part of `updateViews` past its early returns. */
    method Rebuild(previousIndex: Option<int>)
      requires Frame() && hasDelegate
      requires HeldAround(if previousIndex.Some? then previousIndex.value else index)
      modifies this`views, this`factoryLog, this`nextId, this`subviews, this`listening
      ensures Valid()
      ensures var m := Materialize(Requests(viewCount, index), HeldFor(old(views), previousIndex), old(nextId));
              views == Some(Build(viewCount, index, m.made)) &&
              factoryLog == old(factoryLog) + m.requested && nextId == m.nextId
    {
      RebuildIsWindow(views, previousIndex, viewCount, index, nextId);
      ServedIsMaterialized(viewCount, index, HeldFor(views, previousIndex), nextId);
      var v := ViewsFor(previousIndex);
      views := Some(v);
      ghost var before := listening;
      assert before - Ids(subviews) == {};
      SyncSubviews();
    }

    /** The switch in `updateViews` on the number of spine items and the
        position of the index: the new views, left to right, asking for the
        current view first, then the previous, then the next. */
    method ViewsFor(previousIndex: Option<int>) returns (v: Views)
      requires viewCount >= 1 && 0 <= index < viewCount
      modifies this`factoryLog, this`nextId
      ensures var m := Served(viewCount, index, HeldFor(views, previousIndex), old(nextId));
              v == Build(viewCount, index, m.made) &&
              factoryLog == old(factoryLog) + m.requested && nextId == m.nextId
    {
      ghost var held := HeldFor(views, previousIndex);
      ghost var n0 := nextId;
      if viewCount == 1 {
        var view := ViewForIndex(0, Beginning, previousIndex);
        v := One(view);
        assert Requests(viewCount, index) == [Request(0, Beginning)];
      } else if viewCount == 2 {
        if index == 0 {
          var firstView := ViewForIndex(0, Beginning, previousIndex);
          var secondView := ViewForIndex(1, Beginning, previousIndex);
          v := Two(firstView, secondView);
          assert Requests(viewCount, index) == [Request(0, Beginning), Request(1, Beginning)];
        } else {
          var firstView := ViewForIndex(0, End, previousIndex);
          var secondView := ViewForIndex(1, Beginning, previousIndex);
          v := Two(firstView, secondView);
          assert Requests(viewCount, index) == [Request(0, End), Request(1, Beginning)];
        }
      } else {
        v := ManyViewsFor(previousIndex);
      }
    }

    /** The three-or-more case of `updateViews`: the current view, then
        the previous one unless the index is the first, then the next one
        unless the index is the last. */
    method ManyViewsFor(previousIndex: Option<int>) returns (v: Views)
      requires viewCount >= 3 && 0 <= index < viewCount
      modifies this`factoryLog, this`nextId
      ensures var m := Served(viewCount, index, HeldFor(views, previousIndex), old(nextId));
              v == Build(viewCount, index, m.made) &&
              factoryLog == old(factoryLog) + m.requested && nextId == m.nextId
    {
      ghost var held := HeldFor(views, previousIndex);
      ghost var log0 := factoryLog;
      var currentView := ViewForIndex(index, Beginning, previousIndex);
      ghost var asked := Asked(Request(index, Beginning), held);
      if index == 0 {
        var nextView := ViewForIndex(index + 1, Beginning, previousIndex);
        v := Many(currentView, Second(nextView));
        assert Requests(viewCount, index) == [Request(index, Beginning), Request(index + 1, Beginning)];
        AppendAssociates(log0, asked, Asked(Request(index + 1, Beginning), held));
      } else if index == viewCount - 1 {
        var previousView := ViewForIndex(index - 1, End, previousIndex);
        v := Many(currentView, First(previousView));
        assert Requests(viewCount, index) == [Request(index, Beginning), Request(index - 1, End)];
        AppendAssociates(log0, asked, Asked(Request(index - 1, End), held));
      } else {
        var previousView := ViewForIndex(index - 1, End, previousIndex);
        AppendAssociates(log0, asked, Asked(Request(index - 1, End), held));
        asked := asked + Asked(Request(index - 1, End), held);
        var nextView := ViewForIndex(index + 1, Beginning, previousIndex);
        AppendAssociates(log0, asked, Asked(Request(index + 1, Beginning), held));
        v := Many(currentView, Both(previousView, nextView));
        assert Requests(viewCount, index) == [Request(index, Beginning), Request(index - 1, End), Request(index + 1, Beginning)];
      }
    }

    /** `syncSubviews`: every subview stops listening and leaves the
        container; then the views held join it left to right and listen. */
    method SyncSubviews()
      modifies this`subviews, this`listening
      ensures subviews == Shown(views)
      ensures listening == (old(listening) - Ids(old(subviews))) + Ids(subviews)
    {
      var leaving := subviews;
      var i := 0;
      while i < |leaving|
        invariant 0 <= i <= |leaving|
        invariant subviews == leaving[i..]
        invariant listening == old(listening) - Ids(leaving[..i])
      {
        assert leaving[..i + 1][..i] == leaving[..i];
        listening := listening - {leaving[i].id};
        subviews := subviews[1..];
        i := i + 1;
      }
      assert leaving[..i] == leaving;
      var arriving := Shown(views);
      i := 0;
      while i < |arriving|
        invariant 0 <= i <= |arriving|
        invariant subviews == arriving[..i]
        invariant listening == (old(listening) - Ids(leaving)) + Ids(arriving[..i])
      {
        assert arriving[..i + 1][..i] == arriving[..i];
        listening := listening + {arriving[i].id};
        subviews := subviews + [arriving[i]];
        i := i + 1;
      }
      assert arriving[..i] == arriving;
    }

    /** The start of `layoutSubviews`: without views, `updateViews` runs
        with no previous index, which builds them once there is a
        delegate. */
    method EnsureViews()
      requires Valid()
      modifies this`views, this`factoryLog, this`nextId, this`subviews, this`listening
      ensures Valid()
      ensures views.Some? <==> hasDelegate
      ensures old(views).Some? || !hasDelegate ==>
                views == old(views) && factoryLog == old(factoryLog) && nextId == old(nextId)
      ensures old(views).None? && hasDelegate ==>
                views == Some(Build(viewCount, index, Materialize(Requests(viewCount, index), map[], old(nextId)).made)) &&
                factoryLog == old(factoryLog) + Requests(viewCount, index) &&
                nextId == old(nextId) + |Requests(viewCount, index)|
    {
      if views.None? {
        assert HeldFor(views, None) == HeldFor(None, None);
        ReconcileFromScratch(viewCount, index, nextId);
        UpdateViews(None);
      }
    }

    /** `layoutSubviews`: builds the views if there are none yet, sizes the
        container to one page per view (one viewport when there are none)
        and scrolls to page `min(1, index)`, the page of the current view. */
    method LayoutSubviews()
      requires Valid()
      modifies this`views, this`factoryLog, this`nextId, this`subviews, this`listening
      modifies this`contentWidth, this`offset
      ensures Valid()
      ensures views.Some? <==> hasDelegate
      ensures old(views).Some? || !hasDelegate ==>
                views == old(views) && factoryLog == old(factoryLog) && nextId == old(nextId)
      ensures old(views).None? && hasDelegate ==>
                views == Some(Build(viewCount, index, Materialize(Requests(viewCount, index), map[], old(nextId)).made)) &&
                factoryLog == old(factoryLog) + Requests(viewCount, index) &&
                nextId == old(nextId) + |Requests(viewCount, index)|
      ensures views.None? ==> contentWidth == width && offset == old(offset)
      ensures views.Some? ==>
                contentWidth == width * views.value.Count() &&
                offset == width * Min(1, index) &&
                PageOffset(offset, width) == Min(1, index) < views.value.Count() &&
                CurrentView() == Some(views.value.Array()[PageOffset(offset, width)]) &&
                CurrentView().value.spine == index
    {
      EnsureViews();
      if views.None? {
        contentWidth := width;
        return;
      }
      var v := views.value;
      contentWidth := width * v.Count();
      offset := width * Min(1, index);
      LayoutShowsCurrent(v, viewCount, index, width);
    }

    /** `scrollViewDidScroll`: the container has moved to `x`; with three
        views the clamping state machine runs on it, otherwise nothing
        else happens. */
    method ScrollViewDidScroll(x: int)
      requires width > 0
      modifies this`clamping, this`offset
      ensures views.Some? && views.value.Count() == 3 ==>
                DragState(clamping, offset) == DragStep(old(clamping), x, width)
      ensures !(views.Some? && views.value.Count() == 3) ==> clamping == old(clamping) && offset == x
    {
      offset := x;
      if views.None? {
        return;
      }
      if views.value.Count() == 3 {
        match clamping
        case NoClamp =>
          if offset < width {
            clamping := OnlyPrevious;
          } else if offset > width {
            clamping := OnlyNext;
          }
        case OnlyPrevious =>
          offset := Min(offset, width);
        case OnlyNext =>
          offset := Max(offset, width);
      }
    }

    /** `scrollViewDidEndDecelerating`: the page the container rests on
        decides the new index, the window is reconciled with the old index,
        and an offset off a page boundary is moved onto one. The container
        never rests outside its pages. */
    method ScrollViewDidEndDecelerating()
      requires Valid()
      requires 0 <= offset <= (Pages() - 1) * width
      modifies this`clamping, this`index, this`offset
      modifies this`views, this`factoryLog, this`nextId, this`subviews, this`listening
      ensures Valid() && clamping == NoClamp
      ensures index == SettledIndex(old(index), PageOffset(old(offset), width))
      ensures old(views).Some? ==>
                0 <= PageOffset(old(offset), width) < old(views).value.Count() &&
                index == old(views).value.Array()[PageOffset(old(offset), width)].spine
      ensures offset == Resnapped(old(offset), width)
      ensures index == old(index) || !hasDelegate ==>
                views == old(views) && factoryLog == old(factoryLog) && nextId == old(nextId)
      ensures index != old(index) && hasDelegate ==>
                var m := Materialize(Requests(viewCount, index), HeldFor(old(views), Some(old(index))), old(nextId));
                views == Some(Build(viewCount, index, m.made)) &&
                factoryLog == old(factoryLog) + m.requested && nextId == m.nextId
    {
      clamping := NoClamp;
      var previousIndex := index;
      var pageOffset := PageOffset(offset, width);
      if views.Some? {
        SettleFollowsPage(views.value, viewCount, index, offset, width);
      }
      if pageOffset == 0 {
        if index > 0 {
          index := index - 1;
        }
      } else if pageOffset == 1 {
        if index == 0 {
          index := index + 1;
        }
      } else {
        index := index + 1;
      }
      UpdateViews(Some(previousIndex));
      Resnap(pageOffset);
    }

    /** The end of `scrollViewDidEndDecelerating`: an offset off a page
        boundary is moved onto the boundary of the page it rests on. */
    method Resnap(pageOffset: int)
      requires width > 0 && pageOffset == PageOffset(offset, width)
      modifies this`offset
      ensures offset == Resnapped(old(offset), width)
    {
      if offset % width != 0 {
        offset := pageOffset * width;
      }
    }

    /** `moveTo(index:id:)`, called only with a spine index in range and
        once there are views. For the current index only the current view
        is told where to go. Otherwise the container is nudged one point in
        the direction of travel, the outgoing view is told to show the edge
        it is left by, the index is set, the clamping reset, the window
        reconciled with the old index, and the arriving view told where
        to open. */
    method MoveTo(nextIndex: int, id: Option<string>)
      requires Valid() && views.Some?
      requires 0 <= nextIndex < viewCount
      modifies this`index, this`clamping, this`offset, this`commands
      modifies this`views, this`factoryLog, this`nextId, this`subviews, this`listening
      ensures Valid() && index == nextIndex
      ensures CurrentView().Some? && CurrentView().value.spine == nextIndex
      ensures nextIndex == old(index) ==>
                views == old(views) && offset == old(offset) && clamping == old(clamping) &&
                factoryLog == old(factoryLog) && nextId == old(nextId) &&
                commands == old(commands) + SameIndexCommands(old(CurrentView()).value, id)
      ensures nextIndex != old(index) ==>
                var m := Materialize(Requests(viewCount, nextIndex), Held(old(views).value, old(index)), old(nextId));
                factoryLog == old(factoryLog) + m.requested && nextId == m.nextId
      ensures nextIndex != old(index) ==>
                offset == old(offset) + (if old(index) < nextIndex then 1 else -1) &&
                clamping == NoClamp &&
                views == Some(Reconciled(old(views).value, viewCount, old(index), nextIndex, old(nextId))) &&
                commands == old(commands) +
                  [ScrollAtLocation(old(CurrentView()).value, if old(index) < nextIndex then End else Beginning)] +
                  ArrivalCommands(CurrentView().value, id)
    {
      CurrentViewIsShownPage(views.value, viewCount, index);
      var cw := CurrentView().value;
      if index == nextIndex {
        commands := commands + SameIndexCommands(cw, id);
        return;
      }
      if index < nextIndex {
        offset := offset + 1;
        commands := commands + [ScrollAtLocation(cw, End)];
      } else {
        offset := offset - 1;
        commands := commands + [ScrollAtLocation(cw, Beginning)];
      }
      var previousIndex := index;
      index := nextIndex;
      clamping := NoClamp;
      assert HeldFor(views, Some(previousIndex)) == Held(views.value, previousIndex);
      UpdateViews(Some(previousIndex));
      CurrentViewIsShownPage(views.value, viewCount, index);
      cw := CurrentView().value;
      commands := commands + ArrivalCommands(cw, id);
    }
  }
}
