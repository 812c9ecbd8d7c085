# NYPLNavigator paging core in Dafny

This project models the page-navigation core of the NYPLNavigator e-book
reader:

- the **triptych view** (`TriptychView.swift`): a horizontally paging
  scroll container that holds the content views of the previous, current
  and next spine items (chapters);
- the **content view** (`WebView.swift`): one chapter as a row of screens,
  with a tap bridge, progression saving and the paging done on load.

Modules:

- `Shared` (`shared.dfy`) holds the shared values:
  - `Option`;
  - `Location`, the navigator's `BinaryLocation`;
  - `Disjunction`, the "first, second or both" union;
  - the integer forms of the rounding the source does on `CGFloat` values.
- `Window` (`window.dfy`) holds the pure part of the triptych view:
  - the `Views` union with `array` and `count`;
  - the window of spine indices kept around an index;
  - the factory requests `updateViews` makes, and how views already held
    are found again (the `indexesToCurrentViews` dictionary);
  - `currentView` and `isAtAnEdge`.
- `Scrolling` (`scrolling.dfy`) holds the scroll rules:
  - the clamping state machine of `scrollViewDidScroll`;
  - the settle rule and the re-snap of `scrollViewDidEndDecelerating`.
- `Triptych` (`triptych.dfy`) holds the class `TriptychView`. Its fields are
  the ones the source updates in place: `index`, `views`, `clamping`, the
  content offset and content width.

  The collaborators are logs and sets:
  - the delegate's factory is a log of `Request(spine, location)` calls, with
    fresh view ids;
  - the container's subviews are a sequence of views;
  - the registered message handlers are a set of view ids;
  - the commands sent to content views are a log.
- `Content` (`content.dfy`) holds the class `WebView`:
  - the screen index;
  - the tap handlers and message dispatch;
  - `moveTo(screenIndex:)` and `updateProgression`, with UserDefaults as a
    map from key to ratio;
  - message-handler registration;
  - the load sequence. Script evaluations are a log of issued scripts, and
    the completion of the scroll-width measurement is a separate step.

Offsets and widths are whole points. A width is positive: it stands for
the frame after layout (see "## Left out").

Main results:

- `updateViews` always leaves the window for the current index
  (`Window.Reconcile`, `Triptych.TriptychView.UpdateViews`).
- It reuses the very view held for every spine index that stays in the
  window.
- It asks the factory only for the spine indices not held before.
- A one-step move asks for at most one view.
- During a drag over three views the container never shows both
  neighbours.
- A settled drag moves the index to the spine index of the page the
  container rests on.
- In exact arithmetic, a progression saved on screen `s` of `n` seeks back
  to screen `s` when the chapter is reopened with `n` screens. The
  source's `Double` arithmetic does not always keep this promise (see
  "## Left out").

## Model

| member | source | states |
|---|---|---|
| Window.Views.Count | NYPLNavigator/TriptychView.swift:53-62 | 1 for `one`, 2 for `two`, 2 or 3 for `many`, and 3 exactly for `many` with both neighbours |
| Window.Views.Array | NYPLNavigator/TriptychView.swift:35-51 | length equals `count`. Order: previous view first, current view at its page, next view last; for `two`, the first then the second view; for `one`, just that view |
| Window.Requests | NYPLNavigator/TriptychView.swift:197-232 | the `switch` asks for one view per spine index of the window (the order and locations are stated by `Window.RequestsCoverWindow`) |
| Window.Build | NYPLNavigator/TriptychView.swift:197-232 | the `switch` assembles one view per request into the case `updateViews` builds for `viewCount` and `index` |
| Window.Held | NYPLNavigator/TriptychView.swift:169-188 | the dictionary keys the current view at the previous index, and neighbours at most one away (0 and 1 for one or two spine items) |
| Window.CurrentViewOf | NYPLNavigator/TriptychView.swift:66-85 | `currentView` is present exactly when there are views, and is one of them |
| Window.WindowOf | NYPLNavigator/TriptychView.swift:197-232 | the spine indices held around `index` are exactly those in range within one of `index`, consecutive, left to right |
| Window.RequestsCoverWindow | NYPLNavigator/TriptychView.swift:197-232 | the factory requests of `updateViews`: one per window spine index, no spine asked twice. Spines before `index` are asked at `.end`, the others at `.beginning`. For two spine items, 0 is asked for before 1. From three spine items on, the current view is asked for first, and away from the edges the previous view before the next one |
| Window.MatchesIsWindow | NYPLNavigator/TriptychView.swift:197-232 | a window agrees with `index` iff it has the case `updateViews` builds for it and its views' spine indices are `WindowOf`, left to right |
| Window.IdsAreMembers | NYPLNavigator/TriptychView.swift:238-254 | the ids registered for a row of views are exactly the ids of its members |
| Window.Unheld | NYPLNavigator/TriptychView.swift:190-194 | the requests not served from the dictionary are exactly those whose spine index is not a key (their order is stated by `Window.UnheldAppend`) |
| Window.UnheldAppend | NYPLNavigator/TriptychView.swift:190-194 | the filter keeps request order: the unheld requests of two runs are those of the first followed by those of the second |
| Window.Materialize | NYPLNavigator/TriptychView.swift:164-195 | serving the requests one `viewForIndex` call each gives one view per request; the next id grows by the number of factory calls |
| Window.MaterializeServes | NYPLNavigator/TriptychView.swift:164-195 | a held spine index gets the held view; any other gets a new view for its spine index and location with a fresh id |
| Window.MaterializeAsksUnheld | NYPLNavigator/TriptychView.swift:164-195 | the factory is called exactly for the requests whose spine index is not held, in request order |
| Window.ServedIsMaterialized | NYPLNavigator/TriptychView.swift:197-232 | the straight-line calls of the `switch` in `updateViews` serve the requests in the order `Requests` lists them |
| Window.MaterializeOne | NYPLNavigator/TriptychView.swift:200-201 | serving one request is one `viewForIndex` call |
| Window.MaterializeTwo | NYPLNavigator/TriptychView.swift:204-211 | serving two requests is two `viewForIndex` calls in order, the second numbered after the first |
| Window.MaterializeThree | NYPLNavigator/TriptychView.swift:214-230 | serving three requests is three `viewForIndex` calls in order |
| Window.HeldIsWindow | NYPLNavigator/TriptychView.swift:169-188 | the dictionary built from the window around the previous index has exactly that window's spine indices as keys, each mapped to a held view made for it |
| Window.NothingHeldAllNew | NYPLNavigator/TriptychView.swift:165-167 | with nothing held, every request goes to the factory, and the views are numbered consecutively in request order |
| Window.BuildMatches | NYPLNavigator/TriptychView.swift:197-232 | views obtained for the requests, each for its spine index, assemble into the window for `index`, holding exactly those views |
| Window.ViewAtSpine | NYPLNavigator/TriptychView.swift:30-51 | a window holds a view for each of its spine indices |
| Window.ViewForSpineIsUnique | NYPLNavigator/TriptychView.swift:30-51 | a window holds one view per spine index |
| Window.Reconcile | NYPLNavigator/TriptychView.swift:154-236 | moving the window from the previous index to `index` gives the window for `index`. A spine index in both windows keeps its very view. Every other view is new, at `.end` before `index` and `.beginning` otherwise. The factory is asked exactly for the spine indices not held before |
| Window.ReconcileFromScratch | NYPLNavigator/TriptychView.swift:165-167 | with no previous index, every view of the window comes from the factory, in request order, and the result is the window for `index` |
| Window.StepForwardAsksOne | NYPLNavigator/TriptychView.swift:164-232 | one step forward calls the factory at most once: for the spine index entering on the right, at `.beginning` |
| Window.StepBackwardAsksOne | NYPLNavigator/TriptychView.swift:164-232 | one step backward calls the factory at most once: for the spine index entering on the left, at `.end` |
| Window.UnheldOfWindow | NYPLNavigator/TriptychView.swift:190-194 | for a window next to the held one, the unheld requests are the one for the entering spine index |
| Window.ForwardAndBackKeepsCurrent | NYPLNavigator/TriptychView.swift:154-236 | one step forward and back again shows the very same current view |
| Window.CurrentViewIsShownPage | NYPLNavigator/TriptychView.swift:66-85 | for a window that agrees with `index`, `currentView` is element `min(1, index)` of `array` and was made for `index` |
| Window.CurrentIsViewAtSpine | NYPLNavigator/TriptychView.swift:66-85 | `currentView` is the view the window holds for `index` |
| Window.ThreeViewsAwayFromEdges | NYPLNavigator/TriptychView.swift:103-105 | three views are held exactly when `isAtAnEdge` is false |
| Scrolling.DragStep | NYPLNavigator/TriptychView.swift:319-335 | from `none`: below the width enters `onlyPrevious`, above enters `onlyNext`, equal stays `none`, and the offset is untouched. `onlyPrevious` caps the offset at the width, leaving an offset at or below it unchanged; `onlyNext` floors it there, leaving an offset at or above it unchanged |
| Scrolling.Drag | NYPLNavigator/TriptychView.swift:314-336 | a run of `scrollViewDidScroll` samples leaves one offset per sample |
| Scrolling.PageOffset | NYPLNavigator/TriptychView.swift:344 | `round(offset / width)`: a page whose boundary is within half a width of the offset |
| Scrolling.DragStepSettles | NYPLNavigator/TriptychView.swift:330-333 | writing the clamped offset back triggers one more sample, and that sample changes nothing |
| Scrolling.DragKeepsSide | NYPLNavigator/TriptychView.swift:323-334 | once a side is picked, every later offset of the drag stays on that side of the middle page |
| Scrolling.DragNeverShowsBothNeighbours | NYPLNavigator/TriptychView.swift:319-335 | during a drag from `none`, all offsets are at or before the middle page, or all are at or after it |
| Scrolling.SettledIndex | NYPLNavigator/TriptychView.swift:346-357 | the index moves by at most one and never below zero. Page 0 never moves it forward; any other page never moves it back |
| Scrolling.Resnapped | NYPLNavigator/TriptychView.swift:372-376 | the re-snapped offset is on a page boundary of the same page; an offset already on a boundary stays |
| Shared.RoundDiv | NYPLNavigator/TriptychView.swift:344 | `round(a / b)`: a nearest whole quotient, and on a tie the one farther from zero |
| Shared.RoundDivInRange | NYPLNavigator/TriptychView.swift:344 | an offset within the pages rounds to a page index |
| Shared.CeilDiv | NYPLNavigator/WebView.swift:152 | `ceil(a / b)`: the fewest whole widths covering `a` |
| Triptych.SettleFollowsPage | NYPLNavigator/TriptychView.swift:342-357 | on a window that agrees with `index`, the settled page is in the window, and the new index is the spine index of the view on that page, so it stays within the spine |
| Triptych.LayoutShowsCurrent | NYPLNavigator/TriptychView.swift:150-151 | the page `layoutSubviews` scrolls to, `min(1, index)` widths in, shows the current view |
| Triptych.RebuildIsWindow | NYPLNavigator/TriptychView.swift:154-236 | rebuilding from no views or from the window around the previous index gives the window for `index`, and all its ids are below the next unused one |
| Triptych.TriptychView.constructor | NYPLNavigator/TriptychView.swift:107-125 | demands at least one spine item and an initial index within them; starts with no views and no clamping |
| Triptych.TriptychView.SetDelegate | NYPLNavigator/TriptychView.swift:87-91 | setting the delegate builds every view of the window from the factory, in request order, using one new id per request |
| Triptych.TriptychView.MakeView | NYPLNavigator/TriptychView.swift:194 | one factory call: a new view for the spine index and location, with the next id, logged as one request |
| Triptych.TriptychView.ViewForIndex | NYPLNavigator/TriptychView.swift:164-195 | the held view when there are views, a previous index and a view for `j`; otherwise exactly one factory call for `(j, location)` |
| Triptych.TriptychView.UpdateViews | NYPLNavigator/TriptychView.swift:154-236 | changes nothing when the previous index is the current one or there is no delegate. Otherwise the window is rebuilt from the views held around the previous index, with the factory log and ids as `Materialize` gives them, and the invariant is kept |
| Triptych.TriptychView.ViewsFor | NYPLNavigator/TriptychView.swift:197-232 | the `switch` builds the window from the requests, served one `viewForIndex` call each |
| Triptych.TriptychView.ManyViewsFor | NYPLNavigator/TriptychView.swift:213-231 | the three-or-more case asks for the current view, then the previous, then the next |
| Triptych.TriptychView.SyncSubviews | NYPLNavigator/TriptychView.swift:238-254 | the container ends up holding exactly `views.array` in order. Old subviews stop listening; the views held listen |
| Triptych.TriptychView.EnsureViews | NYPLNavigator/TriptychView.swift:133-135 | with views, or with no delegate, nothing changes; without views and with a delegate, the whole window comes from the factory |
| Triptych.TriptychView.LayoutSubviews | NYPLNavigator/TriptychView.swift:132-152 | builds the views if missing and there is a delegate. Content width is one page per view, or the viewport when there are none. The offset is `width * min(1, index)`, whose page shows the current view |
| Triptych.TriptychView.ScrollViewDidScroll | NYPLNavigator/TriptychView.swift:314-336 | with three views, runs one clamping step on the new offset; otherwise leaves the clamping alone |
| Triptych.TriptychView.ScrollViewDidEndDecelerating | NYPLNavigator/TriptychView.swift:338-377 | resets clamping. The index becomes the settled index, which is the spine index of the page the container rests on. The window is reconciled with the old index only when the index changed, and the offset is re-snapped |
| Triptych.TriptychView.Resnap | NYPLNavigator/TriptychView.swift:372-376 | an offset off a page boundary moves to `pageOffset * width` |
| Triptych.TriptychView.MoveTo | NYPLNavigator/TriptychView.swift:262-309 | same index: only the current view is told `.beginning` for `""` or the tag otherwise, and nothing is rebuilt. Otherwise the offset moves by ±1 and the outgoing view is told `.end` forward or `.beginning` backward. Then the index is set, the clamping reset and the window reconciled with the old index. The factory log and next id grow exactly as reconciliation asks, so only spine indices not held before reach the factory. The arriving view gets position 0.0 for `""` or the id. The current view is then the one for the new index |
| Content.EventFor | NYPLNavigator/WebView.swift:16-18 | a message name has a handler exactly when it is `leftTap`, `centerTap` or `rightTap`, each with its own |
| Content.ProgressionKey | NYPLNavigator/WebView.swift:105-106 | the key is the publication identifier followed by the suffix `-documentProgression` |
| Content.ProgressionKeyInjective | NYPLNavigator/WebView.swift:105-106 | different publications never share a progression key |
| Content.Progression | NYPLNavigator/WebView.swift:103 | screen over total screens; finite exactly when the screen count is not zero |
| Content.ProgressionInUnitRange | NYPLNavigator/WebView.swift:103 | a screen inside the chapter gives a progression in `[0, 1)` |
| Content.RestoredScreen | NYPLNavigator/WebView.swift:157 | `floor(totalScreens * savedProgression)` |
| Content.ProgressionRoundTrip | NYPLNavigator/WebView.swift:103-157 | a stored progression restores the screen it was stored for, given the same screen count |
| Content.Seek | NYPLNavigator/WebView.swift:156-162 | a seek is issued exactly when a positive progression was saved, to the first point of the restored screen |
| Content.SavedProgressionReopensScreen | NYPLNavigator/WebView.swift:103-162 | a progression saved on a later screen seeks back to that screen's first point, whose screen index is that screen |
| Content.RecordedProgressionReopens | NYPLNavigator/WebView.swift:99-162 | what `updateProgression` stores for a later screen seeks back to that screen on reopening |
| Content.LocationScript | NYPLNavigator/WebView.swift:166-171 | `.beginning` scrolls to 0, `.end` to the scroll width |
| Content.Outcome | NYPLNavigator/WebView.swift:56-86 | left tap turns back one screen iff the screen is above 0, else asks for the previous document. Right tap turns on iff below `totalScreens - 1`, else asks for the next document. Centre tap only hands off |
| Content.TurnsStayInChapter | NYPLNavigator/WebView.swift:56-78 | a tap on a screen of the chapter turns only to an adjacent screen of the chapter |
| Content.TapsUndoEachOther | NYPLNavigator/WebView.swift:56-78 | a turning right tap is undone by a left tap, and the other way round |
| Content.DecidePolicy | NYPLNavigator/WebView.swift:178-182 | allows a navigation exactly when its type is `other` |
| Content.Recorded | NYPLNavigator/WebView.swift:99-107 | with an identifier, the key holds the new progression and every other key keeps its value; without one, nothing changes |
| Content.Notify | NYPLNavigator/WebView.swift:60 | an optional-chained delegate call happens only when there is a delegate |
| Content.WebView.constructor | NYPLNavigator/WebView.swift:20-42 | a new content view keeps its initial location, starts at offset 0 with no screens, no saved progression, no delegate and no handlers |
| Content.WebView.CurrentScreenIndex | NYPLNavigator/WebView.swift:27-29 | a nearest whole number of widths to the offset, exact on a screen boundary |
| Content.WebView.LeftTapped | NYPLNavigator/WebView.swift:56-64 | does what `Outcome` says for a left tap. A turn scrolls to the new screen's first point and records progression there. A hand-off calls the delegate and scrolls nothing |
| Content.WebView.RightTapped | NYPLNavigator/WebView.swift:70-78 | the same for a right tap |
| Content.WebView.CenterTapped | NYPLNavigator/WebView.swift:84-86 | only calls `handleCenterTap` on the delegate, if any |
| Content.WebView.MoveTo | NYPLNavigator/WebView.swift:88-95 | the offset becomes `width * screenIndex`, so that screen is shown, and the progression is recorded for it |
| Content.WebView.UpdateProgression | NYPLNavigator/WebView.swift:99-107 | stores the progression of the shown screen under the publication's key; writes nothing without an identifier |
| Content.WebView.ScrollViewDidEndDecelerating | NYPLNavigator/WebView.swift:190-193 | records the progression after a swipe settles |
| Content.WebView.Receive | NYPLNavigator/WebView.swift:115-123 | a message with a string body and a known name runs its tap handler; any other message changes nothing |
| Content.WebView.AddMessageHandlers | NYPLNavigator/WebView.swift:126-131 | registers exactly the three event names |
| Content.WebView.RemoveMessageHandlers | NYPLNavigator/WebView.swift:134-138 | unregisters exactly the three event names |
| Content.WebView.DidFinish | NYPLNavigator/WebView.swift:144-176 | issues the scroll-width measurement and at once the scroll to the initial edge |
| Content.WebView.ScrollWidthMeasured | NYPLNavigator/WebView.swift:147-164 | a measured width sets the screen count to `ceil(width / pageWidth)`; a failure keeps it. Either way, a positive saved progression then issues its seek, after the edge scroll |

## Left out

- UIKit and WebKit plumbing is not modelled: frames, autoresizing, view
  frames set in `layoutSubviews`, `setNeedsLayout`, URL loading and
  `viewForZooming`.
- Views are ids tagged with a spine index and a location, and the factory is
  a log of requests.
- Floating point is not modelled. `CGFloat` and `Double` offsets and widths
  are whole numbers, and `round`, `ceil` and `fmod` are exact integer
  operations.
  - Progression and saved progression are exact reals, so `floor` is exact.
  - Division by zero is the `NonFinite` case, without telling NaN from an
    infinity.
- `Content.ProgressionRoundTrip`, `Content.SavedProgressionReopensScreen`
  and `Content.RecordedProgressionReopens` hold for exact reals only.
  - With IEEE doubles, `floor(n * (s / n))` can be `s - 1`. For `s = 1`,
    `n = 49`, `49 * (1 / 49)` is 0.9999999999999999, so the chapter
    reopens on screen 0. For `s = 15`, `n = 22`, it reopens on screen 14.
- The `Double(resultString)!` parse of the measured width is not modelled.
  The completion receives the width as a number, or `None` on an error.
- The scripts are not executed. Each evaluation is a logged `Script`, and
  the only completion handler is the separate step `ScrollWidthMeasured`.
- UserDefaults is a map, and only the content view's writes to it are
  modelled.
- The delegates are not modelled as weak references:
  - the triptych view's delegate is set once and never cleared;
  - the content view's delegate is an optional value.
- `Triptych.TriptychView.ScrollViewDidScroll`: the source also runs when the
  offset is set from code (the ±1 nudge in `moveTo`, the re-snap, the
  offset of `layoutSubviews`). Those re-entrant samples are not modelled.
  `Scrolling.DragStepSettles` covers the sample caused by the method's own
  clamped write.
- `Triptych.TriptychView.ScrollViewDidEndDecelerating` requires the offset
  to lie within the container's pages. The source relies on the scroll
  view having bounces off and paging on.
  - The `assert(pageOffset == 2)` is a debug-build check. Release
    behaviour (any other page moves forward) is modelled.
- `Triptych.TriptychView.MoveTo` requires views and an index in range, as
  its force-unwrap and the commented-out guard show.
  - The source always returns early for the same index; that is what is
    modelled.
  - What the content view does with `scrollAt(location:)`,
    `scrollAt(tagId:)`, `initialPositionOverride` and `initialId` is not in
    the shown `WebView.swift`. Those calls are logged commands.
- The triptych view's frame width is a constant; resizing is not modelled.
- The zero-size phase before layout is not modelled. The positive widths
  of `TriptychView` and `WebView` stand for the frames after layout.
  - The navigator creates the triptych view with a zero frame and sets its
    delegate before the frame is set. So the factory makes each content
    view with a zero frame, and it gets its real frame only in
    `layoutSubviews`.
  - The content view's methods require a positive width, so a tap or a
    progression update during that phase is outside the model.
- WebKit raises an exception when a message handler name is registered
  twice. `Content.WebView.AddMessageHandlers` treats registration as
  adding to a set.
- The `isAtAnEdge` property is modelled as `Window.IsAtAnEdge`. It is used
  only by `Window.ThreeViewsAwayFromEdges`.
- `NavigatorViewController.swift` is not part of this model. Its spine
  bounds guard appears as the range preconditions of
  `Triptych.TriptychView.MoveTo`.
- Behaviour not in the shown code is not modelled: link interception,
  href-and-fragment jumps, range checks on progression values, and
  last-document persistence.
