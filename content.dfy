/** The content view (WebView.swift): one chapter rendered as a row of
    screens in a paging scroll container. Taps reported by the page's
    script move one screen or hand off to the previous or next chapter,
    the reading progression is persisted as a screen ratio, and on load
    the screen count is measured and a saved progression is turned back
    into a screen.

    WebKit's asynchronous script evaluation is a log of issued scripts,
    the completion of the one measurement that has a completion is a
    separate step, and UserDefaults is a map from key to stored ratio. */
module Content {
  import opened Shared

  /** The calls the content view makes on its (optional) delegate. */
  datatype DelegateCall = DisplayNextDocument | DisplayPreviousDocument | HandleCenterTap

  /** The scripts the content view asks its page to evaluate. */
  datatype Script =
    | MeasureScrollWidth                // document.body.scrollWidth
    | SetScrollLeft(offset: int)        // document.body.scrollLeft = offset
    | SetScrollLeftToScrollWidth        // document.body.scrollLeft = document.body.scrollWidth

  /** A stored progression: a ratio, or the non-finite value a division
      by a zero screen count leaves. */
  datatype Ratio = Finite(value: real) | NonFinite

  /** What the delegate answers about the publication. */
  datatype ViewDelegate = ViewDelegate(publicationIdentifier: Option<string>)

  /** The events the page's bridge script posts. */
  datatype Event = LeftTap | CenterTap | RightTap

  /** How a navigation inside the web view was started. */
  datatype NavigationType = LinkActivated | FormSubmitted | BackForward | Reload | FormResubmitted | Other

  datatype Policy = Allow | Cancel

  /** What a tap does: turn to a screen of this chapter, or hand off to
      the delegate. */
  datatype TapOutcome = Turn(screen: int) | HandOff(call: DelegateCall)

  /** The message names of the event table, one per event. */
  const EventNames: seq<string> := ["leftTap", "centerTap", "rightTap"]

  /** The event table lookup: a message name is known exactly when it is
      one of the three event names, and each name maps to its own event. */
  function EventFor(name: string): (e: Option<Event>)
    ensures e.Some? <==> name in EventNames
    ensures e == Some(LeftTap) <==> name == EventNames[0]
    ensures e == Some(CenterTap) <==> name == EventNames[1]
    ensures e == Some(RightTap) <==> name == EventNames[2]
  {
    if name == "leftTap" then Some(LeftTap)
    else if name == "centerTap" then Some(CenterTap)
    else if name == "rightTap" then Some(RightTap)
    else None
  }

  /** The delegate calls an optional-chained call leaves: none without a
      delegate. */
  function Notify(delegate: Option<ViewDelegate>, call: DelegateCall): (calls: seq<DelegateCall>)
    ensures delegate.Some? ==> calls == [call]
    ensures delegate.None? ==> calls == []
  {
    if delegate.Some? then [call] else []
  }

  /** The publication identifier through the optional delegate. */
  function PublicationId(delegate: Option<ViewDelegate>): (id: Option<string>)
    ensures id.Some? ==> delegate.Some? && delegate.value.publicationIdentifier == id
  {
    if delegate.Some? then delegate.value.publicationIdentifier else None
  }

  /** The UserDefaults key a publication's progression is stored under. */
  function ProgressionKey(publicationIdentifier: string): (key: string)
    ensures |key| == |publicationIdentifier| + |"-documentProgression"|
    ensures key[..|publicationIdentifier|] == publicationIdentifier
    ensures key[|publicationIdentifier|..] == "-documentProgression"
  {
    publicationIdentifier + "-documentProgression"
  }

  /** Distinct publications never share a progression key. */
  lemma ProgressionKeyInjective(a: string, b: string)
    requires ProgressionKey(a) == ProgressionKey(b)
    ensures a == b
  {
    assert |a| == |b|;
    assert a == ProgressionKey(a)[..|a|];
  }

  /** `Double(screen) / Double(total)`: finite exactly when the screen
      count is not zero, and then the fraction of the screens before
      `screen`. */
  function Progression(screen: int, total: int): (r: Ratio)
    ensures r.Finite? <==> total != 0
    ensures r.Finite? ==> r.value * (total as real) == screen as real
  {
    if total == 0 then NonFinite else Finite(screen as real / total as real)
  }

  /** A screen inside the chapter is stored as a ratio in `[0, 1)`. */
  lemma ProgressionInUnitRange(screen: int, total: int)
    requires 0 <= screen < total
    ensures Progression(screen, total).Finite?
    ensures 0.0 <= Progression(screen, total).value < 1.0
  {
    var p := Progression(screen, total).value;
    assert p * (total as real) == screen as real;
  }

  /** `floor(Double(total) * saved)`: the screen a saved progression
      points at. */
  function RestoredScreen(total: int, saved: real): (s: int)
    ensures s as real <= (total as real) * saved < s as real + 1.0
  {
    ((total as real) * saved).Floor
  }

  /** A progression stored for a screen restores that same screen when
      the chapter has the same number of screens. */
  lemma ProgressionRoundTrip(screen: int, total: int)
    requires total != 0
    ensures RestoredScreen(total, Progression(screen, total).value) == screen
  {
    var p := Progression(screen, total).value;
    assert (total as real) * p == screen as real;
  }

  /** The script that puts a freshly loaded chapter at its initial edge. */
  function LocationScript(location: Location): (s: Script)
    ensures location == Beginning ==> s == SetScrollLeft(0)
    ensures location == End ==> s == SetScrollLeftToScrollWidth
  {
    match location
    case Beginning => SetScrollLeft(0)
    case End => SetScrollLeftToScrollWidth
  }

  /** The seek the measurement's completion issues: to the first pixel of
      the restored screen when a positive progression was saved. */
  function Seek(saved: Option<real>, total: int, width: int): (scripts: seq<Script>)
    ensures |scripts| <= 1
    ensures scripts != [] <==> saved.Some? && saved.value > 0.0
    ensures scripts != [] ==> scripts[0] == SetScrollLeft(RestoredScreen(total, saved.value) * width)
  {
    if saved.Some? && saved.value > 0.0 then
      [SetScrollLeft(RestoredScreen(total, saved.value) * width)]
    else
      []
  }

  /** A progression saved on a later screen of a chapter with the same
      number of screens reopens the chapter on that screen: the seek goes
      to the screen's first pixel, whose screen index is that screen. */
  lemma SavedProgressionReopensScreen(screen: int, total: int, width: int)
    requires 0 < screen < total && width > 0
    ensures Seek(Some(Progression(screen, total).value), total, width) == [SetScrollLeft(screen * width)]
    ensures RoundDiv(screen * width, width) == screen
  {
    ProgressionRoundTrip(screen, total);
    var p := Progression(screen, total).value;
    assert p > 0.0 by {
      assert p * (total as real) == screen as real;
    }
    RoundDivExact(screen, width);
  }

  /** The decision rule of the three tap handlers, from the screen the
      container shows and the screen count. */
  function Outcome(e: Event, screen: int, total: int): (o: TapOutcome)
    ensures e == LeftTap ==> (o.Turn? <==> screen > 0)
    ensures e == LeftTap && o.Turn? ==> o.screen == screen - 1
    ensures e == LeftTap && o.HandOff? ==> o.call == DisplayPreviousDocument
    ensures e == RightTap ==> (o.Turn? <==> screen < total - 1)
    ensures e == RightTap && o.Turn? ==> o.screen == screen + 1
    ensures e == RightTap && o.HandOff? ==> o.call == DisplayNextDocument
    ensures e == CenterTap ==> o == HandOff(HandleCenterTap)
  {
    match e
    case LeftTap => if screen > 0 then Turn(screen - 1) else HandOff(DisplayPreviousDocument)
    case RightTap => if screen < total - 1 then Turn(screen + 1) else HandOff(DisplayNextDocument)
    case CenterTap => HandOff(HandleCenterTap)
  }

  /** A tap on a screen of the chapter only ever turns to another screen
      of the chapter, one step away. */
  lemma TurnsStayInChapter(e: Event, screen: int, total: int)
    requires 0 <= screen < total
    ensures var o := Outcome(e, screen, total);
            o.Turn? ==> 0 <= o.screen < total && Abs(o.screen - screen) == 1
  {
  }

  /** A right tap that turns is undone by a left tap, and the other way
      round. */
  lemma TapsUndoEachOther(screen: int, total: int)
    requires 0 <= screen < total
    ensures Outcome(RightTap, screen, total).Turn? ==>
              Outcome(LeftTap, Outcome(RightTap, screen, total).screen, total) == Turn(screen)
    ensures Outcome(LeftTap, screen, total).Turn? ==>
              Outcome(RightTap, Outcome(LeftTap, screen, total).screen, total) == Turn(screen)
  {
  }

  /** Only the initial load (navigation type "other") is allowed; every
      navigation the user or the page starts is cancelled. */
  function DecidePolicy(navigationType: NavigationType): (p: Policy)
    ensures p == Allow <==> navigationType == Other
  {
    if navigationType == Other then Allow else Cancel
  }

  class WebView {
    /** The scroll container's frame width (one screen). */
    const width: int
    const initialLocation: Location
    /** The scroll container's horizontal content offset. */
    var offset: int
    var totalScreens: int
    /** Set by the navigator on the first chapter it shows. */
    var savedProgression: Option<real>
    /** A weak reference: absent until the navigator sets it. */
    var delegate: Option<ViewDelegate>
    var delegateCalls: seq<DelegateCall>
    /** Scripts issued to the page, oldest first. */
    var scripts: seq<Script>
    /** Scroll-width measurements whose completion has not run yet. */
    var pending: nat
    /** UserDefaults, as far as the content view writes it. */
    var defaults: map<string, Ratio>
    /** Message names this view is registered for. */
    var handlers: set<string>

    constructor(width: int, initialLocation: Location, defaults: map<string, Ratio>)
      requires width > 0
      ensures this.width == width && this.initialLocation == initialLocation
      ensures offset == 0 && totalScreens == 0 && savedProgression == None && delegate == None
      ensures delegateCalls == [] && scripts == [] && pending == 0 && handlers == {}
      ensures this.defaults == defaults
    {
      this.width := width;
      this.initialLocation := initialLocation;
      offset := 0;
      totalScreens := 0;
      savedProgression := None;
      delegate := None;
      delegateCalls := [];
      scripts := [];
      pending := 0;
      this.defaults := defaults;
      handlers := {};
    }

    /** The screen the container shows: the offset over the width, rounded
        half away from zero. */
    function CurrentScreenIndex(): (s: int)
      requires width > 0
      reads this`offset
      ensures 2 * Abs(offset - s * width) <= width
      ensures offset % width == 0 ==> s * width == offset
    {
      var s := RoundDiv(offset, width);
      if offset % width == 0 then
        DivBounds(offset, width);
        RoundDivExact(offset / width, width);
        assert offset == (offset / width) * width;
        s
      else
        s
    }

    /** The state a tap leaves, from the state before it: a turn scrolls
        to the screen's first pixel and records the progression there;
        a hand-off calls the delegate, if any, and changes nothing else. */
    twostate predicate TapApplied(e: Event)
      requires width > 0
      reads this`offset, this`totalScreens, this`delegate, this`delegateCalls, this`defaults
    {
      totalScreens == old(totalScreens) && delegate == old(delegate) &&
      match Outcome(e, old(CurrentScreenIndex()), old(totalScreens))
      case Turn(s) =>
        offset == width * s && CurrentScreenIndex() == s &&
        delegateCalls == old(delegateCalls) &&
        defaults == Recorded(old(defaults), PublicationId(delegate), s, totalScreens)
      case HandOff(call) =>
        offset == old(offset) && defaults == old(defaults) &&
        delegateCalls == old(delegateCalls) + Notify(delegate, call)
    }

    /** `leftTapped`: back one screen, or to the previous chapter from the
        first screen. */
    method LeftTapped()
      requires width > 0
      modifies this`offset, this`delegateCalls, this`defaults
      ensures TapApplied(LeftTap)
    {
      var index := CurrentScreenIndex();
      if !(index > 0) {
        if delegate.Some? {
          delegateCalls := delegateCalls + [DisplayPreviousDocument];
        }
        return;
      }
      MoveTo(index - 1);
    }

    /** `rightTapped`: on one screen, or to the next chapter from the last
        screen. */
    method RightTapped()
      requires width > 0
      modifies this`offset, this`delegateCalls, this`defaults
      ensures TapApplied(RightTap)
    {
      var index := CurrentScreenIndex();
      if !(index < totalScreens - 1) {
        if delegate.Some? {
          delegateCalls := delegateCalls + [DisplayNextDocument];
        }
        return;
      }
      MoveTo(index + 1);
    }

    /** `centerTapped`: tells the delegate, if any. */
    method CenterTapped()
      requires width > 0
      modifies this`delegateCalls
      ensures TapApplied(CenterTap)
    {
      if delegate.Some? {
        delegateCalls := delegateCalls + [HandleCenterTap];
      }
    }

    /** `moveTo(screenIndex:)`: scrolls to the first pixel of the screen,
        which then is the screen shown, and records the progression. */
    method MoveTo(screenIndex: int)
      requires width > 0
      modifies this`offset, this`defaults
      ensures offset == width * screenIndex
      ensures CurrentScreenIndex() == screenIndex
      ensures defaults == Recorded(old(defaults), PublicationId(delegate), screenIndex, totalScreens)
    {
      offset := width * screenIndex;
      RoundDivExact(screenIndex, width);
      UpdateProgression();
    }

    /** `updateProgression`: with a publication identifier, stores the
        progression of the shown screen under its key; otherwise writes
        nothing. */
    method UpdateProgression()
      requires width > 0
      modifies this`defaults
      ensures defaults == Recorded(old(defaults), PublicationId(delegate), CurrentScreenIndex(), totalScreens)
    {
      var id := PublicationId(delegate);
      if id.None? {
        return;
      }
      defaults := defaults[ProgressionKey(id.value) := Progression(CurrentScreenIndex(), totalScreens)];
    }

    /** The scroll container settled after a swipe: the progression is
        recorded for the screen it rests on. */
    method ScrollViewDidEndDecelerating()
      requires width > 0
      modifies this`defaults
      ensures defaults == Recorded(old(defaults), PublicationId(delegate), CurrentScreenIndex(), totalScreens)
    {
      UpdateProgression();
    }

    /** A message from the page's bridge script: a message without a
        string body or with an unknown name is ignored, a known one runs
        its tap handler. */
    method Receive(name: string, body: Option<string>)
      requires width > 0
      modifies this`offset, this`delegateCalls, this`defaults
      ensures body.Some? && EventFor(name).Some? ==> TapApplied(EventFor(name).value)
      ensures body.None? || EventFor(name).None? ==>
                offset == old(offset) && delegateCalls == old(delegateCalls) && defaults == old(defaults)
    {
      if body.None? {
        return;
      }
      var e := EventFor(name);
      match e
      case None =>
      case Some(LeftTap) => LeftTapped();
      case Some(CenterTap) => CenterTapped();
      case Some(RightTap) => RightTapped();
    }

    /** `addMessageHandlers`: registers the view for every event name. */
    method AddMessageHandlers()
      modifies this`handlers
      ensures handlers == old(handlers) + {"leftTap", "centerTap", "rightTap"}
    {
      var i := 0;
      while i < |EventNames|
        invariant 0 <= i <= |EventNames|
        invariant handlers == old(handlers) + set k | 0 <= k < i :: EventNames[k]
      {
        handlers := handlers + {EventNames[i]};
        i := i + 1;
      }
      assert (set k | 0 <= k < 3 :: EventNames[k]) == {"leftTap", "centerTap", "rightTap"} by {
        assert EventNames[0] == "leftTap" && EventNames[1] == "centerTap" && EventNames[2] == "rightTap";
      }
    }

    /** `removeMessageHandlers`: unregisters the view from every event
        name; registrations under other names stay. */
    method RemoveMessageHandlers()
      modifies this`handlers
      ensures handlers == old(handlers) - {"leftTap", "centerTap", "rightTap"}
    {
      var i := 0;
      while i < |EventNames|
        invariant 0 <= i <= |EventNames|
        invariant handlers == old(handlers) - set k | 0 <= k < i :: EventNames[k]
      {
        handlers := handlers - {EventNames[i]};
        i := i + 1;
      }
      assert (set k | 0 <= k < 3 :: EventNames[k]) == {"leftTap", "centerTap", "rightTap"} by {
        assert EventNames[0] == "leftTap" && EventNames[1] == "centerTap" && EventNames[2] == "rightTap";
      }
    }

    /** `webView(_:didFinish:)`, that is `scrollToInitialLocation`: asks
        the page for its scroll width (its completion runs later) and at
        once scrolls the page to the initial edge. */
    method DidFinish()
      modifies this`scripts, this`pending
      ensures scripts == old(scripts) + [MeasureScrollWidth, LocationScript(initialLocation)]
      ensures pending == old(pending) + 1
    {
      scripts := scripts + [MeasureScrollWidth];
      pending := pending + 1;
      match initialLocation
      case Beginning => scripts := scripts + [SetScrollLeft(0)];
      case End => scripts := scripts + [SetScrollLeftToScrollWidth];
    }

    /** The completion of the scroll-width measurement, with the measured
        width or `None` when the evaluation failed: a measured width sets
        the screen count to the whole screens needed to cover it; then,
        even after a failure, a positive saved progression issues the seek
        to its screen, after the initial-edge scroll. */
    method ScrollWidthMeasured(result: Option<int>)
      requires width > 0 && pending > 0
      modifies this`totalScreens, this`scripts, this`pending
      ensures pending == old(pending) - 1
      ensures result.Some? ==> width * (totalScreens - 1) < result.value <= width * totalScreens
      ensures result.None? ==> totalScreens == old(totalScreens)
      ensures scripts == old(scripts) + Seek(savedProgression, totalScreens, width)
    {
      pending := pending - 1;
      if result.Some? {
        totalScreens := CeilDiv(result.value, width);
      }
      if savedProgression.Some? && savedProgression.value > 0.0 {
        var lastScreen := RestoredScreen(totalScreens, savedProgression.value);
        scripts := scripts + [SetScrollLeft(lastScreen * width)];
        return;
      }
    }
  }

  /** UserDefaults after `updateProgression` recorded `screen` of `total`:
      the publication's key holds the new progression and every other key
      keeps its value; without a publication identifier nothing changes. */
  function Recorded(defaults: map<string, Ratio>, publication: Option<string>, screen: int, total: int): (d: map<string, Ratio>)
    ensures publication.None? ==> d == defaults
    ensures publication.Some? ==>
              ProgressionKey(publication.value) in d && d[ProgressionKey(publication.value)] == Progression(screen, total)
    ensures d.Keys == defaults.Keys + (if publication.Some? then {ProgressionKey(publication.value)} else {})
    ensures forall k :: k in defaults && (publication.None? || k != ProgressionKey(publication.value)) ==> d[k] == defaults[k]
  {
    if publication.None? then defaults
    else defaults[ProgressionKey(publication.value) := Progression(screen, total)]
  }

  /** What a reader finds on reopening: a progression recorded on a later
      screen of a chapter, given back to the content view of the same
      chapter, seeks to that screen. */
  lemma RecordedProgressionReopens(defaults: map<string, Ratio>, id: string, screen: int, total: int, width: int)
    requires 0 < screen < total && width > 0
    ensures var r := Recorded(defaults, Some(id), screen, total)[ProgressionKey(id)];
            r.Finite? && Seek(Some(r.value), total, width) == [SetScrollLeft(screen * width)]
  {
    SavedProgressionReopensScreen(screen, total, width);
  }
}
