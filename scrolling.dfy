/** The rules the sliding viewport applies to the scroll container's
    horizontal offset (TriptychView.swift, `scrollViewDidScroll` and
    `scrollViewDidEndDecelerating`): while a drag runs with three views,
    the offset is kept on one side of the middle page; when the drag
    settles, the page it rests on decides the new index. */
module Scrolling {
  import opened Shared

  /** Which neighbour the current drag may reveal. */
  datatype Clamping = NoClamp | OnlyPrevious | OnlyNext

  /** The clamping state and the offset left in the container after one
      `scrollViewDidScroll` sample. */
  datatype DragState = DragState(clamping: Clamping, offset: int)

  /** One sample `x` of a drag over three views of width `width`: the first
      sample off the middle page picks the side; from then on the offset is
      kept on that side of the middle page. The offset is only ever left
      alone or moved onto the middle page's edge. */
  function DragStep(clamping: Clamping, x: int, width: int): (r: DragState)
    ensures r.offset == x || r.offset == width
    ensures r.clamping == OnlyPrevious ==> r.offset <= width
    ensures r.clamping == OnlyNext ==> r.offset >= width
    ensures clamping != NoClamp ==> r.clamping == clamping
    ensures clamping == NoClamp ==> r.offset == x && (r.clamping == NoClamp <==> x == width)
    ensures clamping == OnlyPrevious ==> (r.offset == x <==> x <= width)
    ensures clamping == OnlyNext ==> (r.offset == x <==> x >= width)
  {
    match clamping
    case NoClamp =>
      if x < width then DragState(OnlyPrevious, x)
      else if x > width then DragState(OnlyNext, x)
      else DragState(NoClamp, x)
    case OnlyPrevious => DragState(OnlyPrevious, Min(x, width))
    case OnlyNext => DragState(OnlyNext, Max(x, width))
  }

  /** Setting the clamped offset makes the container report a scroll
      again; that second sample changes nothing. */
  lemma DragStepSettles(clamping: Clamping, x: int, width: int)
    ensures var r := DragStep(clamping, x, width);
            DragStep(r.clamping, r.offset, width) == r
  {
  }

  /** The offsets a whole drag leaves in the container, one per sample,
      and the clamping state at its end. */
  datatype DragRun = DragRun(clamping: Clamping, offsets: seq<int>)

  function Drag(clamping: Clamping, xs: seq<int>, width: int): (r: DragRun)
    ensures |r.offsets| == |xs|
    decreases |xs|
  {
    if xs == [] then DragRun(clamping, [])
    else
      var first := DragStep(clamping, xs[0], width);
      var rest := Drag(first.clamping, xs[1..], width);
      DragRun(rest.clamping, [first.offset] + rest.offsets)
  }

  /** Once a side is picked every later offset stays on that side of the
      middle page. */
  lemma {:induction false} DragKeepsSide(clamping: Clamping, xs: seq<int>, width: int)
    requires clamping != NoClamp
    ensures Drag(clamping, xs, width).clamping == clamping
    ensures clamping == OnlyPrevious ==> forall k :: 0 <= k < |xs| ==> Drag(clamping, xs, width).offsets[k] <= width
    ensures clamping == OnlyNext ==> forall k :: 0 <= k < |xs| ==> Drag(clamping, xs, width).offsets[k] >= width
    decreases |xs|
  {
    if xs != [] {
      DragKeepsSide(clamping, xs[1..], width);
      var r := Drag(clamping, xs, width);
      var rest := Drag(clamping, xs[1..], width);
      assert forall k :: 1 <= k < |xs| ==> r.offsets[k] == rest.offsets[k - 1];
    }
  }

  /** During one drag over three views the container never shows parts of
      both neighbours: starting unclamped, every offset it is left with lies
      at or before the middle page, or every one lies at or after it. */
  lemma {:induction false} DragNeverShowsBothNeighbours(xs: seq<int>, width: int)
    ensures var r := Drag(NoClamp, xs, width);
            (forall k :: 0 <= k < |xs| ==> r.offsets[k] <= width) ||
            (forall k :: 0 <= k < |xs| ==> r.offsets[k] >= width)
    decreases |xs|
  {
    if xs != [] {
      var first := DragStep(NoClamp, xs[0], width);
      var r := Drag(NoClamp, xs, width);
      var rest := Drag(first.clamping, xs[1..], width);
      assert forall k :: 1 <= k < |xs| ==> r.offsets[k] == rest.offsets[k - 1];
      assert r.offsets[0] == first.offset;
      if first.clamping == NoClamp {
        assert first.offset == width;
        DragNeverShowsBothNeighbours(xs[1..], width);
        assert rest == Drag(NoClamp, xs[1..], width);
        assert (forall k :: 0 <= k < |xs| - 1 ==> rest.offsets[k] <= width) ||
               (forall k :: 0 <= k < |xs| - 1 ==> rest.offsets[k] >= width);
        if forall k :: 0 <= k < |xs| - 1 ==> rest.offsets[k] <= width {
          assert forall k :: 0 <= k < |xs| ==> r.offsets[k] <= width;
        } else {
          assert forall k :: 0 <= k < |xs| - 1 ==> rest.offsets[k] >= width;
          forall k | 0 <= k < |xs| ensures r.offsets[k] >= width {
            if k > 0 { assert r.offsets[k] == rest.offsets[k - 1]; }
          }
        }
      } else {
        DragKeepsSide(first.clamping, xs[1..], width);
      }
    }
  }

  /** The page a settled offset rests on: `round(offset / width)`. */
  function PageOffset(offset: int, width: int): (page: int)
    requires width > 0
    ensures 2 * Abs(offset - page * width) <= width
  {
    RoundDiv(offset, width)
  }

  /** The index change on settle: page 0 goes back unless already at the
      first index; page 1 goes forward only from the first index (whose
      window starts at the current view); any other page goes forward.
      The index moves by one at most and never below zero. */
  function SettledIndex(index: int, pageOffset: int): (r: int)
    ensures index - 1 <= r <= index + 1
    ensures index >= 0 ==> r >= 0
    ensures pageOffset == 0 ==> r <= index
    ensures pageOffset != 0 ==> r >= index
  {
    if pageOffset == 0 then
      if index > 0 then index - 1 else index
    else if pageOffset == 1 then
      if index == 0 then index + 1 else index
    else
      index + 1
  }

  /** The offset after the re-snap: off a page boundary it is moved onto
      the boundary of the page it rests on, otherwise it stays. */
  function Resnapped(offset: int, width: int): (r: int)
    requires width > 0
    ensures r % width == 0
    ensures PageOffset(r, width) == PageOffset(offset, width)
    ensures offset % width == 0 ==> r == offset
  {
    if offset % width != 0 then
      var page := PageOffset(offset, width);
      RoundDivExact(page, width);
      assert (page * width) % width == 0 by { MultipleModulo(page, width); }
      page * width
    else
      MultipleOfWidth(offset, width);
      offset
  }

  lemma MultipleModulo(k: int, b: int)
    requires b > 0
    ensures (k * b) % b == 0
  {
    DivBounds(k * b, b);
    var q := (k * b) / b;
    if q < k {
      MultiplesApart(q, k, b);
    } else if q > k {
      MultiplesApart(k, q, b);
    }
  }

  lemma MultipleOfWidth(offset: int, width: int)
    requires width > 0 && offset % width == 0
    ensures PageOffset(offset, width) == offset / width
  {
    DivBounds(offset, width);
    assert offset == (offset / width) * width;
    RoundDivExact(offset / width, width);
  }
}
