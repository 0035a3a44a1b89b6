/**
 * The speaker carousel: eight speaker cards shown four to a page on wide
 * viewports and one to a page on narrow ones, a drag gesture that snaps to a
 * page when released, and one pagination dot per page.
 *
 * Widths and offsets are exact reals; the container width `w` is an input
 * (it is measured from the page layout) and is positive.
 */
module Speaker {

  const SpeakerCount: nat := 8
  const ItemsPerPageDesktop: nat := 4
  const ItemsPerPageMobile: nat := 1

  /** On narrow viewports a card, and so a page, is 80% of the container width. */
  const MobileCardFraction: real := 0.8

  /** Speaker cards per page: never zero, and never more than there are speakers. */
  function ItemsPerPage(isMobile: bool): (n: nat)
    ensures 0 < n <= SpeakerCount
  {
    if isMobile then ItemsPerPageMobile else ItemsPerPageDesktop
  }

  /** `Math.ceil(a / b)` for whole numbers. */
  function CeilDiv(a: nat, b: nat): (q: nat)
    requires b > 0
    ensures q * b >= a
    ensures q == 0 || (q - 1) * b < a
  {
    (a + b - 1) / b
  }

  /** The number of pages: just enough pages to hold every speaker. */
  function TotalPages(isMobile: bool): (t: nat)
    ensures t * ItemsPerPage(isMobile) >= SpeakerCount
    ensures (t - 1) * ItemsPerPage(isMobile) < SpeakerCount
    ensures t == if isMobile then 8 else 2
  {
    CeilDiv(SpeakerCount, ItemsPerPage(isMobile))
  }

  function Abs(v: real): real {
    if v < 0.0 then -v else v
  }

  /** `Math.round`: the nearest integer, with halves rounding up. */
  function Round(v: real): (n: int)
    ensures n as real - 0.5 <= v < n as real + 0.5
  {
    (v + 0.5).Floor
  }

  /** `Math.max(0, Math.min(p, total - 1))`. */
  function Clamp(p: int, total: int): (r: int)
    ensures r >= 0
    ensures total >= 1 ==> r <= total - 1
    ensures total < 1 ==> r == 0
    ensures 0 <= p < total ==> r == p
    ensures p < 0 ==> r == 0
    ensures total >= 1 && p >= total ==> r == total - 1
  {
    var m := if p < total - 1 then p else total - 1;
    if m < 0 then 0 else m
  }

  /** The width of one page step, used by the drag-release computation. */
  function ScrollAmount(isMobile: bool, w: real): (s: real)
    requires w > 0.0
    ensures 0.0 < s <= w
  {
    if isMobile then w * MobileCardFraction else w
  }

  /** The distance of offset `x` from offset 0, measured in page steps. */
  function Steps(x: real, isMobile: bool, w: real): (v: real)
    requires w > 0.0
    ensures v >= 0.0
    ensures v * ScrollAmount(isMobile, w) == Abs(x)
  {
    Abs(x) / ScrollAmount(isMobile, w)
  }

  /**
   * `Math.round(Math.abs(x) / scrollAmount)`: the release offset measured in
   * page steps, rounded to the nearest whole page.
   */
  function CandidatePage(x: real, isMobile: bool, w: real): (n: nat)
    requires w > 0.0
    ensures n as real - 0.5 <= Steps(x, isMobile, w) < n as real + 0.5
  {
    Round(Steps(x, isMobile, w))
  }

  /** The page a drag released at offset `x` settles on. */
  function DragPage(x: real, isMobile: bool, w: real): (p: nat)
    requires w > 0.0
    ensures p < TotalPages(isMobile)
  {
    Clamp(CandidatePage(x, isMobile, w), TotalPages(isMobile))
  }

  /** The offset `scrollTo(p)` animates to: `p` page steps to the left. */
  function ScrollTarget(p: int, isMobile: bool, w: real): (t: real)
    requires w > 0.0
    ensures p >= 0 ==> t <= 0.0
    ensures p > 0 ==> t < 0.0
  {
    -(p as real) * ScrollAmount(isMobile, w)
  }

  /** The left drag constraint; the right one is 0. */
  function DragLeftBound(isMobile: bool, w: real): (left: real)
    requires w > 0.0
    ensures left <= 0.0
  {
    -((TotalPages(isMobile) - 1) as real * w)
  }

  /** The pagination dots: one per page, marked active when it is the current page. */
  function Dots(total: nat, current: int): (dots: seq<bool>)
    ensures |dots| == total
    ensures forall i :: 0 <= i < total ==> (dots[i] <==> i == current)
  {
    seq(total, i => i == current)
  }

  /** How many dots are marked active. */
  function ActiveCount(dots: seq<bool>): nat {
    if dots == [] then 0
    else ActiveCount(dots[..|dots| - 1]) + (if dots[|dots| - 1] then 1 else 0)
  }

  /** Exactly one dot is active when the current index is a page, none otherwise. */
  lemma {:induction false} OneActiveDot(total: nat, current: int)
    ensures ActiveCount(Dots(total, current)) == if 0 <= current < total then 1 else 0
  {
    if total > 0 {
      OneActiveDot(total - 1, current);
      assert Dots(total, current)[..total - 1] == Dots(total - 1, current);
    }
  }

  /** Releasing a drag exactly at page `p`'s resting offset selects `p` again. */
  lemma DragReleaseAtTarget(p: nat, isMobile: bool, w: real)
    requires w > 0.0
    requires p < TotalPages(isMobile)
    ensures DragPage(ScrollTarget(p, isMobile, w), isMobile, w) == p
  {
    var s := ScrollAmount(isMobile, w);
    var t := ScrollTarget(p, isMobile, w);
    assert Abs(t) == p as real * s;
    DivideBack(p as real, s);
    var n := CandidatePage(t, isMobile, w);
    assert n as real - 0.5 <= p as real < n as real + 0.5;
  }

  /**
   * A release at or left of the first page settles on the page whose resting
   * offset is nearest to the release offset.
   */
  lemma DragSnapsToNearestPage(x: real, q: nat, isMobile: bool, w: real)
    requires w > 0.0 && x <= 0.0
    requires q < TotalPages(isMobile)
    ensures Abs(x - ScrollTarget(DragPage(x, isMobile, w), isMobile, w))
         <= Abs(x - ScrollTarget(q, isMobile, w))
  {
    var p := DragPage(x, isMobile, w);
    var s := ScrollAmount(isMobile, w);
    var v := Steps(x, isMobile, w);
    NearestInSteps(v, CandidatePage(x, isMobile, w), TotalPages(isMobile), p, q);
    NearestScaled(x, s, v, p, q, ScrollTarget(p, isMobile, w), ScrollTarget(q, isMobile, w));
  }

  /**
   * The release offset goes through `Math.abs`, so a release right of the first
   * page is treated like the release as far to its left.
   */
  lemma DragPageMirror(x: real, isMobile: bool, w: real)
    requires w > 0.0
    ensures DragPage(x, isMobile, w) == DragPage(-x, isMobile, w)
  {
  }

  /**
   * Hence the nearest-page property fails right of 0: a release more than half
   * a step right of the first page (an elastic overshoot) selects page 1,
   * although page 0's resting offset is nearer.
   */
  lemma RightOvershootSkipsFirstPage(x: real, isMobile: bool, w: real)
    requires w > 0.0
    requires 0.5 * ScrollAmount(isMobile, w) < x <= ScrollAmount(isMobile, w)
    ensures DragPage(x, isMobile, w) == 1
    ensures Abs(x - ScrollTarget(0, isMobile, w)) < Abs(x - ScrollTarget(1, isMobile, w))
  {
    var s := ScrollAmount(isMobile, w);
    var v := Steps(x, isMobile, w);
    assert v * s == x;
    StepsOfOvershoot(x, s, v);
    assert CandidatePage(x, isMobile, w) == 1;
  }

  /**
   * In page steps: clamping the rounded position `v` to the pages
   * `0 .. total - 1` gives a page at least as close to `v` as any page `q`.
   */
  lemma NearestInSteps(v: real, n: int, total: nat, p: int, q: nat)
    requires 0.0 <= v && n as real - 0.5 <= v < n as real + 0.5
    requires p == Clamp(n, total) && q < total
    ensures Abs(p as real - v) <= Abs(q as real - v)
  {
    if n < total {
      assert n >= 0 && p == n;
      assert Abs(p as real - v) <= 0.5;
      if q > n {
        assert q as real >= n as real + 1.0;
      } else if q < n {
        assert q as real <= n as real - 1.0;
      }
    } else {
      assert p == total - 1 && q <= p;
      assert q as real <= p as real < v;
    }
  }

  /** Every page's resting offset lies within the drag constraints. */
  lemma TargetsWithinDragBounds(p: nat, isMobile: bool, w: real)
    requires w > 0.0
    requires p < TotalPages(isMobile)
    ensures DragLeftBound(isMobile, w) <= ScrollTarget(p, isMobile, w) <= 0.0
  {
    var s := ScrollAmount(isMobile, w);
    var last := (TotalPages(isMobile) - 1) as real;
    ScaleOrder(p as real, last, s);
    assert last * s <= last * w;
  }

  // Arithmetic on positive scale factors, for the lemmas above.

  /** Scaling by a positive factor keeps the order of two reals, both ways. */
  lemma ScaleOrder(a: real, b: real, s: real)
    requires s > 0.0
    ensures a <= b <==> a * s <= b * s
    ensures a < b <==> a * s < b * s
  {
    if a <= b { assert (b - a) * s >= 0.0; }
    if a < b { assert (b - a) * s > 0.0; }
    assert b * s - a * s == (b - a) * s;
  }

  /** Dividing a product by one of its positive factors gives the other. */
  lemma DivideBack(a: real, s: real)
    requires s > 0.0
    ensures (a * s) / s == a
  {
  }

  /**
   * Scaling by a positive factor keeps `<=`: the first ensures of `ScaleOrder`
   * with the products passed in as parameters, so that the solver matches them
   * by name rather than through `Abs`.
   */
  lemma ScaledLe(a: real, b: real, s: real, c: real, d: real)
    requires s > 0.0 && a <= b
    requires c == a * s && d == b * s
    ensures c <= d
  {
    ScaleOrder(a, b, s);
  }

  /** Scaled back from page steps to offsets, the nearer page stays the nearer. */
  lemma NearestScaled(x: real, s: real, v: real, p: int, q: int, tp: real, tq: real)
    requires s > 0.0 && v * s == -x
    requires Abs(p as real - v) <= Abs(q as real - v)
    requires tp == -(p as real) * s && tq == -(q as real) * s
    ensures Abs(x - tp) <= Abs(x - tq)
  {
    assert x - tp == x + p as real * s;
    assert x - tq == x + q as real * s;
    OffsetDistance(x, s, v, p as real);
    OffsetDistance(x, s, v, q as real);
    ScaledLe(Abs(p as real - v), Abs(q as real - v), s, Abs(x + p as real * s), Abs(x + q as real * s));
  }

  /** An offset between half a step and one step is between half and one step units. */
  lemma StepsOfOvershoot(x: real, s: real, v: real)
    requires s > 0.0 && v * s == x
    requires 0.5 * s < x <= s
    ensures 0.5 < v <= 1.0
  {
    ScaleOrder(v, 0.5, s);
    ScaleOrder(1.0, v, s);
  }

  /** The distance from offset `x` to page position `k`, in page steps times the step. */
  lemma OffsetDistance(x: real, s: real, v: real, k: real)
    requires s > 0.0 && v * s == -x
    ensures Abs(x + k * s) == Abs(k - v) * s
  {
    assert x + k * s == (k - v) * s;
    assert Abs(x + k * s) == Abs((k - v) * s);
    var d := k - v;
    if d < 0.0 { assert d * s < 0.0; } else { assert d * s >= 0.0; }
  }

  /** The carousel's state: the current page and the track's horizontal offset. */
  class SpeakerCarousel {
    var currentIndex: nat
    var x: real

    constructor ()
      ensures currentIndex == 0 && x == 0.0
    {
      currentIndex := 0;
      x := 0.0;
    }

    /** The dots as rendered for the current viewport class. */
    function ActiveDots(isMobile: bool): (dots: seq<bool>)
      reads this
      ensures |dots| == TotalPages(isMobile)
      ensures forall i :: 0 <= i < |dots| ==> (dots[i] <==> i == currentIndex)
    {
      Dots(TotalPages(isMobile), currentIndex)
    }

    /**
     * Go to a page (a dot click, or the end of a drag): record the index and
     * move the track to that page's offset.  The eased animation is modelled
     * by the position it ends at.
     */
    method ScrollTo(pageIndex: nat, isMobile: bool, w: real)
      requires w > 0.0
      modifies this
      ensures currentIndex == pageIndex
      ensures x == ScrollTarget(pageIndex, isMobile, w)
    {
      currentIndex := pageIndex;
      var targetX := 0.0;
      if isMobile {
        var mobileCardWidth := w * MobileCardFraction;
        targetX := -(pageIndex as real) * mobileCardWidth;
      } else {
        targetX := -(pageIndex as real) * w;
      }
      x := targetX;
    }

    /**
     * Release of a drag: snap to the nearest page within range, by the same
     * `ScrollTo` a dot click uses.  Afterwards exactly one dot is active, and
     * a release at a page's resting offset leaves everything where it was.
     */
    method HandleDragEnd(isMobile: bool, w: real)
      requires w > 0.0
      modifies this
      ensures currentIndex == DragPage(old(x), isMobile, w)
      ensures x == ScrollTarget(currentIndex, isMobile, w)
      ensures ActiveCount(ActiveDots(isMobile)) == 1
      ensures forall p: nat :: p < TotalPages(isMobile) && old(x) == ScrollTarget(p, isMobile, w) ==>
        currentIndex == p && x == old(x)
    {
      var currentX := x;
      var newPage := CandidatePage(currentX, isMobile, w);
      var clampedPage := Clamp(newPage, TotalPages(isMobile));
      ScrollTo(clampedPage, isMobile, w);
      OneActiveDot(TotalPages(isMobile), currentIndex);
      forall p: nat | p < TotalPages(isMobile) && currentX == ScrollTarget(p, isMobile, w)
        ensures currentIndex == p
      {
        DragReleaseAtTarget(p, isMobile, w);
      }
    }
  }
}
