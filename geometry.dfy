/** Integer screen rectangles (Minecraft's ScreenRectangle) and the layout
    helpers of ChestTracker's `Nudge` class that the floating inventory button
    uses: stepping a rectangle, the smallest enclosing rectangle, inflating,
    the overlap test and the "free placement" test. Screen y grows downward. */
module Geometry {

  /** ScreenRectangle(x, y, width, height); it covers the half-open box
      [x, x + width) by [y, y + height). */
  datatype Rect = Rect(x: int, y: int, width: int, height: int) {
    function Right(): int { x + width }
    function Bottom(): int { y + height }
  }

  /** ScreenRectangle.empty() */
  const EmptyRect := Rect(0, 0, 0, 0)

  /** ScreenDirection */
  datatype Direction = Up | Down | Left | Right

  function Opposite(d: Direction): Direction {
    match d
    case Up => Down
    case Down => Up
    case Left => Right
    case Right => Left
  }

  function Min(a: int, b: int): int { if a <= b then a else b }
  function Max(a: int, b: int): int { if a <= b then b else a }

  /** The pixel (px, py) lies inside r. */
  predicate ContainsPoint(r: Rect, px: int, py: int) {
    r.x <= px < r.Right() && r.y <= py < r.Bottom()
  }

  /** a lies within b (every pixel of a is a pixel of b when a is not empty). */
  predicate Within(a: Rect, b: Rect) {
    b.x <= a.x && a.Right() <= b.Right() && b.y <= a.y && a.Bottom() <= b.Bottom()
  }

  /** ScreenRectangle.overlaps: the two boxes share an area of positive size;
      rectangles that only touch along an edge do not overlap. Overlapping
      boxes share the pixel at the top-left of their common area; boxes that
      do not overlap share no pixel. */
  function Overlaps(a: Rect, b: Rect): (o: bool)
    ensures o ==> ContainsPoint(a, Max(a.x, b.x), Max(a.y, b.y)) && ContainsPoint(b, Max(a.x, b.x), Max(a.y, b.y))
    ensures !o ==> forall px, py :: ContainsPoint(a, px, py) ==> !ContainsPoint(b, px, py)
  {
    Max(a.x, b.x) < Min(a.Right(), b.Right()) && Max(a.y, b.y) < Min(a.Bottom(), b.Bottom())
  }

  /** Overlapping means having a pixel in common. */
  lemma OverlapsIffCommonPixel(a: Rect, b: Rect)
    ensures Overlaps(a, b) <==> exists px, py :: ContainsPoint(a, px, py) && ContainsPoint(b, px, py)
  {
    if Overlaps(a, b) {
      assert ContainsPoint(a, Max(a.x, b.x), Max(a.y, b.y)) && ContainsPoint(b, Max(a.x, b.x), Max(a.y, b.y));
    }
  }

  lemma OverlapsSymmetric(a: Rect, b: Rect)
    ensures Overlaps(a, b) <==> Overlaps(b, a)
  {
  }

  /** The 1x1 rectangle of a pointer position overlaps r exactly when r contains that pixel. */
  lemma PointerOverlapsIffContains(r: Rect, px: int, py: int)
    ensures Overlaps(r, Rect(px, py, 1, 1)) <==> ContainsPoint(r, px, py)
  {
  }

  /** Nothing overlaps ScreenRectangle.empty(). */
  lemma EmptyOverlapsNothing(r: Rect)
    ensures !Overlaps(EmptyRect, r)
  {
  }

  /** Nudge.step: the same rectangle moved `distance` pixels in direction `dir`. */
  function Step(r: Rect, dir: Direction, distance: int): (s: Rect)
    ensures s.width == r.width && s.height == r.height
    ensures dir == Left || dir == Right ==> s.y == r.y && s.x - r.x == (if dir == Right then distance else -distance)
    ensures dir == Up || dir == Down ==> s.x == r.x && s.y - r.y == (if dir == Down then distance else -distance)
  {
    match dir
    case Right => Rect(r.x + distance, r.y, r.width, r.height)
    case Left => Rect(r.x - distance, r.y, r.width, r.height)
    case Down => Rect(r.x, r.y + distance, r.width, r.height)
    case Up => Rect(r.x, r.y - distance, r.width, r.height)
  }

  /** Stepping back the same distance returns to the start; steps add up. */
  lemma StepInverseAndAdditive(r: Rect, dir: Direction, a: int, b: int)
    ensures Step(Step(r, dir, a), Opposite(dir), a) == r
    ensures Step(Step(r, dir, a), dir, b) == Step(r, dir, a + b)
  {
  }

  /** Nudge.inflate: grow every side by `margin` pixels. */
  function Inflate(r: Rect, margin: int): (s: Rect)
    ensures s.x == r.x - margin && s.Right() == r.Right() + margin
    ensures s.y == r.y - margin && s.Bottom() == r.Bottom() + margin
  {
    Rect(r.x - margin, r.y - margin, r.width + 2 * margin, r.height + 2 * margin)
  }

  /** A pixel is in the inflated rectangle iff it is at most `margin` pixels
      outside r along each axis. */
  lemma InflateContains(r: Rect, margin: nat, px: int, py: int)
    ensures ContainsPoint(r, px, py) ==> ContainsPoint(Inflate(r, margin), px, py)
    ensures ContainsPoint(Inflate(r, margin), px, py) <==>
      r.x - margin <= px < r.Right() + margin && r.y - margin <= py < r.Bottom() + margin
  {
  }

  /** Nudge.encompassing: the rectangle from the least left and top to the
      greatest right and bottom of a non-empty list. What it promises is
      stated by its contract, EncompassingTight and EncompassingIsLeast. */
  function Encompassing(rs: seq<Rect>): (e: Rect)
    requires |rs| > 0
    ensures forall i :: 0 <= i < |rs| ==> Within(rs[i], e)
  {
    if |rs| == 1 then rs[0]
    else
      var t := Encompassing(rs[1..]);
      var l := Min(rs[0].x, t.x);
      var u := Min(rs[0].y, t.y);
      var r := Max(rs[0].Right(), t.Right());
      var b := Max(rs[0].Bottom(), t.Bottom());
      Rect(l, u, r - l, b - u)
  }

  /** Every rectangle of the list lies within the enclosing one. */
  lemma {:induction false} EncompassingBounds(rs: seq<Rect>)
    requires |rs| > 0
    ensures forall i :: 0 <= i < |rs| ==> Within(rs[i], Encompassing(rs))
  {
    if |rs| > 1 {
      EncompassingBounds(rs[1..]);
      assert forall i :: 1 <= i < |rs| ==> rs[i] == rs[1..][i - 1];
    }
  }

  /** Each side of the enclosing rectangle is the side of some listed rectangle. */
  lemma {:induction false} EncompassingTight(rs: seq<Rect>)
    requires |rs| > 0
    ensures exists i :: 0 <= i < |rs| && Encompassing(rs).x == rs[i].x
    ensures exists i :: 0 <= i < |rs| && Encompassing(rs).y == rs[i].y
    ensures exists i :: 0 <= i < |rs| && Encompassing(rs).Right() == rs[i].Right()
    ensures exists i :: 0 <= i < |rs| && Encompassing(rs).Bottom() == rs[i].Bottom()
  {
    if |rs| > 1 {
      var t := rs[1..];
      EncompassingTight(t);
      var e := Encompassing(rs);
      var i0 :| 0 <= i0 < |t| && Encompassing(t).x == t[i0].x;
      var i1 :| 0 <= i1 < |t| && Encompassing(t).y == t[i1].y;
      var i2 :| 0 <= i2 < |t| && Encompassing(t).Right() == t[i2].Right();
      var i3 :| 0 <= i3 < |t| && Encompassing(t).Bottom() == t[i3].Bottom();
      assert t[i0] == rs[i0 + 1] && t[i1] == rs[i1 + 1] && t[i2] == rs[i2 + 1] && t[i3] == rs[i3 + 1];
      assert e == Rect(Min(rs[0].x, Encompassing(t).x), Min(rs[0].y, Encompassing(t).y),
                       Max(rs[0].Right(), Encompassing(t).Right()) - Min(rs[0].x, Encompassing(t).x),
                       Max(rs[0].Bottom(), Encompassing(t).Bottom()) - Min(rs[0].y, Encompassing(t).y));
      var j0 := if e.x == rs[0].x then 0 else i0 + 1;
      var j1 := if e.y == rs[0].y then 0 else i1 + 1;
      var j2 := if e.Right() == rs[0].Right() then 0 else i2 + 1;
      var j3 := if e.Bottom() == rs[0].Bottom() then 0 else i3 + 1;
      assert e.x == rs[j0].x && e.y == rs[j1].y && e.Right() == rs[j2].Right() && e.Bottom() == rs[j3].Bottom();
    } else {
      assert Encompassing(rs) == rs[0];
    }
  }

  /** The enclosing rectangle is the least one: it holds every listed
      rectangle and lies within any rectangle that holds them all. */
  lemma EncompassingIsLeast(rs: seq<Rect>, c: Rect)
    requires |rs| > 0
    requires forall i :: 0 <= i < |rs| ==> Within(rs[i], c)
    ensures forall i :: 0 <= i < |rs| ==> Within(rs[i], Encompassing(rs))
    ensures Within(Encompassing(rs), c)
  {
    EncompassingBounds(rs);
    EncompassingTight(rs);
    var e := Encompassing(rs);
    var i0 :| 0 <= i0 < |rs| && e.x == rs[i0].x;
    var i1 :| 0 <= i1 < |rs| && e.y == rs[i1].y;
    var i2 :| 0 <= i2 < |rs| && e.Right() == rs[i2].Right();
    var i3 :| 0 <= i3 < |rs| && e.Bottom() == rs[i3].Bottom();
    assert Within(rs[i0], c) && Within(rs[i1], c) && Within(rs[i2], c) && Within(rs[i3], c);
  }

  /** Nudge.isFree: the candidate lies within the bounds and overlaps none of
      the colliders, so each of its pixels is inside the bounds and inside no
      collider. */
  function IsFree(candidate: Rect, colliders: seq<Rect>, bounds: Rect): (free: bool)
    ensures free ==> forall px, py :: ContainsPoint(candidate, px, py) ==>
      ContainsPoint(bounds, px, py) && forall i :: 0 <= i < |colliders| ==> !ContainsPoint(colliders[i], px, py)
  {
    var free := Within(candidate, bounds) && forall c :: c in colliders ==> !Overlaps(candidate, c);
    assert free ==> forall i :: 0 <= i < |colliders| ==> !Overlaps(candidate, colliders[i]);
    free
  }

  /** Pointwise meaning of a free placement: every pixel of the candidate is
      inside the bounds and inside no collider. */
  lemma FreeMeansNoSharedPixel(candidate: Rect, colliders: seq<Rect>, bounds: Rect, px: int, py: int)
    requires IsFree(candidate, colliders, bounds)
    requires ContainsPoint(candidate, px, py)
    ensures ContainsPoint(bounds, px, py)
    ensures forall i :: 0 <= i < |colliders| ==> !ContainsPoint(colliders[i], px, py)
  {
    forall i | 0 <= i < |colliders|
      ensures !ContainsPoint(colliders[i], px, py)
    {
      assert colliders[i] in colliders;
      OverlapsIffCommonPixel(candidate, colliders[i]);
    }
  }
}
