/** The floating ChestTracker button drawn on container screens: a 9x9
    primary button with a row of secondary buttons that unfold in the first
    free direction, a hover zone that keeps them open, and a press / hold /
    drag / release state machine that moves the button. */
module InventoryButtons {
  import opened Game
  import opened Geometry

  const SIZE := 9
  const MS_BEFORE_DRAG_START := 200
  const EXPANDED_HOVER_INFLATE := 5
  const EXTRA_BUTTON_SPACING := 5
  /** The secondary buttons are "forget" and "rename". */
  const EXTRA_BUTTON_COUNT := 2
  /** Directions tried, in order, when placing the secondary buttons. */
  const DIRECTION_ORDER := [Right, Left, Down, Up]

  /** Distance of the i-th (1-based) secondary button from the primary button. */
  function StepDistance(i: int): int { (SIZE + EXTRA_BUTTON_SPACING) * i }

  /** Rectangles of secondary buttons 1..count, stepped away from `primary` in `dir`. */
  function SecondaryRects(primary: Rect, dir: Direction, count: nat): (rs: seq<Rect>)
    ensures |rs| == count
    ensures forall i :: 0 <= i < count ==> rs[i] == Step(primary, dir, 14 * (i + 1))
  {
    seq(count, i => Step(primary, dir, StepDistance(i + 1)))
  }

  /** Consecutive buttons, the primary one first, are one pitch apart: a
      button's size plus the 5-pixel spacing. So no two 9x9 buttons overlap. */
  lemma SecondariesDoNotOverlap(primary: Rect, dir: Direction, count: nat)
    requires primary.width == SIZE && primary.height == SIZE
    ensures var rs := SecondaryRects(primary, dir, count);
      && (count > 0 ==> rs[0] == Step(primary, dir, SIZE + EXTRA_BUTTON_SPACING))
      && (forall i :: 1 <= i < count ==> rs[i] == Step(rs[i - 1], dir, SIZE + EXTRA_BUTTON_SPACING))
      && (forall i :: 0 <= i < count ==> !Overlaps(primary, rs[i]))
      && (forall i, j :: 0 <= i < j < count ==> !Overlaps(rs[i], rs[j]))
  {
    var rs := SecondaryRects(primary, dir, count);
    forall i, j | 0 <= i < j < count ensures !Overlaps(rs[i], rs[j]) {
      assert rs[j] == Step(rs[i], dir, 14 * (j - i));
    }
  }

  /** rectangleFor(dir): the rectangle enclosing the primary button and every
      secondary button placed in `dir`. */
  function RectangleFor(primary: Rect, dir: Direction): (r: Rect)
    ensures Within(primary, r)
    ensures forall i :: 0 <= i < EXTRA_BUTTON_COUNT ==> Within(SecondaryRects(primary, dir, EXTRA_BUTTON_COUNT)[i], r)
  {
    var rs := [primary] + SecondaryRects(primary, dir, EXTRA_BUTTON_COUNT);
    assert rs[0] == primary && rs[1..] == SecondaryRects(primary, dir, EXTRA_BUTTON_COUNT);
    Encompassing(rs)
  }

  /** rectangleFor encloses the primary button and each stepped secondary
      button, and lies within any rectangle that encloses them all. */
  lemma RectangleForEncloses(primary: Rect, dir: Direction, c: Rect)
    ensures Within(primary, RectangleFor(primary, dir))
    ensures forall i :: 0 <= i < EXTRA_BUTTON_COUNT ==>
      Within(SecondaryRects(primary, dir, EXTRA_BUTTON_COUNT)[i], RectangleFor(primary, dir))
    ensures (Within(primary, c) && forall i :: 0 <= i < EXTRA_BUTTON_COUNT ==>
               Within(SecondaryRects(primary, dir, EXTRA_BUTTON_COUNT)[i], c))
            ==> Within(RectangleFor(primary, dir), c)
  {
    var ss := SecondaryRects(primary, dir, EXTRA_BUTTON_COUNT);
    var rs := [primary] + ss;
    assert rs == [primary, ss[0], ss[1]];
    EncompassingBounds(rs);
    assert Within(rs[1], Encompassing(rs)) && Within(rs[2], Encompassing(rs));
    if Within(primary, c) && Within(ss[0], c) && Within(ss[1], c) {
      assert forall i :: 0 <= i < |rs| ==> Within(rs[i], c);
      EncompassingIsLeast(rs, c);
    }
  }

  /** The direction applyPosition settles on: the first of RIGHT, LEFT, DOWN,
      UP whose enclosing rectangle is free, or RIGHT when none is. */
  function ChosenDirection(primary: Rect, colliders: seq<Rect>, bounds: Rect): (d: Direction)
    ensures d in DIRECTION_ORDER
  {
    if IsFree(RectangleFor(primary, Right), colliders, bounds) then Right
    else if IsFree(RectangleFor(primary, Left), colliders, bounds) then Left
    else if IsFree(RectangleFor(primary, Down), colliders, bounds) then Down
    else if IsFree(RectangleFor(primary, Up), colliders, bounds) then Up
    else Right
  }

  /** The direction search of applyPosition: walk DIRECTION_ORDER and stop at
      the first free placement; RIGHT is the fallback. */
  method ChooseDirection(primary: Rect, colliders: seq<Rect>, bounds: Rect) returns (freeDir: Direction)
    ensures freeDir == ChosenDirection(primary, colliders, bounds)
    ensures (exists k :: 0 <= k < |DIRECTION_ORDER| && freeDir == DIRECTION_ORDER[k]
               && IsFree(RectangleFor(primary, DIRECTION_ORDER[k]), colliders, bounds)
               && forall j :: 0 <= j < k ==> !IsFree(RectangleFor(primary, DIRECTION_ORDER[j]), colliders, bounds))
         || ((forall k :: 0 <= k < |DIRECTION_ORDER| ==> !IsFree(RectangleFor(primary, DIRECTION_ORDER[k]), colliders, bounds))
               && freeDir == Right)
  {
    freeDir := Right;
    var k := 0;
    while k < |DIRECTION_ORDER|
      invariant 0 <= k <= |DIRECTION_ORDER|
      invariant forall j :: 0 <= j < k ==> !IsFree(RectangleFor(primary, DIRECTION_ORDER[j]), colliders, bounds)
      invariant freeDir == Right
    {
      var dir := DIRECTION_ORDER[k];
      var rect := RectangleFor(primary, dir);
      if IsFree(rect, colliders, bounds) {
        freeDir := dir;
        return;
      }
      k := k + 1;
    }
  }

  /** With two secondary buttons 14 pixels apart, rectangleFor(dir) is the
      primary rectangle extended by 28 pixels on the side facing `dir`. */
  lemma {:induction false} RectangleForClosedForm(primary: Rect, dir: Direction)
    ensures RectangleFor(primary, dir) == match dir
      case Right => Rect(primary.x, primary.y, primary.width + 28, primary.height)
      case Left => Rect(primary.x - 28, primary.y, primary.width + 28, primary.height)
      case Down => Rect(primary.x, primary.y, primary.width, primary.height + 28)
      case Up => Rect(primary.x, primary.y - 28, primary.width, primary.height + 28)
  {
    var ss := SecondaryRects(primary, dir, EXTRA_BUTTON_COUNT);
    var rs := [primary] + ss;
    assert rs == [primary, Step(primary, dir, 14), Step(primary, dir, 28)];
    EncompassingBounds(rs);
    EncompassingTight(rs);
    var e := Encompassing(rs);
    assert Within(rs[0], e) && Within(rs[1], e) && Within(rs[2], e);
  }

  /** Scenario: a button against the screen's left edge, with another
      widget exactly where its first secondary button would go to the right:
      RIGHT overlaps that widget, LEFT leaves the screen, and DOWN is chosen
      when the screen has room below. */
  lemma DownChosenWhenRightBlockedAndLeftOffScreen(primary: Rect, collider: Rect, bounds: Rect)
    requires primary.width == SIZE && primary.height == SIZE
    requires primary.x == bounds.x && primary.x + SIZE <= bounds.Right()
    requires bounds.y <= primary.y && primary.y + SIZE + 28 <= bounds.Bottom()
    requires collider == Step(primary, Right, StepDistance(1))
    ensures ChosenDirection(primary, [collider], bounds) == Down
  {
    RectangleForClosedForm(primary, Right);
    RectangleForClosedForm(primary, Left);
    RectangleForClosedForm(primary, Down);
    var right, left, down := RectangleFor(primary, Right), RectangleFor(primary, Left), RectangleFor(primary, Down);
    assert !IsFree(right, [collider], bounds) by {
      assert collider in [collider] && Overlaps(right, collider);
    }
    assert !IsFree(left, [collider], bounds);
    assert IsFree(down, [collider], bounds) by {
      assert forall c :: c in [collider] ==> c == collider;
      assert !Overlaps(down, collider);
    }
  }

  /** The position loop of applyPosition: secondary button i (from 1) moves
      to the primary rectangle stepped i times the button pitch in `dir`. */
  method PlaceSecondaries(rects: seq<Rect>, primary: Rect, dir: Direction) returns (placed: seq<Rect>)
    requires |rects| == EXTRA_BUTTON_COUNT && primary.width == SIZE && primary.height == SIZE
    ensures placed == SecondaryRects(primary, dir, EXTRA_BUTTON_COUNT)
  {
    placed := rects;
    var i := 1;
    while i <= |placed|
      invariant 1 <= i <= |placed| + 1 && |placed| == EXTRA_BUTTON_COUNT
      invariant forall j :: 0 <= j < i - 1 ==> placed[j] == Step(primary, dir, StepDistance(j + 1))
    {
      var pos := Step(primary, dir, StepDistance(i));
      placed := placed[i - 1 := Rect(pos.x, pos.y, SIZE, SIZE)];
      i := i + 1;
    }
  }

  /** A point (pointer position or widget coordinate). */
  datatype Point = Point(x: int, y: int)

  /** The container screen the button is attached to: its rectangle, the
      rectangles of its other widgets (Nudge.getCollidersFor) and the
      resolution of a ButtonPosition to pixel coordinates (ButtonPosition.getX/getY). */
  datatype Parent<!P> = Parent(bounds: Rect, colliders: seq<Rect>, resolve: P -> Point)

  /** What a release asks the host to do. */
  datatype ReleaseAction<P> =
    | PersistPosition(position: P)  // ButtonPositionMap.setUser
    | OpenScreen                    // ChestTracker.openInGame
    | NoAction

  class InventoryButton<P(==)> {
    const parent: Parent<P>
    var x: int
    var y: int
    var lastPosition: P
    var position: P
    var canDrag: bool
    var mouseDownStart: int
    var isDragging: bool
    /** Rectangles of the secondary buttons, in list order. */
    var extraRects: seq<Rect>
    /** `visible` flag of each secondary button. */
    var extraVisible: seq<bool>
    var expandedHoverArea: Rect

    function Primary(): Rect
      reads this
    {
      Rect(x, y, SIZE, SIZE)
    }

    /** The direction the secondary buttons currently unfold in. */
    function PlacedDirection(): Direction
      reads this
    {
      ChosenDirection(Primary(), parent.colliders, parent.bounds)
    }

    ghost predicate Shaped()
      reads this
    {
      |extraRects| == EXTRA_BUTTON_COUNT && |extraVisible| == EXTRA_BUTTON_COUNT
    }

    /** Outside of an event handler the button sits where its last applied
        position resolves to, that position is the current one, and the
        secondary buttons are laid out in the chosen free direction. */
    ghost predicate Valid()
      reads this
    {
      && Shaped()
      && position == lastPosition
      && parent.resolve(lastPosition) == Point(x, y)
      && extraRects == SecondaryRects(Primary(), PlacedDirection(), EXTRA_BUTTON_COUNT)
    }

    /** AbstractWidget.isMouseOver for the (always active and visible) primary button. */
    function IsMouseOver(mx: int, my: int): bool
      reads this
    {
      ContainsPoint(Primary(), mx, my)
    }

    /** isExpandedHover: the pointer's 1x1 rectangle overlaps the expanded hover area. */
    function IsExpandedHover(mx: int, my: int): (r: bool)
      reads this
      ensures r <==> ContainsPoint(expandedHoverArea, mx, my)
    {
      PointerOverlapsIffContains(expandedHoverArea, mx, my);
      Overlaps(expandedHoverArea, Rect(mx, my, 1, 1))
    }

    constructor (parent: Parent<P>, position: P)
      ensures Valid()
      ensures this.parent == parent && this.position == position
      ensures Point(x, y) == parent.resolve(position)
      ensures !canDrag && mouseDownStart == -1 && !isDragging
      ensures extraVisible == [true, true] && expandedHoverArea == EmptyRect
    {
      var p := parent.resolve(position);
      this.parent := parent;
      this.position := position;
      this.lastPosition := position;
      x, y := p.x, p.y;
      canDrag, mouseDownStart, isDragging := false, -1, false;
      extraRects := [Rect(p.x, p.y, SIZE, SIZE), Rect(p.x, p.y, SIZE, SIZE)];
      extraVisible := [true, true];
      expandedHoverArea := EmptyRect;
      new;
      ApplyPosition(true);
    }

    /** applyPosition(force): unless nothing changed and `force` is off,
        move to the current position and lay the secondary buttons out in the
        first free direction. */
    method ApplyPosition(force: bool)
      requires Shaped()
      requires !force && position == lastPosition ==> Valid()
      modifies this
      ensures Valid()
      ensures !force && old(position) == old(lastPosition) ==> unchanged(this)
      ensures lastPosition == position == old(position)
      ensures Point(x, y) == parent.resolve(position)
      ensures extraRects == SecondaryRects(Primary(), PlacedDirection(), EXTRA_BUTTON_COUNT)
      ensures canDrag == old(canDrag) && mouseDownStart == old(mouseDownStart) && isDragging == old(isDragging)
      ensures extraVisible == old(extraVisible) && expandedHoverArea == old(expandedHoverArea)
    {
      if !force && position == lastPosition {
        return;
      }
      var p := parent.resolve(position);
      var primary := Rect(p.x, p.y, SIZE, SIZE);
      var freeDir := ChooseDirection(primary, parent.colliders, parent.bounds);
      var rects := PlaceSecondaries(extraRects, primary, freeDir);
      lastPosition, x, y, extraRects := position, p.x, p.y, rects;
    }

    /** showExtraButtons(shouldShow): set every secondary button's visibility
        and rebuild the hover area (empty when hidden). */
    method ShowExtraButtons(shouldShow: bool)
      requires Valid()
      modifies this
      ensures Valid()
      ensures extraVisible == [shouldShow, shouldShow]
      ensures expandedHoverArea ==
        if shouldShow then Inflate(RectangleFor(Primary(), PlacedDirection()), EXPANDED_HOVER_INFLATE) else EmptyRect
      ensures x == old(x) && y == old(y) && position == old(position) && lastPosition == old(lastPosition)
      ensures extraRects == old(extraRects)
      ensures canDrag == old(canDrag) && mouseDownStart == old(mouseDownStart) && isDragging == old(isDragging)
    {
      var visible := extraVisible;
      var i := 0;
      while i < |visible|
        invariant 0 <= i <= |visible| && |visible| == EXTRA_BUTTON_COUNT
        invariant forall j :: 0 <= j < i ==> visible[j] == shouldShow
      {
        visible := visible[i := shouldShow];
        i := i + 1;
      }
      extraVisible := visible;

      if shouldShow {
        var encompassing := Encompassing([Primary()] + extraRects);
        expandedHoverArea := Inflate(encompassing, EXPANDED_HOVER_INFLATE);
      } else {
        expandedHoverArea := EmptyRect;
      }
    }

    /** The visibility branch of renderWidget. `hovered` is the widget base's
        isHovered(), computed before this call. While dragging the secondary
        buttons are hidden whatever the pointer does. */
    method Render(mx: int, my: int, hovered: bool)
      requires Valid()
      modifies this
      ensures Valid()
      ensures position == old(position) && x == old(x) && y == old(y)
      ensures canDrag == old(canDrag) && mouseDownStart == old(mouseDownStart) && isDragging == old(isDragging)
      ensures isDragging ==> extraVisible == [false, false] && expandedHoverArea == EmptyRect
      ensures !isDragging ==>
        var show := hovered || ContainsPoint(old(expandedHoverArea), mx, my);
        && extraVisible == [show, show]
        && expandedHoverArea ==
             if show then Inflate(RectangleFor(Primary(), PlacedDirection()), EXPANDED_HOVER_INFLATE) else EmptyRect
    {
      if !isDragging {
        ApplyPosition(false);
        ShowExtraButtons(hovered || IsExpandedHover(mx, my));
      } else {
        ShowExtraButtons(false);
      }
    }

    /** mouseClicked: a press over the button arms the drag and records the
        press time. `secondaryHandled` says whether a secondary button took
        the click and `baseHandled` what the widget base returns. */
    method MouseClicked(mx: int, my: int, now: int, secondaryHandled: bool, baseHandled: bool) returns (handled: bool)
      requires Valid()
      modifies this
      ensures Valid()
      ensures handled == (secondaryHandled || baseHandled)
      ensures old(IsMouseOver(mx, my)) ==> canDrag && mouseDownStart == now
      ensures !old(IsMouseOver(mx, my)) ==> canDrag == old(canDrag) && mouseDownStart == old(mouseDownStart)
      ensures isDragging == old(isDragging) && position == old(position) && x == old(x) && y == old(y)
      ensures extraRects == old(extraRects) && extraVisible == old(extraVisible)
      ensures expandedHoverArea == old(expandedHoverArea)
    {
      if IsMouseOver(mx, my) {
        canDrag := true;
        mouseDownStart := now;
      }
      if secondaryHandled {
        return true;
      }
      return baseHandled;
    }

    /** mouseDragged: once a press that began over the button has been held
        for MS_BEFORE_DRAG_START ms, dragging starts and the button follows
        the position computed under the pointer (`newPosition`, from
        ButtonPosition.calculate). Otherwise nothing happens. */
    method MouseDragged(mx: int, my: int, now: int, newPosition: Option<P>) returns (handled: bool)
      requires Valid()
      modifies this
      ensures Valid()
      ensures handled == (old(canDrag) && now - old(mouseDownStart) >= MS_BEFORE_DRAG_START)
      ensures !handled ==> unchanged(this)
      ensures handled ==> isDragging && position == (if newPosition.Some? then newPosition.value else old(position))
      ensures canDrag == old(canDrag) && mouseDownStart == old(mouseDownStart)
      ensures extraVisible == old(extraVisible) && expandedHoverArea == old(expandedHoverArea)
    {
      if canDrag && now - mouseDownStart >= MS_BEFORE_DRAG_START {
        isDragging := true;
        if newPosition.Some? {
          position := newPosition.value;
          ApplyPosition(false);
        }
        return true;
      }
      return false;
    }

    /** mouseReleased: always disarms. Ending a drag persists the position;
        otherwise a release over the button opens the ChestTracker screen. */
    method MouseReleased(mx: int, my: int) returns (handled: bool, action: ReleaseAction<P>)
      requires Valid()
      modifies this
      ensures Valid()
      ensures !canDrag && mouseDownStart == -1 && !isDragging
      ensures old(isDragging) ==> handled && action == PersistPosition(position)
      ensures !old(isDragging) ==> handled == IsMouseOver(mx, my)
      ensures !old(isDragging) ==> action == if handled then OpenScreen else NoAction
      ensures position == old(position) && x == old(x) && y == old(y) && extraRects == old(extraRects)
      ensures extraVisible == old(extraVisible) && expandedHoverArea == old(expandedHoverArea)
    {
      canDrag := false;
      mouseDownStart := -1;

      if isDragging {
        isDragging := false;
        return true, PersistPosition(position);
      } else if IsMouseOver(mx, my) {
        return true, OpenScreen;
      } else {
        return false, NoAction;
      }
    }
  }

  /** Pressing over the button and releasing 100 ms later without a drag is a
      click: it opens the screen and persists nothing. */
  method PressAndReleaseIsAClick<P(==)>(parent: Parent<P>, position: P) returns (handled: bool, action: ReleaseAction<P>)
    ensures handled && action == OpenScreen
  {
    var b := new InventoryButton(parent, position);
    var down := b.MouseClicked(b.x, b.y, 0, false, true);
    var moved := b.MouseDragged(b.x, b.y, 100, None);
    assert !moved;
    handled, action := b.MouseReleased(b.x, b.y);
  }

  /** Pressing at 0 ms and moving at 250 ms starts a drag; the secondary
      buttons stay hidden while the pointer hovers, and the release persists
      the new position. */
  method PressHoldAndDragMovesTheButton<P(==)>(parent: Parent<P>, position: P, target: P)
    returns (handled: bool, action: ReleaseAction<P>)
    ensures handled && action == PersistPosition(target)
  {
    var b := new InventoryButton(parent, position);
    var down := b.MouseClicked(b.x, b.y, 0, false, true);
    var moved := b.MouseDragged(b.x + 40, b.y, 250, Some(target));
    assert moved && b.isDragging && b.position == target;
    b.Render(b.x, b.y, true);
    assert b.extraVisible == [false, false] && b.expandedHoverArea == EmptyRect;
    handled, action := b.MouseReleased(b.x, b.y);
  }
}
