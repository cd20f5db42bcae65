/** The vertical-only swipe recogniser: a gesture is assumed vertical from its start, abandoned as
    soon as it turns clearly horizontal, and reported as an upward swipe on release when it went far
    enough up. */
module UseVerticalSwipe {
  import opened Types
  import opened Events

  /** Pixels a release must travel vertically. */
  const MinSwipeDistance: real := 100.0
  /** Pixels of horizontal travel that mark a gesture as horizontal. */
  const DirectionThreshold: real := 30.0

  /** A move that dominates horizontally beyond the direction threshold abandons the gesture. */
  predicate TurnsHorizontal(dx: real, dy: real) {
    Abs(dx) > Abs(dy) && Abs(dx) > DirectionThreshold
  }

  /** A release that dominates vertically beyond the minimum distance and points up reports a swipe. */
  predicate FiresUp(dx: real, dy: real) {
    Abs(dy) > Abs(dx) && Abs(dy) > MinSwipeDistance && dy < 0.0
  }

  /** The effects of a release of a gesture still taken as vertical. */
  function ReleaseEffects(dx: real, dy: real): (es: seq<Effect>)
    ensures FiresUp(dx, dy) ==> es == [Haptic(Medium), SwipeUp]
    ensures !FiresUp(dx, dy) ==> es == []
  {
    if Abs(dy) > Abs(dx) && Abs(dy) > MinSwipeDistance then
      if dy < 0.0 then [Haptic(Medium), SwipeUp] else []
    else []
  }

  /** A downward or mostly horizontal release never reports a swipe. */
  lemma OnlyUpFires(dx: real, dy: real)
    ensures dy >= 0.0 ==> ReleaseEffects(dx, dy) == []
    ensures Abs(dx) >= Abs(dy) ==> ReleaseEffects(dx, dy) == []
    ensures ReleaseEffects(dx, dy) != [] ==> dy < -MinSwipeDistance
  {
  }

  /** A drag that fires was never horizontal enough to be abandoned at that point. */
  lemma FiringIsNotAborting(dx: real, dy: real)
    requires FiresUp(dx, dy)
    ensures !TurnsHorizontal(dx, dy)
  {
  }

  class VerticalSwipe {
    var startX: real
    var startY: real
    var currentX: real
    var currentY: real
    var isMouseDown: bool
    var isVerticalSwipe: bool

    constructor()
      ensures !isMouseDown && !isVerticalSwipe
      ensures startX == 0.0 && startY == 0.0 && currentX == 0.0 && currentY == 0.0
    {
      startX, startY, currentX, currentY := 0.0, 0.0, 0.0, 0.0;
      isMouseDown := false;
      isVerticalSwipe := false;
    }

    /** Touch start: start = current = the touch point; the gesture is taken as vertical. */
    method TouchStart(x: real, y: real)
      modifies this`startX, this`startY, this`currentX, this`currentY, this`isVerticalSwipe
      ensures startX == x && currentX == x && startY == y && currentY == y && isVerticalSwipe
    {
      startX, startY, currentX, currentY := x, y, x, y;
      isVerticalSwipe := true;
    }

    /** Records a move of a vertical gesture and abandons it if it turned horizontal. */
    method Follow(x: real, y: real)
      requires isVerticalSwipe
      modifies this`currentX, this`currentY, this`isVerticalSwipe
      ensures currentX == x && currentY == y
      ensures isVerticalSwipe == !TurnsHorizontal(x - startX, y - startY)
    {
      currentX, currentY := x, y;
      var distanceX := Abs(currentX - startX);
      var distanceY := Abs(currentY - startY);
      if distanceX > distanceY && distanceX > DirectionThreshold {
        isVerticalSwipe := false;
        return;
      }
    }

    /** Touch move: ignored once the gesture was abandoned. */
    method TouchMove(x: real, y: real)
      modifies this`currentX, this`currentY, this`isVerticalSwipe
      ensures !old(isVerticalSwipe) ==> currentX == old(currentX) && currentY == old(currentY) && !isVerticalSwipe
      ensures old(isVerticalSwipe) ==>
        currentX == x && currentY == y && isVerticalSwipe == !TurnsHorizontal(x - startX, y - startY)
    {
      if !isVerticalSwipe {
        return;
      }
      Follow(x, y);
    }

    /** Touch end: an abandoned gesture fires nothing; either way the next gesture is re-armed. */
    method TouchEnd() returns (effects: seq<Effect>)
      modifies this`isVerticalSwipe
      ensures isVerticalSwipe
      ensures !old(isVerticalSwipe) ==> effects == []
      ensures old(isVerticalSwipe) ==> effects == ReleaseEffects(currentX - startX, currentY - startY)
    {
      if !isVerticalSwipe {
        isVerticalSwipe := true;
        return [];
      }
      effects := ReleaseEffects(currentX - startX, currentY - startY);
      isVerticalSwipe := true;
    }

    method MouseDown(x: real, y: real)
      modifies this`startX, this`startY, this`currentX, this`currentY, this`isVerticalSwipe, this`isMouseDown
      ensures isMouseDown && isVerticalSwipe
      ensures startX == x && currentX == x && startY == y && currentY == y
    {
      isMouseDown := true;
      startX, startY, currentX, currentY := x, y, x, y;
      isVerticalSwipe := true;
    }

    /** Mouse move: ignored without a pressed button or once the gesture was abandoned. */
    method MouseMove(x: real, y: real)
      modifies this`currentX, this`currentY, this`isVerticalSwipe
      ensures !(old(isMouseDown) && old(isVerticalSwipe)) ==>
        currentX == old(currentX) && currentY == old(currentY) && isVerticalSwipe == old(isVerticalSwipe)
      ensures old(isMouseDown) && old(isVerticalSwipe) ==>
        currentX == x && currentY == y && isVerticalSwipe == !TurnsHorizontal(x - startX, y - startY)
    {
      if !isMouseDown || !isVerticalSwipe {
        return;
      }
      Follow(x, y);
    }

    /** Mouse up: ignored without a pressed button; otherwise as touch end, and the button is up. */
    method MouseUp() returns (effects: seq<Effect>)
      modifies this`isMouseDown, this`isVerticalSwipe
      ensures !old(isMouseDown) ==> effects == [] && !isMouseDown && isVerticalSwipe == old(isVerticalSwipe)
      ensures old(isMouseDown) ==> !isMouseDown && isVerticalSwipe
      ensures old(isMouseDown) && !old(isVerticalSwipe) ==> effects == []
      ensures old(isMouseDown) && old(isVerticalSwipe) ==> effects == ReleaseEffects(currentX - startX, currentY - startY)
    {
      if !isMouseDown {
        return [];
      }
      if !isVerticalSwipe {
        isMouseDown := false;
        isVerticalSwipe := true;
        return [];
      }
      effects := ReleaseEffects(currentX - startX, currentY - startY);
      isMouseDown := false;
      isVerticalSwipe := true;
    }
  }

  /** Once a touch gesture turns horizontal it reports nothing, wherever it is released. */
  method AbandonedGesture(v: VerticalSwipe, x0: real, y0: real, x1: real, y1: real, x2: real, y2: real)
    returns (effects: seq<Effect>)
    requires TurnsHorizontal(x1 - x0, y1 - y0)
    modifies v
    ensures effects == [] && v.isVerticalSwipe
  {
    v.TouchStart(x0, y0);
    v.TouchMove(x1, y1);
    v.TouchMove(x2, y2);
    effects := v.TouchEnd();
  }
}
