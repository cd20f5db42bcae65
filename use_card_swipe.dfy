/** The card's horizontal drag: the card follows the pointer and tilts with the distance; released
    past the threshold it flies out and, once the 300 ms animation is over, reports its direction;
    released short of it, it snaps back. The two 300 ms timers are explicit events; the callbacks
    still waiting for their timer are a queue. */
module UseCardSwipe {
  import opened Types
  import opened Events

  /** The default commit threshold as a fraction of the screen width. */
  const DefaultThreshold: real := 0.35
  /** The tilt while dragging is bounded by this many degrees... */
  const MaxDragRotation: real := 15.0
  /** ...and a card flying out is tilted by this many. */
  const FlyOutRotation: real := 30.0

  function Clamp(x: real, lo: real, hi: real): (r: real)
    requires lo <= hi
    ensures lo <= r <= hi
    ensures lo <= x <= hi ==> r == x
    ensures x < lo ==> r == lo
    ensures x > hi ==> r == hi
  {
    if x < lo then lo else if x > hi then hi else x
  }

  /** The tilt for a drag of `dx` pixels: proportional, 15 degrees at the threshold, clamped. */
  function Rotation(dx: real, thresholdPx: real): (r: real)
    requires thresholdPx > 0.0
    ensures -MaxDragRotation <= r <= MaxDragRotation
  {
    Clamp(dx / thresholdPx * MaxDragRotation, -MaxDragRotation, MaxDragRotation)
  }

  /** The tilt has the sign of the drag, is proportional below the threshold and saturates at it. */
  lemma RotationShape(dx: real, thresholdPx: real)
    requires thresholdPx > 0.0
    ensures dx > 0.0 ==> Rotation(dx, thresholdPx) > 0.0
    ensures dx < 0.0 ==> Rotation(dx, thresholdPx) < 0.0
    ensures dx == 0.0 ==> Rotation(dx, thresholdPx) == 0.0
    ensures -thresholdPx <= dx <= thresholdPx ==> Rotation(dx, thresholdPx) == dx / thresholdPx * MaxDragRotation
    ensures dx >= thresholdPx ==> Rotation(dx, thresholdPx) == MaxDragRotation
    ensures dx <= -thresholdPx ==> Rotation(dx, thresholdPx) == -MaxDragRotation
  {
    var q := dx / thresholdPx;
    assert dx == q * thresholdPx;
    if dx >= thresholdPx {
      assert q >= 1.0;
    } else if dx <= -thresholdPx {
      assert q <= -1.0;
    } else if -thresholdPx <= dx <= thresholdPx {
      assert -1.0 <= q <= 1.0;
    }
  }

  /** The tilt never decreases as the card moves further right. */
  lemma RotationMonotone(dx1: real, dx2: real, thresholdPx: real)
    requires thresholdPx > 0.0 && dx1 <= dx2
    ensures Rotation(dx1, thresholdPx) <= Rotation(dx2, thresholdPx)
  {
    assert dx1 / thresholdPx <= dx2 / thresholdPx by {
      assert dx2 / thresholdPx - dx1 / thresholdPx == (dx2 - dx1) / thresholdPx;
    }
  }

  /** The release decision: at or beyond the threshold (inclusive) the card leaves to the side of the
      drag. */
  function Decide(dx: real, thresholdPx: real): (d: Option<Direction>)
    requires thresholdPx > 0.0
    ensures d == Some(Right) <==> dx >= thresholdPx
    ensures d == Some(Left) <==> dx <= -thresholdPx
    ensures d.None? <==> -thresholdPx < dx < thresholdPx
  {
    if (if dx < 0.0 then -dx else dx) >= thresholdPx then Some(if dx > 0.0 then Right else Left) else None
  }

  /** The threshold itself commits. */
  lemma ThresholdIsInclusive(thresholdPx: real)
    requires thresholdPx > 0.0
    ensures Decide(thresholdPx, thresholdPx) == Some(Right)
    ensures Decide(-thresholdPx, thresholdPx) == Some(Left)
  {
  }

  datatype CardSwipeState = CardSwipeState(isDragging: bool, translateX: real, rotation: real, isAnimating: bool)

  /** Where the card flies to, and its tilt, for a committed direction. */
  function FlyOut(d: Direction, innerWidth: real): (s: CardSwipeState)
    requires d != Up
    ensures !s.isDragging && s.isAnimating
    ensures d == Right ==> s.translateX == innerWidth && s.rotation == FlyOutRotation
    ensures d == Left ==> s.translateX == -innerWidth && s.rotation == -FlyOutRotation
  {
    if d == Right then CardSwipeState(false, innerWidth, FlyOutRotation, true)
    else CardSwipeState(false, -innerWidth, -FlyOutRotation, true)
  }

  const SnapBack: CardSwipeState := CardSwipeState(false, 0.0, 0.0, true)

  class CardSwipe {
    /** The fraction of the screen width a drag must cover. */
    const threshold: real
    var startX: real
    var currentX: real
    var thresholdPx: real
    var state: CardSwipeState
    /** Directions whose 300 ms callback timer is running, oldest first. */
    var pendingCallbacks: seq<Direction>
    /** Snap-back timers still running. */
    var pendingSnapResets: nat

    predicate Valid()
      reads this
    {
      thresholdPx > 0.0 && threshold > 0.0 && forall k :: 0 <= k < |pendingCallbacks| ==> pendingCallbacks[k] != Up
    }

    constructor(innerWidth: real, fraction: real)
      requires innerWidth > 0.0 && fraction > 0.0
      ensures Valid()
      ensures threshold == fraction && thresholdPx == innerWidth * fraction
      ensures state == CardSwipeState(false, 0.0, 0.0, false)
      ensures startX == 0.0 && currentX == 0.0 && pendingCallbacks == [] && pendingSnapResets == 0
    {
      threshold := fraction;
      startX := 0.0;
      currentX := 0.0;
      thresholdPx := innerWidth * fraction;
      state := CardSwipeState(false, 0.0, 0.0, false);
      pendingCallbacks := [];
      pendingSnapResets := 0;
    }

    /** handleDragStart: remembers the point, re-reads the screen width and starts dragging. */
    method DragStart(clientX: real, innerWidth: real)
      requires Valid() && innerWidth > 0.0
      modifies this`startX, this`currentX, this`thresholdPx, this`state
      ensures Valid()
      ensures startX == clientX && currentX == clientX && thresholdPx == innerWidth * threshold
      ensures state == CardSwipeState(true, 0.0, 0.0, false)
    {
      startX := clientX;
      currentX := clientX;
      thresholdPx := innerWidth * threshold;
      state := CardSwipeState(true, 0.0, 0.0, false);
    }

    /** handleDragMove: the card follows the pointer and tilts; ignored unless dragging. */
    method DragMove(clientX: real)
      requires Valid()
      modifies this`currentX, this`state
      ensures Valid()
      ensures old(state).isDragging ==>
        currentX == clientX
        && state == old(state).(translateX := clientX - startX, rotation := Rotation(clientX - startX, thresholdPx))
      ensures !old(state).isDragging ==> currentX == old(currentX) && state == old(state)
    {
      if !state.isDragging {
        return;
      }
      currentX := clientX;
      var deltaX := clientX - startX;
      state := state.(translateX := deltaX, rotation := Rotation(deltaX, thresholdPx));
    }

    /** handleDragEnd: fly out and queue the callback, or snap back and queue the reset; ignored
        unless dragging. A fly-out issues a medium haptic at once. */
    method DragEnd(innerWidth: real) returns (effects: seq<Effect>)
      requires Valid()
      modifies this`state, this`pendingCallbacks, this`pendingSnapResets
      ensures Valid()
      ensures !old(state).isDragging ==>
        effects == [] && state == old(state) && pendingCallbacks == old(pendingCallbacks)
        && pendingSnapResets == old(pendingSnapResets)
      ensures old(state).isDragging ==> !state.isDragging && state.isAnimating
      ensures old(state).isDragging && Decide(currentX - startX, thresholdPx).Some? ==>
        var d := Decide(currentX - startX, thresholdPx).value;
        state == FlyOut(d, innerWidth) && effects == [Haptic(Medium)]
        && pendingCallbacks == old(pendingCallbacks) + [d] && pendingSnapResets == old(pendingSnapResets)
      ensures old(state).isDragging && Decide(currentX - startX, thresholdPx).None? ==>
        state == SnapBack && effects == []
        && pendingCallbacks == old(pendingCallbacks) && pendingSnapResets == old(pendingSnapResets) + 1
    {
      if !state.isDragging {
        return [];
      }
      var deltaX := currentX - startX;
      var absDeltaX := if deltaX < 0.0 then -deltaX else deltaX;
      if absDeltaX >= thresholdPx {
        var direction := if deltaX > 0.0 then Right else Left;
        state := FlyOut(direction, innerWidth);
        effects := [Haptic(Medium)];
        pendingCallbacks := pendingCallbacks + [direction];
      } else {
        state := SnapBack;
        effects := [];
        pendingSnapResets := pendingSnapResets + 1;
      }
    }

    /** The oldest fly-out timer fires its direction's callback. */
    method CallbackTimerFires() returns (effects: seq<Effect>)
      requires Valid() && |pendingCallbacks| > 0
      modifies this`pendingCallbacks
      ensures Valid()
      ensures effects == [Callback(old(pendingCallbacks)[0])] && pendingCallbacks == old(pendingCallbacks)[1..]
      ensures effects == [SwipeLeft] || effects == [SwipeRight]
    {
      effects := [Callback(pendingCallbacks[0])];
      pendingCallbacks := pendingCallbacks[1..];
    }

    /** A snap-back timer ends the animation. */
    method SnapTimerFires()
      requires Valid() && pendingSnapResets > 0
      modifies this`state, this`pendingSnapResets
      ensures Valid()
      ensures state == old(state).(isAnimating := false) && pendingSnapResets == old(pendingSnapResets) - 1
    {
      state := state.(isAnimating := false);
      pendingSnapResets := pendingSnapResets - 1;
    }
  }

  /** A drag to `x1` and release fires exactly the callback Decide names, after the haptic. */
  method DragAndRelease(c: CardSwipe, x0: real, x1: real, innerWidth: real) returns (effects: seq<Effect>)
    requires c.Valid() && innerWidth > 0.0 && c.pendingCallbacks == []
    modifies c
    ensures c.Valid() && !c.state.isDragging
    ensures Decide(x1 - x0, innerWidth * c.threshold).Some? ==>
      effects == [Haptic(Medium), Callback(Decide(x1 - x0, innerWidth * c.threshold).value)]
    ensures Decide(x1 - x0, innerWidth * c.threshold).None? ==> effects == [] && c.state == SnapBack
  {
    c.DragStart(x0, innerWidth);
    c.DragMove(x1);
    effects := c.DragEnd(innerWidth);
    if |c.pendingCallbacks| > 0 {
      var fired := c.CallbackTimerFires();
      effects := effects + fired;
    }
  }
}
