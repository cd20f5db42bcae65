/** The game card's swipe recogniser for touch and mouse: it tracks a start and a current point,
    shows a live direction hint while dragging, and on release classifies the drag as left, right,
    up or nothing. Animation frames and the safety timeout are explicit events; the callbacks and
    haptic pulses a handler issues are returned as a sequence of effects. */
module UseSwipe {
  import opened Types
  import opened Events

  /** Pixels of travel before the live hint shows a direction. */
  const HintThreshold: real := 30.0
  /** The screen width assumed when there is no window. */
  const DefaultScreenWidth: real := 390.0
  /** Milliseconds after a start at which an unfinished gesture is abandoned. */
  const SafetyTimeoutMs: int := 3000

  /** The commit distance: 40% of the screen width (measured at release). */
  function MinSwipeDistance(screenWidth: Option<real>): (d: real)
    ensures screenWidth.None? ==> d == 156.0
    ensures screenWidth.Some? ==> d == screenWidth.value * 0.4
  {
    (if screenWidth.Some? then screenWidth.value else DefaultScreenWidth) * 0.4
  }

  /** The live direction while dragging by (dx, dy); screen y grows downwards. */
  function Hint(dx: real, dy: real): (d: Option<Direction>)
    ensures d.Some? ==> Abs(dx) > HintThreshold || Abs(dy) > HintThreshold
    ensures d == Some(Right) <==> Abs(dx) > Abs(dy) && dx > 0.0 && Abs(dx) > HintThreshold
    ensures d == Some(Left) <==> Abs(dx) > Abs(dy) && dx < 0.0 && Abs(dx) > HintThreshold
    ensures d == Some(Up) <==> Abs(dx) <= Abs(dy) && dy < 0.0 && Abs(dy) > HintThreshold
  {
    var direction :=
      if Abs(dx) > Abs(dy) then (if dx > 0.0 then Some(Right) else Some(Left))
      else if dy < 0.0 then Some(Up)
      else None;
    if (if Abs(dx) > Abs(dy) then Abs(dx) else Abs(dy)) > HintThreshold then direction else None
  }

  /** The release decision for a drag of (dx, dy) against the commit distance. */
  function Classify(dx: real, dy: real, minDist: real): (d: Option<Direction>)
    ensures d == Some(Right) <==> Abs(dx) > Abs(dy) && Abs(dx) > minDist && dx > 0.0
    ensures d == Some(Left) <==> Abs(dx) > Abs(dy) && Abs(dx) > minDist && dx < 0.0
    ensures d == Some(Up) <==> Abs(dx) <= Abs(dy) && Abs(dy) > minDist && dy < 0.0
  {
    if Abs(dx) > Abs(dy) then
      if Abs(dx) > minDist then (if dx > 0.0 then Some(Right) else Some(Left)) else None
    else if Abs(dy) > minDist && dy < 0.0 then Some(Up)
    else None
  }

  /** What a release issues: a medium haptic and the matching callback when a direction is
      recognised, then always the end callback. */
  function ReleaseEffects(dx: real, dy: real, minDist: real): (es: seq<Effect>)
    ensures |es| > 0 && es[|es| - 1] == SwipeEnd
    ensures Classify(dx, dy, minDist).None? ==> es == [SwipeEnd]
    ensures Classify(dx, dy, minDist).Some? ==>
      es == [Haptic(Medium), Callback(Classify(dx, dy, minDist).value), SwipeEnd]
  {
    match Classify(dx, dy, minDist)
    case Some(d) => [Haptic(Medium), Callback(d), SwipeEnd]
    case None => [SwipeEnd]
  }

  /** A release issues at most one directional callback. */
  predicate IsDirectional(e: Effect) {
    e.SwipeLeft? || e.SwipeRight? || e.SwipeUp?
  }

  function CountDirectional(es: seq<Effect>): nat {
    if |es| == 0 then 0 else (if IsDirectional(es[0]) then 1 else 0) + CountDirectional(es[1..])
  }

  lemma AtMostOneCallback(dx: real, dy: real, minDist: real)
    ensures CountDirectional(ReleaseEffects(dx, dy, minDist)) <= 1
    ensures CountDirectional(ReleaseEffects(dx, dy, minDist)) == 1 <==> Classify(dx, dy, minDist).Some?
  {
    var es := ReleaseEffects(dx, dy, minDist);
    assert CountDirectional([SwipeEnd]) == 0 by { assert [SwipeEnd][1..] == []; }
    if Classify(dx, dy, minDist).Some? {
      var d := Classify(dx, dy, minDist).value;
      assert es[1..] == [Callback(d), SwipeEnd];
      assert es[1..][1..] == [SwipeEnd];
    }
  }

  /** The commit distance is a strict bound: a drag of exactly that length, in any of the three
      directions, fires nothing. */
  lemma ThresholdIsStrict(minDist: real)
    requires minDist >= 0.0
    ensures Classify(minDist, 0.0, minDist).None?
    ensures Classify(-minDist, 0.0, minDist).None?
    ensures Classify(0.0, -minDist, minDist).None?
  {
  }

  /** A drag whose vertical part points down never fires, whatever its length. */
  lemma DownwardNeverFires(dx: real, dy: real, minDist: real)
    requires dy >= 0.0 && Abs(dx) <= Abs(dy)
    ensures Classify(dx, dy, minDist).None?
  {
  }

  /** Mirroring a drag left-right swaps the two horizontal decisions and keeps the others. */
  lemma MirrorSymmetry(dx: real, dy: real, minDist: real)
    ensures Classify(dx, dy, minDist) == Some(Right) <==> Classify(-dx, dy, minDist) == Some(Left)
    ensures Classify(dx, dy, minDist) == Some(Up) <==> Classify(-dx, dy, minDist) == Some(Up)
  {
  }

  /** Once the commit distance is at least the hint threshold, a recognised swipe was already
      announced by the live hint for the same drag. */
  lemma HintAnnouncesCommit(dx: real, dy: real, minDist: real)
    requires minDist >= HintThreshold
    requires Classify(dx, dy, minDist).Some?
    ensures Hint(dx, dy) == Classify(dx, dy, minDist)
  {
  }

  /** The displayed state of the recogniser. */
  datatype SwipeState = SwipeState(
    isSwiping: bool,
    swipeDirection: Option<Direction>,
    horizontalDistance: real,
    absoluteDistance: real)

  const Idle: SwipeState := SwipeState(false, None, 0.0, 0.0)
  const Started: SwipeState := SwipeState(true, None, 0.0, 0.0)

  /** The state an animation frame displays for a drag of (dx, dy). */
  function Tracking(dx: real, dy: real): (s: SwipeState)
    ensures s.isSwiping && s.horizontalDistance == dx
    ensures s.absoluteDistance == (if Abs(dx) > Abs(dy) then Abs(dx) else Abs(dy))
    ensures s.absoluteDistance >= Abs(dx) && s.absoluteDistance >= Abs(dy)
    ensures s.swipeDirection == Hint(dx, dy)
  {
    SwipeState(true, Hint(dx, dy), dx, if Abs(dx) > Abs(dy) then Abs(dx) else Abs(dy))
  }

  class SwipeRecognizer {
    var startX: real
    var startY: real
    var currentX: real
    var currentY: real
    var isMouseDown: bool
    /** An animation frame is requested and not cancelled. */
    var framePending: bool
    /** The safety timeout is armed. */
    var safetyPending: bool
    var state: SwipeState

    constructor()
      ensures state == Idle && !isMouseDown && !framePending && !safetyPending
      ensures startX == 0.0 && startY == 0.0 && currentX == 0.0 && currentY == 0.0
    {
      startX, startY, currentX, currentY := 0.0, 0.0, 0.0, 0.0;
      isMouseDown := false;
      framePending := false;
      safetyPending := false;
      state := Idle;
    }

    /** resetSwipeState: cancels the timers and shows the idle state; the points are kept. */
    method Reset()
      modifies this`safetyPending, this`framePending, this`state
      ensures state == Idle && !safetyPending && !framePending
    {
      safetyPending := false;
      framePending := false;
      state := Idle;
    }

    method Begin(x: real, y: real) returns (effects: seq<Effect>)
      modifies this`startX, this`startY, this`currentX, this`currentY, this`state, this`safetyPending
      ensures startX == x && currentX == x && startY == y && currentY == y
      ensures state == Started && safetyPending
      ensures effects == [SwipeStart]
    {
      startX, currentX := x, x;
      startY, currentY := y, y;
      state := Started;
      safetyPending := true;
      effects := [SwipeStart];
    }

    method TouchStart(x: real, y: real) returns (effects: seq<Effect>)
      modifies this`startX, this`startY, this`currentX, this`currentY, this`state, this`safetyPending
      ensures startX == x && currentX == x && startY == y && currentY == y
      ensures state == Started && safetyPending
      ensures effects == [SwipeStart]
    {
      effects := Begin(x, y);
    }

    method MouseDown(x: real, y: real) returns (effects: seq<Effect>)
      modifies this`startX, this`startY, this`currentX, this`currentY, this`state, this`safetyPending, this`isMouseDown
      ensures isMouseDown
      ensures startX == x && currentX == x && startY == y && currentY == y
      ensures state == Started && safetyPending
      ensures effects == [SwipeStart]
    {
      isMouseDown := true;
      effects := Begin(x, y);
    }

    /** Records the pointer and requests a frame, replacing a pending one. */
    method Track(x: real, y: real)
      modifies this`currentX, this`currentY, this`framePending
      ensures currentX == x && currentY == y && framePending
    {
      currentX, currentY := x, y;
      framePending := true;
    }

    /** A touch move counts only while a swipe is shown. */
    method TouchMove(x: real, y: real)
      modifies this`currentX, this`currentY, this`framePending
      ensures state.isSwiping ==> currentX == x && currentY == y && framePending
      ensures !state.isSwiping ==> currentX == old(currentX) && currentY == old(currentY) && framePending == old(framePending)
    {
      if !state.isSwiping {
        return;
      }
      Track(x, y);
    }

    /** A mouse move anywhere on the page counts only while the button is down. */
    method MouseMove(x: real, y: real)
      modifies this`currentX, this`currentY, this`framePending
      ensures isMouseDown ==> currentX == x && currentY == y && framePending
      ensures !isMouseDown ==> currentX == old(currentX) && currentY == old(currentY) && framePending == old(framePending)
    {
      if !isMouseDown {
        return;
      }
      Track(x, y);
    }

    /** The requested frame runs: the display follows the latest point. */
    method AnimationFrame()
      modifies this`state, this`framePending
      ensures old(framePending) ==> state == Tracking(currentX - startX, currentY - startY) && !framePending
      ensures !old(framePending) ==> state == old(state) && !framePending
    {
      if framePending {
        state := Tracking(currentX - startX, currentY - startY);
        framePending := false;
      }
    }

    /** Touch end classifies the drag whether or not a swipe is shown, then resets. */
    method TouchEnd(screenWidth: Option<real>) returns (effects: seq<Effect>)
      modifies this`safetyPending, this`framePending, this`state
      ensures effects == ReleaseEffects(currentX - startX, currentY - startY, MinSwipeDistance(screenWidth))
      ensures state == Idle && !safetyPending && !framePending
    {
      effects := ReleaseEffects(currentX - startX, currentY - startY, MinSwipeDistance(screenWidth));
      Reset();
    }

    method TouchCancel() returns (effects: seq<Effect>)
      modifies this`safetyPending, this`framePending, this`state
      ensures effects == [SwipeEnd]
      ensures state == Idle && !safetyPending && !framePending
    {
      Reset();
      effects := [SwipeEnd];
    }

    /** A mouse release anywhere on the page, ignored unless the button was down. */
    method MouseUp(screenWidth: Option<real>) returns (effects: seq<Effect>)
      modifies this`safetyPending, this`framePending, this`state, this`isMouseDown
      ensures old(isMouseDown) ==>
        effects == ReleaseEffects(currentX - startX, currentY - startY, MinSwipeDistance(screenWidth))
        && state == Idle && !safetyPending && !framePending && !isMouseDown
      ensures !old(isMouseDown) ==>
        effects == [] && state == old(state) && safetyPending == old(safetyPending)
        && framePending == old(framePending) && !isMouseDown
    {
      if !isMouseDown {
        return [];
      }
      effects := ReleaseEffects(currentX - startX, currentY - startY, MinSwipeDistance(screenWidth));
      isMouseDown := false;
      Reset();
    }

    /** The safety timeout fires: the gesture is abandoned with an end callback and no direction.
        A held mouse button stays down. */
    method SafetyTimeoutFires() returns (effects: seq<Effect>)
      requires safetyPending
      modifies this`safetyPending, this`framePending, this`state
      ensures effects == [SwipeEnd] && CountDirectional(effects) == 0
      ensures state == Idle && !safetyPending && !framePending
    {
      Reset();
      effects := [SwipeEnd];
    }
  }

  /** A touch swipe from start to release fires the callback that the drag classifies as. */
  method TouchSwipe(r: SwipeRecognizer, x0: real, y0: real, x1: real, y1: real, width: real)
    returns (effects: seq<Effect>)
    modifies r
    ensures effects == [SwipeStart] + ReleaseEffects(x1 - x0, y1 - y0, width * 0.4)
    ensures r.state == Idle
  {
    var started := r.TouchStart(x0, y0);
    r.TouchMove(x1, y1);
    r.AnimationFrame();
    var ended := r.TouchEnd(Some(width));
    effects := started + ended;
  }
}
