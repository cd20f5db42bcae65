/** Observable effects that the modelled handlers request from collaborators outside the model:
    haptic pulses, the callbacks a gesture recogniser fires, and navigation between screens. */
module Events {

  datatype Direction = Left | Right | Up

  /** `Math.abs`, for the gesture distances. */
  function Abs(x: real): (r: real)
    ensures r >= 0.0 && (r == x || r == -x)
  {
    if x < 0.0 then -x else x
  }

  datatype Intensity = Light | Medium | Heavy

  /** One request or callback, in the order a handler issues it. */
  datatype Effect =
    | Haptic(intensity: Intensity)
    | SwipeLeft
    | SwipeRight
    | SwipeUp
    | SwipeStart
    | SwipeEnd

  /** The callback that reports a swipe in direction `d`. */
  function Callback(d: Direction): (e: Effect)
    ensures e.SwipeLeft? <==> d == Left
    ensures e.SwipeRight? <==> d == Right
    ensures e.SwipeUp? <==> d == Up
  {
    match d
    case Left => SwipeLeft
    case Right => SwipeRight
    case Up => SwipeUp
  }

  /** Screens the handlers navigate to. */
  datatype Route = HomeRoute | SetupRoute | TutorialRoute | GameRoute | SettingsRoute | StatisticsRoute
}
