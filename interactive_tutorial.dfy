/** The interactive swipe tutorial: a welcome step, then three steps that each ask for one swipe
    direction. A correct swipe arms the step, and an 800 ms timer (an explicit event here) then
    moves on; finishing or skipping leaves for the game, or back to the settings screen when the
    tutorial was opened from there. Sounds are left out; haptics are effects, requested only when
    the user's haptic setting is on. */
module InteractiveTutorial {
  import opened Types
  import opened Events
  import opened LocalStorage
  import GameScreen
  import Setup

  const StepCount: int := 4
  const LastStep: int := StepCount - 1
  /** The delay of the automatic advance after a correct swipe; the model fires it explicitly. */
  const AutoAdvanceMs: int := 800

  /** The swipe each step asks for; the welcome step asks for none. */
  function RequiredSwipe(step: int): Option<Direction>
    requires 0 <= step < StepCount
  {
    if step == 1 then Some(Right)
    else if step == 2 then Some(Left)
    else if step == 3 then Some(Up)
    else None
  }

  /** Each direction is taught by exactly one step, and only the welcome step asks for nothing. */
  lemma EachDirectionTaughtOnce(d: Direction)
    ensures RequiredSwipe(0).None?
    ensures forall s :: 1 <= s < StepCount ==> RequiredSwipe(s).Some?
    ensures exists s :: 1 <= s < StepCount && RequiredSwipe(s) == Some(d)
    ensures forall s, t :: 1 <= s < t < StepCount ==> RequiredSwipe(s) != RequiredSwipe(t)
  {
    match d
    case Right => assert RequiredSwipe(1) == Some(d);
    case Left => assert RequiredSwipe(2) == Some(d);
    case Up => assert RequiredSwipe(3) == Some(d);
  }

  /** Whether a swipe arms the step: any swipe on the welcome step, the required one afterwards. */
  predicate Accepts(step: int, d: Direction)
    requires 0 <= step < StepCount
  {
    step == 0 || RequiredSwipe(step) == Some(d)
  }

  /** On a swipe step exactly one direction is accepted. */
  lemma OneDirectionPerSwipeStep(step: int, d: Direction, e: Direction)
    requires 1 <= step < StepCount && Accepts(step, d) && Accepts(step, e)
    ensures d == e
  {
  }

  /** Where the tutorial was opened from: the setup screen hands over its selections, the settings
      screen marks itself. */
  datatype Arrival = FromSetup(selections: Setup.Selections) | FromSettings | Direct

  /** Where the tutorial is left for. */
  datatype Exit = ExitToSettings | ExitToGame(nav: GameScreen.NavState)

  /** The router state passed on to the game: the players and categories from the setup screen. */
  function Forwarded(arrival: Arrival): (nav: GameScreen.NavState)
    ensures nav.deck.None? && nav.currentIndex.None? && nav.currentPlayerIndex.None? && nav.cardAccepted.None?
    ensures arrival.FromSetup? ==>
      nav.players == Some(arrival.selections.players) && nav.selectedCategories == Some(arrival.selections.categories)
    ensures !arrival.FromSetup? ==> nav.players.None? && nav.selectedCategories.None?
  {
    match arrival
    case FromSetup(sel) => GameScreen.NavState(Some(sel.players), Some(sel.categories), None, None, None, None)
    case _ => GameScreen.NavState(None, None, None, None, None, None)
  }

  /** The exit on completion, and on a skip that does not come from the settings. */
  function Leave(arrival: Arrival): (e: Exit)
    ensures e == ExitToSettings <==> arrival.FromSettings?
  {
    if arrival.FromSettings? then ExitToSettings else ExitToGame(Forwarded(arrival))
  }

  class Tutorial {
    const arrival: Arrival
    var currentStep: int
    var canProceed: bool
    var exit: Option<Exit>

    predicate Valid()
      reads this
    {
      0 <= currentStep < StepCount
    }

    constructor(arrival: Arrival)
      ensures Valid() && this.arrival == arrival
      ensures currentStep == 0 && !canProceed && exit.None?
    {
      this.arrival := arrival;
      currentStep := 0;
      canProceed := false;
      exit := None;
    }

    /** handleSwipe: an accepted swipe arms the step (a medium haptic on a swipe step, a light one on
        the welcome step); a wrong swipe only gives a light haptic. The haptic is requested only when
        the haptic setting is on. The step never changes here. */
    method HandleSwipe(d: Direction, hapticEnabled: bool) returns (effects: seq<Effect>)
      requires Valid()
      modifies this`canProceed
      ensures canProceed == (old(canProceed) || Accepts(currentStep, d))
      ensures !hapticEnabled ==> effects == []
      ensures hapticEnabled ==>
        effects == [Haptic(if currentStep > 0 && Accepts(currentStep, d) then Medium else Light)]
    {
      var intensity: Intensity;
      if currentStep == 0 {
        canProceed := true;
        intensity := Light;
      } else if RequiredSwipe(currentStep) == Some(d) {
        canProceed := true;
        intensity := Medium;
      } else {
        intensity := Light;
      }
      effects := if hapticEnabled then [Haptic(intensity)] else [];
    }

    /** completeTutorial: the tutorial is marked as shown whatever the way out. */
    method CompleteTutorial(store: LocalStore)
      modifies this`exit, store
      ensures exit == Some(Leave(arrival))
      ensures store.available == old(store.available)
      ensures store.entries == WriteItem(old(store.entries), store.available, InteractiveTutorialShownKey, Text("true"))
    {
      store.MarkInteractiveTutorialAsShown();
      exit := Some(Leave(arrival));
    }

    /** handleNext: refused on an unarmed swipe step; otherwise the next step (disarmed), or the
        completion on the last one. */
    method HandleNext(store: LocalStore)
      requires Valid()
      modifies this`currentStep, this`canProceed, this`exit, store
      ensures Valid()
      ensures store.available == old(store.available)
      ensures !old(canProceed) && old(currentStep) > 0 ==>
        currentStep == old(currentStep) && canProceed == old(canProceed) && exit == old(exit)
        && store.entries == old(store.entries)
      ensures (old(canProceed) || old(currentStep) == 0) && old(currentStep) < LastStep ==>
        currentStep == old(currentStep) + 1 && !canProceed && exit == old(exit)
        && store.entries == old(store.entries)
      ensures (old(canProceed) || old(currentStep) == 0) && old(currentStep) == LastStep ==>
        currentStep == old(currentStep) && canProceed == old(canProceed) && exit == Some(Leave(arrival))
        && store.entries == WriteItem(old(store.entries), store.available, InteractiveTutorialShownKey, Text("true"))
    {
      if !canProceed && currentStep > 0 {
        return;
      }
      if currentStep == LastStep {
        CompleteTutorial(store);
      } else {
        currentStep := currentStep + 1;
        canProceed := false;
      }
    }

    /** handleSkip: from the settings screen it goes back without marking; otherwise it marks the
        tutorial as shown and goes to the game. */
    method HandleSkip(store: LocalStore)
      modifies this`exit, store
      ensures store.available == old(store.available)
      ensures exit == Some(Leave(arrival))
      ensures arrival.FromSettings? ==> store.entries == old(store.entries)
      ensures !arrival.FromSettings? ==>
        store.entries == WriteItem(old(store.entries), store.available, InteractiveTutorialShownKey, Text("true"))
    {
      if arrival.FromSettings? {
        exit := Some(ExitToSettings);
      } else {
        store.MarkInteractiveTutorialAsShown();
        exit := Some(ExitToGame(Forwarded(arrival)));
      }
    }

    /** The 800 ms timer, running while a swipe step is armed, calls handleNext. */
    method AutoAdvanceFires(store: LocalStore)
      requires Valid() && canProceed && currentStep > 0
      modifies this`currentStep, this`canProceed, this`exit, store
      ensures Valid()
      ensures store.available == old(store.available)
      ensures old(currentStep) < LastStep ==>
        currentStep == old(currentStep) + 1 && !canProceed && exit == old(exit) && store.entries == old(store.entries)
      ensures old(currentStep) == LastStep ==>
        exit == Some(Leave(arrival))
        && store.entries == WriteItem(old(store.entries), store.available, InteractiveTutorialShownKey, Text("true"))
    {
      HandleNext(store);
    }
  }

  /** Following the instructions from the setup screen finishes the tutorial: the welcome step's
      button, then the three requested swipes, each followed by the automatic advance. The game opens
      with the chosen players and categories, and a working storage remembers that the tutorial was
      shown, so the next start from the setup screen goes straight to the game. */
  method FollowInstructions(t: Tutorial, store: LocalStore, sel: Setup.Selections, hapticEnabled: bool)
    returns (haptics: seq<Effect>)
    requires t.Valid() && t.currentStep == 0 && t.arrival == FromSetup(sel)
    requires |sel.players| >= 2 && |sel.categories| > 0
    modifies t, store
    ensures t.exit == Some(ExitToGame(Forwarded(FromSetup(sel))))
    ensures store.available ==>
      Setup.Start(sel.players, sel.categories, TutorialShown(store.entries, store.available)).route == GameRoute
    ensures hapticEnabled ==> haptics == [Haptic(Medium), Haptic(Medium), Haptic(Medium)]
    ensures !hapticEnabled ==> haptics == []
  {
    t.HandleNext(store);
    var e1 := t.HandleSwipe(Right, hapticEnabled);
    t.AutoAdvanceFires(store);
    var e2 := t.HandleSwipe(Left, hapticEnabled);
    t.AutoAdvanceFires(store);
    var e3 := t.HandleSwipe(Up, hapticEnabled);
    t.AutoAdvanceFires(store);
    haptics := e1 + e2 + e3;
  }
}
