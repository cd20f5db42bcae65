/** The five-step tutorial dialog: it opens on mount unless it was seen before, steps forward and
    back within its five steps, and finishing or skipping it records that it was seen, closes it and
    notifies the owner. */
module Tutorial {
  const StepCount: int := 5
  const LastStep: int := StepCount - 1

  /** The "tutorial seen" record the dialog reads and writes. Its storage helpers are not part of
      this model (src/utils/localStorage.ts defines no such functions), so it is a plain flag. */
  class SeenFlag {
    var seen: bool

    constructor(seen: bool)
      ensures this.seen == seen
    {
      this.seen := seen;
    }
  }

  /** The step after a tap on "next" while the dialog stays open. */
  function NextStep(step: int): (r: int)
    requires 0 <= step < LastStep
    ensures 0 < r <= LastStep && r == step + 1
  {
    step + 1
  }

  /** The step after a tap on "back". */
  function PreviousStep(step: int): (r: int)
    requires 0 <= step <= LastStep
    ensures 0 <= r <= LastStep
    ensures step > 0 ==> r == step - 1
    ensures step == 0 ==> r == 0
  {
    if step > 0 then step - 1 else step
  }

  /** "Back" undoes "next". */
  lemma PreviousUndoesNext(step: int)
    requires 0 <= step < LastStep
    ensures PreviousStep(NextStep(step)) == step
  {
  }

  class Dialog {
    /** Whether the owner passed an onComplete callback. */
    const hasOnComplete: bool
    var open: bool
    var currentStep: int

    predicate Valid()
      reads this
    {
      0 <= currentStep <= LastStep
    }

    constructor(hasOnComplete: bool)
      ensures Valid() && this.hasOnComplete == hasOnComplete
      ensures !open && currentStep == 0
    {
      this.hasOnComplete := hasOnComplete;
      open := false;
      currentStep := 0;
    }

    /** The mount effect: opens the dialog unless the tutorial was seen before. */
    method Mount(flag: SeenFlag)
      modifies this`open
      ensures open == (old(open) || !flag.seen)
    {
      if !flag.seen {
        open := true;
      }
    }

    /** handleComplete: record, close, notify; the result says whether the owner was notified. */
    method HandleComplete(flag: SeenFlag) returns (notified: bool)
      modifies this`open, flag
      ensures flag.seen && !open && notified == hasOnComplete
    {
      flag.seen := true;
      open := false;
      notified := hasOnComplete;
    }

    /** handleSkip: the same as finishing. */
    method HandleSkip(flag: SeenFlag) returns (notified: bool)
      modifies this`open, flag
      ensures flag.seen && !open && notified == hasOnComplete
    {
      notified := HandleComplete(flag);
    }

    /** handleNext: one step forward, or the completion on the last step. */
    method HandleNext(flag: SeenFlag) returns (notified: bool)
      requires Valid()
      modifies this`currentStep, this`open, flag
      ensures Valid()
      ensures old(currentStep) < LastStep ==>
        currentStep == NextStep(old(currentStep)) && open == old(open) && flag.seen == old(flag.seen) && !notified
      ensures old(currentStep) == LastStep ==>
        currentStep == old(currentStep) && flag.seen && !open && notified == hasOnComplete
    {
      if currentStep < StepCount - 1 {
        currentStep := currentStep + 1;
        notified := false;
      } else {
        notified := HandleComplete(flag);
      }
    }

    /** handlePrevious: one step back, never below the first. */
    method HandlePrevious()
      requires Valid()
      modifies this`currentStep
      ensures Valid() && currentStep == PreviousStep(old(currentStep))
    {
      if currentStep > 0 {
        currentStep := currentStep - 1;
      }
    }

    /** The dialog's own open/close requests (the close button, the backdrop): no record is made. */
    method OpenChange(value: bool)
      modifies this`open
      ensures open == value
    {
      open := value;
    }
  }

  /** A first-time user who taps "next" through all five steps is notified exactly once, at the
      fifth tap, and the dialog never opens again. */
  method WalkThrough(d: Dialog, flag: SeenFlag) returns (notifications: nat)
    requires d.Valid() && d.currentStep == 0 && !flag.seen && !d.open
    modifies d, flag
    ensures notifications == (if d.hasOnComplete then 1 else 0)
    ensures flag.seen && !d.open && d.currentStep == LastStep
  {
    d.Mount(flag);
    notifications := 0;
    var taps := 0;
    while taps < StepCount
      invariant 0 <= taps <= StepCount && d.Valid()
      invariant taps < StepCount ==> d.currentStep == taps && d.open && !flag.seen && notifications == 0
      invariant taps == StepCount ==> d.currentStep == LastStep && !d.open && flag.seen
      invariant taps == StepCount ==> notifications == (if d.hasOnComplete then 1 else 0)
      decreases StepCount - taps
    {
      var notified := d.HandleNext(flag);
      if notified {
        notifications := notifications + 1;
      }
      taps := taps + 1;
    }
    var again := new Dialog(d.hasOnComplete);
    again.Mount(flag);
    assert !again.open;
  }
}
