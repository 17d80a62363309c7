/** A run ends because it was asked to, and for no other reason. */
module MessageLoopQuit {
  import opened PendingTasks
  import opened MessageLoops
  import opened MessageLoopSafety
  import opened MessageLoopIdle

  /** No task of the run at this place calls Quit or QuitNow; those of nested runs may, for themselves. */
  ghost predicate IsNotAsked(s: State, steps: seq<Step>, place: nat)
    requires Possible(s, steps)
    decreases |steps|
  {
    steps != [] ==>
      && (steps[0] == Quit || steps[0] == QuitNow ==> |s.frames| != place + 1)
      && IsNotAsked(Do(s, steps[0]), steps[1..], place)
  }

  /** The run at this place is to go on, whatever becomes of those nested in it. */
  ghost predicate IsToGoOn(s: State, place: nat) {
    place < |s.frames| && !s.frames[place].quitReceived && (s.keepRunning || |s.frames| > place + 1)
  }

  lemma PumpKeepsGoing(s: State, top: nat, place: nat)
    requires PumpEnabled(s, top) && IsToGoOn(s, place)
    requires s.Top().pc.Holding? || s.Top().pc.DoDelayedWork? || s.Top().pc.Reload? || s.Top().pc.Drain?
    ensures |DoPump(s, top).frames| == |s.frames| && DoPump(s, top).keepRunning == s.keepRunning
  {
  }

  lemma IdleKeepsGoing(s: State, top: nat, place: nat)
    requires PumpEnabled(s, top) && IsToGoOn(s, place)
    requires s.Top().pc.DoIdleWork? || s.Top().pc.DoWork? || Rests(s.Top().pc)
    ensures |DoPump(s, top).frames| == |s.frames|
    ensures |s.frames| == place + 1 ==> DoPump(s, top).keepRunning
  {
  }

  lemma CheckKeepsGoing(s: State, top: nat, place: nat)
    requires PumpEnabled(s, top) && IsToGoOn(s, place)
    requires s.Top().pc.AfterDoWork? || s.Top().pc.AfterDelayedWork? || s.Top().pc.AfterIdleWork?
    ensures var s' := DoPump(s, top); s'.keepRunning && place < |s'.frames|
  {
  }

  lemma OthersKeepGoing(s: State, step: Step, place: nat)
    requires Enabled(s, step) && !step.Pump? && IsToGoOn(s, place)
    requires step == Quit || step == QuitNow ==> |s.frames| != place + 1
    ensures IsToGoOn(Do(s, step), place)
  {
  }

  lemma StepKeepsGoing(s: State, step: Step, place: nat)
    requires Enabled(s, step) && IsToGoOn(s, place)
    requires step == Quit || step == QuitNow ==> |s.frames| != place + 1
    ensures IsToGoOn(Do(s, step), place)
  {
    match step
    case Pump(top) =>
      PumpKeepsQuits(s, top);
      var pc := s.Top().pc;
      if pc.AfterDoWork? || pc.AfterDelayedWork? || pc.AfterIdleWork? { CheckKeepsGoing(s, top, place); }
      else if pc.DoIdleWork? || pc.DoWork? || Rests(pc) { IdleKeepsGoing(s, top, place); }
      else { PumpKeepsGoing(s, top, place); }
    case _ => OthersKeepGoing(s, step, place);
  }

  lemma {:induction false} UnaskedGoesOn(s: State, steps: seq<Step>, place: nat)
    requires Possible(s, steps) && IsNotAsked(s, steps, place) && IsToGoOn(s, place)
    ensures GoesOn(s, steps, place) && IsToGoOn(After(s, steps), place)
    decreases |steps|
  {
    if steps != [] {
      StepKeepsGoing(s, steps[0], place);
      UnaskedGoesOn(Do(s, steps[0]), steps[1..], place);
    }
  }
}
