// App.Run goes on: when the barrier opens, what main waits for, and that from
// every state it can still become ready and still return without a timeout.
module LifecycleProgress {
  import opened Lifecycle

  // ---------------------------------------------------------------------
  // More that every run keeps
  // ---------------------------------------------------------------------

  ghost predicate Settled(s: State) {
    && (forall i :: 0 <= i < |s.watch| && s.watch[i] == GaveUp ==> s.cancelled)
    && (!s.stopper.Off? ==> s.cancelled)
    && (s.main.Returned? ==> (s.main.clean <==> !s.expired))
    && (s.expired ==> s.main.Draining? || s.main.Returned?)
    && (s.taken == if PastTaking(s) then s.taken else 0)
    && s.taken <= 1
  }

  predicate PastTaking(s: State) {
    s.main.Lowering? || PastServing(s)
  }

  lemma SettledStep(s: State, step: Step)
    requires Inv(s) && Settled(s) && Enabled(s, step)
    ensures Settled(Apply(s, step))
  {
    hide Inv;
    SettledWatch(s, step);
    SettledMain(s, step);
  }

  lemma SettledWatch(s: State, step: Step)
    requires Settled(s) && Enabled(s, step)
    ensures
      var u := Apply(s, step);
      && (forall i :: 0 <= i < |u.watch| && u.watch[i] == GaveUp ==> u.cancelled)
      && (!u.stopper.Off? ==> u.cancelled)
  {
  }

  lemma SettledMain(s: State, step: Step)
    requires Settled(s) && Enabled(s, step)
    ensures
      var u := Apply(s, step);
      && (u.main.Returned? ==> (u.main.clean <==> !u.expired))
      && (u.expired ==> u.main.Draining? || u.main.Returned?)
      && (!PastTaking(u) ==> u.taken == 0)
      && u.taken <= 1
  {
  }

  lemma {:induction false} RunIsSettled(run: Run, i: nat)
    requires Legal(run) && i < |run.states|
    ensures Inv(run.states[i]) && Settled(run.states[i])
  {
    hide Inv, Settled, Init, Enabled, Apply;
    RunKeepsInv(run, i);
    if i == 0 {
      InitIsSettled(run.states[0]);
    } else {
      RunIsSettled(run, i - 1);
      SettledStep(run.states[i - 1], run.steps[i - 1]);
    }
  }

  lemma InitIsSettled(s: State)
    requires Init(s)
    ensures Settled(s)
  {
  }

  // Run returns without a timeout error exactly when the deadline had not
  // passed, and then the stopper had reported.
  lemma ReturnIsCleanExactly(run: Run, i: nat)
    requires Legal(run) && i < |run.states| && run.states[i].main.Returned?
    ensures run.states[i].main.clean <==> !run.states[i].expired
    ensures run.states[i].main.clean ==> run.states[i].stopper.Reported?
    ensures run.states[i].cancelled
  {
    RunIsSettled(run, i);
  }

  // Main takes at most one result, and goes down after it.
  lemma DownAfterFirstResult(run: Run, i: nat)
    requires Legal(run) && i < |run.states|
    ensures run.states[i].taken <= 1
    ensures run.states[i].taken == 1 ==> PastTaking(run.states[i])
  {
    RunIsSettled(run, i);
  }

  // ---------------------------------------------------------------------
  // The barrier
  // ---------------------------------------------------------------------

  // The barrier opens exactly when the signal of every notifier has been
  // received; the next step of main then reports ready.
  lemma BarrierOpensExactly(run: Run, i: nat)
    requires Legal(run) && i < |run.states| && run.states[i].main.Awaiting?
    ensures
      var s := run.states[i];
      && (Enabled(s, Raise) <==> s.received == |Notifiers(s)|)
      && (Enabled(s, Raise) ==> Apply(s, Raise).ready && Apply(s, Raise).main.Serving?)
  {
    RunKeepsInv(run, i);
    PendingIsExact(run, i);
    SubsetSize(Signalled(run.states[i]), Notifiers(run.states[i]));
  }

  lemma SubsetSize(a: set<nat>, b: set<nat>)
    requires a <= b
    ensures |a| <= |b|
  {
    assert |b| == |a| + |b - a| by { assert b == a + (b - a); }
  }

  // ---------------------------------------------------------------------
  // Main is never stuck
  // ---------------------------------------------------------------------

  predicate OfMain(step: Step) {
    step.Launch? || step.LaunchDone? || step.TakeResult? || step.TakeSignal? || step.SeeCancel? || step.Raise?
    || step.Lower? || step.CancelRun? || step.TakeDone? || step.TakeTimeout?
  }

  // Main waits for a result, a startup signal or the end of its context, and
  // at the end for the stopper or the deadline; for nothing else.
  ghost predicate Waits(s: State) {
    match s.main
    case Awaiting => s.received < |Notifiers(s)| && s.started == 0 && s.results == [] && !s.cancelled
    case Serving => s.results == [] && !s.cancelled
    case Draining => !s.stopper.Reported? && !s.expired
    case _ => false
  }

  function Rank(m: Main): nat {
    match m
    case Launching => 0
    case Awaiting => 1
    case Serving => 2
    case Lowering => 3
    case Cancelling => 4
    case Draining => 5
    case Returned(_) => 6
  }

  // Each step of main but a launch and the receipt of a signal takes it on.
  lemma MainAdvances(s: State, step: Step)
    requires Enabled(s, step)
    ensures Rank(Apply(s, step).main) >= Rank(s.main)
    ensures OfMain(step) && !step.Launch? && !step.TakeSignal? ==> Rank(Apply(s, step).main) > Rank(s.main)
    ensures step.Launch? ==> Apply(s, step).launched == s.launched + 1
    ensures step.TakeSignal? ==> Apply(s, step).received == s.received + 1
    ensures !OfMain(step) ==> Apply(s, step).main == s.main
  {
    hide Apply, Enabled;
    if OfMain(step) { RankGrows(s, step); } else { OthersLeaveMain(s, step); }
  }

  lemma RankGrows(s: State, step: Step)
    requires Enabled(s, step) && OfMain(step)
    ensures Rank(Apply(s, step).main) >= Rank(s.main)
    ensures !step.Launch? && !step.TakeSignal? ==> Rank(Apply(s, step).main) > Rank(s.main)
    ensures step.Launch? ==> Apply(s, step).launched == s.launched + 1
    ensures step.TakeSignal? ==> Apply(s, step).received == s.received + 1
  {
  }

  lemma OthersLeaveMain(s: State, step: Step)
    requires Enabled(s, step) && !OfMain(step)
    ensures Apply(s, step).main == s.main
  {
  }

  lemma MainIsNeverStuck(run: Run, i: nat)
    requires Legal(run) && i < |run.states| && !run.states[i].main.Returned?
    ensures (exists step :: OfMain(step) && Enabled(run.states[i], step)) <==> !Waits(run.states[i])
  {
    var s := run.states[i];
    RunKeepsInv(run, i);
    PendingIsExact(run, i);
    SubsetSize(Signalled(s), Notifiers(s));
    if !Waits(s) {
      hide Enabled;
      NextIsEnabled(s);
    } else {
      forall step | OfMain(step) ensures !Enabled(s, step) { NothingWhileWaiting(s, step); }
    }
  }

  lemma NextIsEnabled(s: State)
    requires Inv(s) && !s.main.Returned? && !Waits(s)
    requires s.pending == |Notifiers(s)| - s.received
    ensures OfMain(NextOfMain(s)) && Enabled(s, NextOfMain(s))
  {
  }

  lemma NothingWhileWaiting(s: State, step: Step)
    requires Waits(s) && OfMain(step) && s.pending == |Notifiers(s)| - s.received
    ensures !Enabled(s, step)
  {
    hide Notifiers;
  }

  function NextOfMain(s: State): Step {
    match s.main
    case Launching => if s.launched < Size(s) then Launch else LaunchDone
    case Awaiting =>
      if s.pending <= 0 then Raise else if s.started > 0 then TakeSignal else if s.results != [] then TakeResult
      else SeeCancel
    case Serving => if s.results != [] then TakeResult else SeeCancel
    case Lowering => Lower
    case Cancelling => CancelRun
    case Draining => if s.stopper.Reported? then TakeDone else TakeTimeout
    case Returned(_) => Cancel
  }

  // While main drains, the stopper has a step, or it has reported, or it waits
  // for the Start goroutine of some component, which can go on itself.
  lemma StopperIsNeverStuck(run: Run, i: nat)
    requires Legal(run) && i < |run.states| && run.states[i].main.Draining?
    ensures
      var s := run.states[i];
      || s.stopper.Reported?
      || Enabled(s, BeginStop) || Enabled(s, EndStop(false)) || Enabled(s, Join)
      || exists c: nat :: c < |s.start| && s.start[c] != Finished && Enabled(s, NextOfStart(s, c))
  {
    var s := run.states[i];
    RunKeepsInv(run, i);
    hide Enabled;
    if s.stopper.Joining? {
      if c: nat :| c < |s.start| && s.start[c] != Finished {
        SendersNeverBlock(run, i, c);
        StartGoesOn(s, c);
      } else {
        JoinIsEnabled(s);
      }
    } else if !s.stopper.Reported? {
      StopGoesOn(s);
    }
  }

  lemma StartGoesOn(s: State, c: nat)
    requires Shape(s) && s.main.Draining? && c < |s.start| && s.start[c] != Finished
    requires s.start[c].Exited? ==> Enabled(s, Deliver(c))
    ensures Enabled(s, NextOfStart(s, c))
  {
  }

  lemma JoinIsEnabled(s: State)
    requires s.stopper.Joining? && forall c :: 0 <= c < |s.start| ==> s.start[c] == Finished
    ensures Enabled(s, Join)
  {
  }

  lemma StopGoesOn(s: State)
    requires Flagged(s) && Stopping(s) && s.main.Draining? && !s.stopper.Joining? && !s.stopper.Reported?
    ensures Enabled(s, BeginStop) || Enabled(s, EndStop(false))
  {
  }

  function NextOfStart(s: State, c: nat): Step
    requires c < |s.start|
  {
    match s.start[c]
    case Exited(_) => Deliver(c)
    case Delivered => FinishStart(c)
    case _ => ExitStart(c, false)
  }

  // ---------------------------------------------------------------------
  // Continuing a run
  // ---------------------------------------------------------------------

  function Last(run: Run): State
    requires |run.states| > 0
  {
    run.states[|run.states| - 1]
  }

  ghost predicate Continues(run: Run, longer: Run) {
    && Legal(longer) && run.states <= longer.states && run.steps <= longer.steps
  }

  lemma ContinuesItself(run: Run)
    requires Legal(run)
    ensures Continues(run, run)
  {
  }

  lemma ContinuesOn(run: Run, longer: Run, longest: Run)
    requires Continues(run, longer) && Continues(longer, longest)
    ensures Continues(run, longest)
  {
    hide Legal;
  }

  lemma Do(run: Run, step: Step) returns (longer: Run)
    requires Legal(run) && Enabled(Last(run), step)
    ensures Continues(run, longer) && |longer.states| > 0 && Last(longer) == Apply(Last(run), step)
  {
    longer := Run(run.states + [Apply(Last(run), step)], run.steps + [step]);
    forall i | 0 <= i < |longer.steps|
      ensures Enabled(longer.states[i], longer.steps[i])
      ensures longer.states[i + 1] == Apply(longer.states[i], longer.steps[i])
    {
      if i < |run.steps| {
        assert longer.states[i] == run.states[i] && longer.states[i + 1] == run.states[i + 1];
        assert longer.steps[i] == run.steps[i];
      }
    }
  }

  lemma LastKeeps(run: Run)
    requires Legal(run)
    ensures |run.states| > 0 && Inv(Last(run)) && Settled(Last(run))
    ensures Last(run).pending == |Notifiers(Last(run))| - Last(run).received
    ensures Last(run).received + Last(run).started == |Signalled(Last(run))|
    ensures Signalled(Last(run)) <= Notifiers(Last(run))
  {
    RunIsSettled(run, |run.states| - 1);
    PendingIsExact(run, |run.states| - 1);
  }

  // ---------------------------------------------------------------------
  // Becoming ready
  // ---------------------------------------------------------------------

  lemma {:induction false} LaunchAll(run: Run) returns (longer: Run)
    requires Legal(run) && Last(run).main.Launching?
    ensures Continues(run, longer) && |longer.states| > 0 && Last(longer).main.Awaiting?
    ensures Last(longer).cancelled == Last(run).cancelled
    decreases Size(Last(run)) - Last(run).launched
  {
    hide Continues, Legal, Settled;
    LastKeeps(run);
    if Last(run).launched == Size(Last(run)) {
      longer := Do(run, LaunchDone);
    } else {
      var next := Do(run, Launch);
      ContinuesIsLegal(run, next);
      longer := LaunchAll(next);
      ContinuesOn(run, next, longer);
    }
  }

  lemma ContinuesIsLegal(run: Run, longer: Run)
    requires Continues(run, longer)
    ensures Legal(longer)
  {
  }

  // A notifier whose signal has not been sent, while nothing is cancelled.
  lemma Unsignalled(s: State) returns (i: nat)
    requires Inv(s) && Settled(s) && s.main.Awaiting? && !s.cancelled && s.started == 0 && s.pending > 0
    requires s.pending == |Notifiers(s)| - s.received && s.received + s.started == |Signalled(s)|
    ensures i < |s.watch| && i < |s.closed| && (s.watch[i] == Waiting || s.watch[i] == Sending)
    ensures s.watch[i] == Sending ==> s.closed[i]
  {
    if Notifiers(s) <= Signalled(s) { SubsetSize(Notifiers(s), Signalled(s)); }
    i :| i in Notifiers(s) && i !in Signalled(s);
  }

  // One more signal is sent and received.
  lemma ReceiveOne(run: Run) returns (longer: Run)
    requires Legal(run) && Last(run).main.Awaiting? && !Last(run).cancelled && Last(run).pending > 0
    ensures Continues(run, longer) && |longer.states| > 0
    ensures Last(longer).main.Awaiting? && !Last(longer).cancelled && Last(longer).pending == Last(run).pending - 1
  {
    hide Continues, Legal, Inv, Settled, Notifiers, Signalled;
    LastKeeps(run);
    ContinuesByItself(run);
    var sent := run;
    if Last(run).started == 0 {
      var i := Unsignalled(Last(run));
      sent := SignalOne(run, i);
    }
    ContinuesIsLegal(run, sent);
    longer := Do(sent, TakeSignal);
    ContinuesOn(run, sent, longer);
  }

  lemma ContinuesByItself(run: Run)
    requires Legal(run)
    ensures Continues(run, run) && |run.states| > 0
  {
  }

  lemma SignalOne(run: Run, i: nat) returns (longer: Run)
    requires Legal(run) && Last(run).main.Awaiting? && !Last(run).cancelled
    requires i < |Last(run).watch| && i < |Last(run).closed|
    requires Last(run).watch[i] == Waiting || (Last(run).watch[i] == Sending && Last(run).closed[i])
    ensures Continues(run, longer) && |longer.states| > 0
    ensures Last(longer).main.Awaiting? && !Last(longer).cancelled && Last(longer).pending == Last(run).pending
    ensures Last(longer).started == Last(run).started + 1
  {
    hide Continues, Legal, Settled;
    ContinuesByItself(run);
    var seen := run;
    if Last(run).watch[i] == Waiting {
      var closed := Do(run, Close(i));
      ContinuesIsLegal(run, closed);
      seen := Do(closed, SeeSignal(i));
      ContinuesOn(run, closed, seen);
    }
    ContinuesIsLegal(run, seen);
    LastKeeps(seen);
    SenderHasRoom(seen, i);
    longer := Do(seen, SendSignal(i));
    ContinuesOn(run, seen, longer);
  }

  lemma SenderHasRoom(run: Run, i: nat)
    requires Legal(run) && Inv(Last(run)) && i < |Last(run).watch| && Last(run).watch[i] == Sending
    ensures Enabled(Last(run), SendSignal(i))
  {
    SendersNeverBlock(run, |run.states| - 1, i);
  }

  lemma {:induction false} OpenBarrier(run: Run) returns (longer: Run)
    requires Legal(run) && Last(run).main.Awaiting? && !Last(run).cancelled
    ensures Continues(run, longer) && |longer.states| > 0 && Last(longer).ready && Last(longer).main.Serving?
    decreases if Last(run).pending > 0 then Last(run).pending else 0
  {
    hide Continues, Legal, Inv, Settled;
    ContinuesByItself(run);
    if Last(run).pending <= 0 {
      longer := Do(run, Raise);
    } else {
      var next := ReceiveOne(run);
      ContinuesIsLegal(run, next);
      longer := OpenBarrier(next);
      ContinuesOn(run, next, longer);
    }
  }

  // From every state before the barrier in which nothing is cancelled, the run
  // can become ready, whatever components are launched, closed or waiting.
  lemma CanBecomeReady(run: Run) returns (longer: Run)
    requires Legal(run)
    requires (Last(run).main.Launching? || Last(run).main.Awaiting?) && !Last(run).cancelled
    ensures Continues(run, longer) && |longer.states| > 0 && Last(longer).ready && Last(longer).main.Serving?
  {
    hide Continues, Legal;
    ContinuesByItself(run);
    var waiting := run;
    if Last(run).main.Launching? { waiting := LaunchAll(run); }
    ContinuesIsLegal(run, waiting);
    longer := OpenBarrier(waiting);
    ContinuesOn(run, waiting, longer);
  }

  // In particular from the beginning.
  lemma EveryStartCanBecomeReady(s: State) returns (run: Run)
    requires Init(s) && !s.cancelled
    ensures Legal(run) && run.states[0] == s && Last(run).ready && Last(run).main.Serving?
  {
    var begin := Run([s], []);
    run := CanBecomeReady(begin);
  }

  // ---------------------------------------------------------------------
  // Returning without a timeout
  // ---------------------------------------------------------------------

  // Main has come to the point where it lowers the ready flag.
  lemma GoDown(run: Run) returns (longer: Run)
    requires Legal(run) && !Last(run).expired && Rank(Last(run).main) < Rank(Draining)
    ensures Continues(run, longer) && |longer.states| > 0 && Last(longer).main.Draining? && !Last(longer).expired
    decreases Rank(Draining) - Rank(Last(run).main), if Last(run).cancelled then 0 else 1
  {
    hide Continues, Legal, Inv, Settled;
    LastKeeps(run);
    if Last(run).main.Launching? {
      longer := LaunchAll(run);
      ContinuesIsLegal(run, longer);
      NotExpiredBefore(longer);
      var rest := GoDown(longer);
      ContinuesOn(run, longer, rest);
      longer := rest;
    } else if !Last(run).cancelled {
      longer := Do(run, Cancel);
      ContinuesIsLegal(run, longer);
      var rest := GoDown(longer);
      ContinuesOn(run, longer, rest);
      longer := rest;
    } else {
      var step := TowardsDrain(Last(run));
      longer := Do(run, step);
      ContinuesIsLegal(run, longer);
      if !Last(longer).main.Draining? {
        var rest := GoDown(longer);
        ContinuesOn(run, longer, rest);
        longer := rest;
      }
    }
  }

  lemma NotExpiredBefore(run: Run)
    requires Legal(run) && !Last(run).main.Draining? && !Last(run).main.Returned?
    ensures !Last(run).expired
  {
    LastKeeps(run);
  }

  function TowardsDrain(s: State): (step: Step)
    requires s.cancelled && 0 < Rank(s.main) < Rank(Draining)
    ensures Enabled(s, step) && Apply(s, step).expired == s.expired && Apply(s, step).cancelled
    ensures Rank(s.main) < Rank(Apply(s, step).main) <= Rank(Draining)
  {
    match s.main
    case Awaiting => if s.pending > 0 then SeeCancel else Raise
    case Serving => SeeCancel
    case Lowering => Lower
    case _ => CancelRun
  }

  function Stage(start: Start): nat {
    match start
    case Unlaunched => 4
    case Starting => 3
    case Exited(_) => 2
    case Delivered => 1
    case Finished => 0
  }

  // The Start goroutine of c goes on to its end.
  lemma {:induction false} FinishOne(run: Run, c: nat) returns (longer: Run)
    requires Legal(run) && Last(run).main.Draining? && !Last(run).expired && Last(run).stopper.Joining?
    requires c < |Last(run).start|
    ensures Continues(run, longer) && |longer.states| > 0
    ensures Last(longer).main.Draining? && !Last(longer).expired && Last(longer).stopper.Joining?
    ensures |Last(longer).start| == |Last(run).start|
    ensures Last(longer).start == Last(run).start[c := Finished]
    decreases Stage(Last(run).start[c])
  {
    hide Continues, Legal, Settled;
    ContinuesByItself(run);
    LastKeeps(run);
    if Last(run).start[c] == Finished {
      longer := run;
      assert Last(run).start[c := Finished] == Last(run).start;
    } else {
      StartHasRoom(run, c);
      var next := Do(run, NextOfStart(Last(run), c));
      ContinuesIsLegal(run, next);
      longer := FinishOne(next, c);
      ContinuesOn(run, next, longer);
    }
  }

  lemma StartHasRoom(run: Run, c: nat)
    requires Legal(run) && Inv(Last(run)) && Last(run).main.Draining? && c < |Last(run).start|
    requires Last(run).start[c] != Finished
    ensures Enabled(Last(run), NextOfStart(Last(run), c))
    ensures Stage(Apply(Last(run), NextOfStart(Last(run), c)).start[c]) < Stage(Last(run).start[c])
  {
    assert Last(run).start[c] != Unlaunched;
    SendersNeverBlock(run, |run.states| - 1, c);
  }

  lemma {:induction false} FinishAll(run: Run, c: nat) returns (longer: Run)
    requires Legal(run) && Last(run).main.Draining? && !Last(run).expired && Last(run).stopper.Joining?
    requires c <= |Last(run).start| && forall i :: 0 <= i < c ==> Last(run).start[i] == Finished
    ensures Continues(run, longer) && |longer.states| > 0
    ensures Last(longer).main.Draining? && !Last(longer).expired && Last(longer).stopper.Joining?
    ensures forall i :: 0 <= i < |Last(longer).start| ==> Last(longer).start[i] == Finished
    decreases |Last(run).start| - c
  {
    hide Continues, Legal;
    ContinuesByItself(run);
    if c == |Last(run).start| {
      longer := run;
    } else {
      var next := FinishOne(run, c);
      ContinuesIsLegal(run, next);
      longer := FinishAll(next, c + 1);
      ContinuesOn(run, next, longer);
    }
  }

  function StopsLeft(stopper: Stopper): nat {
    match stopper
    case Next(left) => 2 * left + 1
    case Calling(component) => 2 * component + 2
    case _ => 0
  }

  lemma {:induction false} StopAll(run: Run) returns (longer: Run)
    requires Legal(run) && Last(run).main.Draining? && !Last(run).expired
    requires Last(run).stopper.Next? || Last(run).stopper.Calling? || Last(run).stopper.Joining?
    ensures Continues(run, longer) && |longer.states| > 0
    ensures Last(longer).main.Draining? && !Last(longer).expired && Last(longer).stopper.Joining?
    decreases StopsLeft(Last(run).stopper)
  {
    hide Continues, Legal;
    ContinuesByItself(run);
    LastKeeps(run);
    if Last(run).stopper.Joining? {
      longer := run;
    } else {
      var next := Do(run, if Last(run).stopper.Next? then BeginStop else EndStop(false));
      ContinuesIsLegal(run, next);
      longer := StopAll(next);
      ContinuesOn(run, next, longer);
    }
  }

  lemma StopperIsOn(run: Run)
    requires Legal(run) && Last(run).main.Draining?
    ensures !Last(run).stopper.Off?
  {
    LastKeeps(run);
  }

  // From every state before the deadline, Run can still return without a
  // timeout error, having stopped everything.
  lemma CanReturnCleanly(run: Run) returns (longer: Run)
    requires Legal(run) && !Last(run).expired && !Last(run).main.Returned?
    ensures Continues(run, longer) && |longer.states| > 0 && Last(longer).main == Returned(true)
  {
    hide Continues, Legal;
    ContinuesByItself(run);
    longer := run;
    if !Last(run).main.Draining? { longer := GoDown(run); }
    ContinuesIsLegal(run, longer);
    StopperIsOn(longer);
    if !Last(longer).stopper.Reported? {
      longer := JoinAll(run, longer);
      ContinuesIsLegal(run, longer);
    }
    var last := Do(longer, TakeDone);
    ContinuesOn(run, longer, last);
    longer := last;
  }

  lemma JoinAll(run: Run, now: Run) returns (longer: Run)
    requires Continues(run, now) && |now.states| > 0 && Last(now).main.Draining? && !Last(now).expired
    requires !Last(now).stopper.Reported? && !Last(now).stopper.Off?
    ensures Continues(run, longer) && |longer.states| > 0
    ensures Last(longer).main.Draining? && !Last(longer).expired && Last(longer).stopper.Reported?
  {
    hide Continues, Legal;
    ContinuesIsLegal(run, now);
    var stopped := StopAll(now);
    ContinuesIsLegal(now, stopped);
    var finished := FinishAll(stopped, 0);
    ContinuesIsLegal(stopped, finished);
    longer := Do(finished, Join);
    ContinuesOn(run, now, stopped);
    ContinuesOn(run, stopped, finished);
    ContinuesOn(run, finished, longer);
  }
}
