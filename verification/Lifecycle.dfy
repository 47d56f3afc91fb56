// App.Run (app): one goroutine per component start, one per startup signal,
// the main goroutine, and the goroutine that stops the components. Each
// channel operation, store or call boundary is a step; all interleavings of
// the steps are runs.
module Lifecycle {

  datatype Start = Unlaunched | Starting | Exited(failed: bool) | Delivered | Finished

  datatype Watch = Absent | Waiting | Sending | Sent | GaveUp

  datatype Main =
    | Launching
    | Awaiting             // the startup barrier
    | Serving
    | Lowering             // about to clear the ready flag
    | Cancelling           // about to cancel the run and start the stopper
    | Draining             // in the final select
    | Returned(clean: bool) // clean: no shutdown-timeout error

  datatype Stopper =
    | Off
    | Next(left: nat)      // components 0..left are still to be stopped
    | Calling(component: nat)
    | Joining              // waiting for the start goroutines
    | Reported

  datatype Stop = Stop(component: nat, failed: bool)

  datatype State = State(
    notifier: seq<bool>,   // which components report their startup
    closed: seq<bool>,     // whose startup channel has been closed
    start: seq<Start>,
    watch: seq<Watch>,
    launched: nat,
    results: seq<nat>,     // the results channel
    taken: nat,            // how many results main has received
    started: nat,          // tokens in the started channel
    received: nat,         // how many of them main has received
    pending: int,          // startupCount
    cancelled: bool,
    ready: bool,
    main: Main,
    stopper: Stopper,
    stops: seq<Stop>,      // completed Stop calls, in order
    expired: bool)

  datatype Step =
    | Launch
    | LaunchDone
    | Close(i: nat)
    | ExitStart(i: nat, failed: bool)
    | Deliver(i: nat)
    | FinishStart(i: nat)
    | SeeSignal(i: nat)
    | SendSignal(i: nat)
    | GiveUp(i: nat)
    | Cancel
    | TakeResult
    | TakeSignal
    | SeeCancel
    | Raise
    | Lower
    | CancelRun
    | BeginStop
    | EndStop(failed: bool)
    | Join
    | Expire
    | TakeDone
    | TakeTimeout

  function Size(s: State): nat {
    |s.notifier|
  }

  // Sends into the two buffered channels need room for one more element.
  predicate Enabled(s: State, step: Step) {
    match step
    case Launch => s.main.Launching? && s.launched < Size(s) && s.launched < |s.start| && s.launched < |s.watch|
    case LaunchDone => s.main.Launching? && s.launched == Size(s)
    case Close(i) => i < |s.closed|
    case ExitStart(i, _) => i < |s.start| && s.start[i] == Starting
    case Deliver(i) => i < |s.start| && s.start[i].Exited? && |s.results| < Size(s)
    case FinishStart(i) => i < |s.start| && s.start[i] == Delivered
    case SeeSignal(i) => i < |s.watch| && s.watch[i] == Waiting && i < |s.closed| && s.closed[i]
    case SendSignal(i) => i < |s.watch| && s.watch[i] == Sending && s.started < Size(s)
    case GiveUp(i) => i < |s.watch| && s.watch[i] == Waiting && s.cancelled
    case Cancel => true
    case TakeResult => ((s.main.Awaiting? && s.pending > 0) || s.main.Serving?) && s.results != []
    case TakeSignal => s.main.Awaiting? && s.pending > 0 && s.started > 0
    case SeeCancel => ((s.main.Awaiting? && s.pending > 0) || s.main.Serving?) && s.cancelled
    case Raise => s.main.Awaiting? && s.pending <= 0
    case Lower => s.main.Lowering?
    case CancelRun => s.main.Cancelling?
    case BeginStop => s.stopper.Next? && s.stopper.left > 0
    case EndStop(_) => s.stopper.Calling?
    case Join => s.stopper.Joining? && forall i :: 0 <= i < |s.start| ==> s.start[i] == Finished
    case Expire => s.main.Draining?
    case TakeDone => s.main.Draining? && s.stopper.Reported?
    case TakeTimeout => s.main.Draining? && s.expired
  }

  function NextStop(left: nat): Stopper {
    if left == 0 then Joining else Next(left)
  }

  function Apply(s: State, step: Step): State
    requires Enabled(s, step)
  {
    match step
    case Launch =>
      var k := s.launched;
      s.(launched := k + 1, start := s.start[k := Starting],
         watch := if s.notifier[k] then s.watch[k := Waiting] else s.watch,
         pending := if s.notifier[k] then s.pending + 1 else s.pending)
    case LaunchDone => s.(main := Awaiting)
    case Close(i) => s.(closed := s.closed[i := true])
    case ExitStart(i, failed) => s.(start := s.start[i := Exited(failed)])
    case Deliver(i) => s.(start := s.start[i := Delivered], results := s.results + [i])
    case FinishStart(i) => s.(start := s.start[i := Finished])
    case SeeSignal(i) => s.(watch := s.watch[i := Sending])
    case SendSignal(i) => s.(watch := s.watch[i := Sent], started := s.started + 1)
    case GiveUp(i) => s.(watch := s.watch[i := GaveUp])
    case Cancel => s.(cancelled := true)
    case TakeResult => s.(results := s.results[1..], taken := s.taken + 1, main := Lowering)
    case TakeSignal => s.(started := s.started - 1, received := s.received + 1, pending := s.pending - 1)
    case SeeCancel => s.(main := Lowering)
    case Raise => s.(ready := true, main := Serving)
    case Lower => s.(ready := false, main := Cancelling)
    case CancelRun => s.(cancelled := true, main := Draining, stopper := NextStop(Size(s)))
    case BeginStop => s.(stopper := Calling(s.stopper.left - 1))
    case EndStop(failed) =>
      s.(stops := s.stops + [Stop(s.stopper.component, failed)], stopper := NextStop(s.stopper.component))
    case Join => s.(stopper := Reported)
    case Expire => s.(expired := true)
    case TakeDone => s.(main := Returned(!s.expired))
    case TakeTimeout => s.(main := Returned(false))
  }

  // beginRun refuses an application without components.
  ghost predicate Init(s: State) {
    && Size(s) > 0
    && |s.closed| == |s.start| == |s.watch| == Size(s)
    && (forall i :: 0 <= i < Size(s) ==> s.start[i] == Unlaunched && s.watch[i] == Absent)
    && s.launched == 0 && s.results == [] && s.taken == 0 && s.started == 0 && s.received == 0 && s.pending == 0
    && !s.ready && s.main == Launching && s.stopper == Off && s.stops == [] && !s.expired
  }

  datatype Run = Run(states: seq<State>, steps: seq<Step>)

  ghost predicate Legal(run: Run) {
    && |run.states| == |run.steps| + 1
    && Init(run.states[0])
    && forall i :: 0 <= i < |run.steps| ==>
         Enabled(run.states[i], run.steps[i]) && run.states[i + 1] == Apply(run.states[i], run.steps[i])
  }

  // ---------------------------------------------------------------------
  // The startup barrier
  // ---------------------------------------------------------------------

  function Notifiers(s: State): set<nat> {
    set i: nat | i < s.launched && i < Size(s) && s.notifier[i]
  }

  // Components whose startup signal has been put into the started channel.
  function Signalled(s: State): set<nat> {
    set i: nat | i < |s.watch| && s.watch[i] == Sent
  }

  function Deliveries(s: State): set<nat> {
    set i: nat | i < |s.start| && (s.start[i] == Delivered || s.start[i] == Finished)
  }

  ghost predicate Shape(s: State) {
    && Size(s) > 0
    && |s.closed| == |s.start| == |s.watch| == Size(s)
    && s.launched <= Size(s)
    && (s.main.Launching? || s.launched == Size(s))
    && (forall i :: 0 <= i < Size(s) ==>
          && (s.start[i] == Unlaunched <==> i >= s.launched)
          && (s.watch[i] == Absent <==> i >= s.launched || !s.notifier[i])
          && (s.watch[i] in {Sending, Sent} ==> s.closed[i]))
  }

  ghost predicate Counted(s: State) {
    && s.received + s.started == |Signalled(s)|
    && s.pending == |Notifiers(s)| - s.received
    && s.taken + |s.results| == |Deliveries(s)|
  }

  lemma ShapeStep(s: State, step: Step)
    requires Shape(s) && Enabled(s, step)
    ensures Shape(Apply(s, step))
  {
    hide Shape, Apply, Enabled;
    match step
    case Launch => ShapeLaunch(s);
    case Close(i) => ShapeClose(s, i);
    case ExitStart(_, _) => ShapeStart(s, step);
    case Deliver(_) => ShapeStart(s, step);
    case FinishStart(_) => ShapeStart(s, step);
    case SeeSignal(_) => ShapeWatch(s, step);
    case SendSignal(_) => ShapeWatch(s, step);
    case GiveUp(_) => ShapeWatch(s, step);
    case _ => ShapeMain(s, step);
  }

  lemma ShapeLaunch(s: State)
    requires Shape(s) && Enabled(s, Launch)
    ensures Shape(Apply(s, Launch))
  {
  }

  lemma ShapeClose(s: State, i: nat)
    requires Shape(s) && Enabled(s, Close(i))
    ensures Shape(Apply(s, Close(i)))
  {
  }

  lemma ShapeStart(s: State, step: Step)
    requires step.ExitStart? || step.Deliver? || step.FinishStart?
    requires Shape(s) && Enabled(s, step)
    ensures Shape(Apply(s, step))
  {
  }

  lemma ShapeWatch(s: State, step: Step)
    requires step.SeeSignal? || step.SendSignal? || step.GiveUp?
    requires Shape(s) && Enabled(s, step)
    ensures Shape(Apply(s, step))
  {
  }

  // The steps that change a component; the others are those of main, of the
  // stopper and of the environment.
  predicate TouchesComponent(step: Step) {
    step.Launch? || step.Close? || step.ExitStart? || step.Deliver? || step.FinishStart?
    || step.SeeSignal? || step.SendSignal? || step.GiveUp?
  }

  lemma ComponentsKept(s: State, step: Step)
    requires Enabled(s, step) && !TouchesComponent(step)
    ensures
      var u := Apply(s, step);
      && u.notifier == s.notifier && u.closed == s.closed && u.start == s.start && u.watch == s.watch
      && u.launched == s.launched
      && (s.main.Launching? ==> u.main.Launching? || s.launched == Size(s))
  {
  }

  lemma ShapeMain(s: State, step: Step)
    requires Shape(s) && Enabled(s, step) && !TouchesComponent(step)
    ensures Shape(Apply(s, step))
  {
    hide Apply, Enabled;
    ComponentsKept(s, step);
  }

  lemma NotifiersStep(s: State, step: Step)
    requires Shape(s) && Enabled(s, step)
    ensures Notifiers(Apply(s, step)) ==
      if step.Launch? && s.notifier[s.launched] then Notifiers(s) + {s.launched} else Notifiers(s)
    ensures s.launched !in Notifiers(s)
  {
  }

  lemma SignalledStep(s: State, step: Step)
    requires Shape(s) && Enabled(s, step)
    ensures Signalled(Apply(s, step)) == if step.SendSignal? then Signalled(s) + {step.i} else Signalled(s)
    ensures step.SendSignal? ==> step.i !in Signalled(s)
  {
  }

  lemma DeliveriesStep(s: State, step: Step)
    requires Shape(s) && Enabled(s, step)
    ensures Deliveries(Apply(s, step)) == if step.Deliver? then Deliveries(s) + {step.i} else Deliveries(s)
    ensures step.Deliver? ==> step.i !in Deliveries(s)
  {
  }

  function One(b: bool): nat {
    if b then 1 else 0
  }

  lemma CountersStep(s: State, step: Step)
    requires Shape(s) && Enabled(s, step)
    ensures
      var u := Apply(s, step);
      && u.received == s.received + One(step.TakeSignal?)
      && u.started == s.started + One(step.SendSignal?) - One(step.TakeSignal?)
      && u.pending == s.pending + One(step.Launch? && s.notifier[s.launched]) - One(step.TakeSignal?)
      && u.taken == s.taken + One(step.TakeResult?)
      && |u.results| == |s.results| + One(step.Deliver?) - One(step.TakeResult?)
  {
    hide Shape;
    SizesAgree(s);
    SignalCounters(s, step);
    ResultCounters(s, step);
    hide Apply, Enabled;
  }

  lemma SizesAgree(s: State)
    requires Shape(s)
    ensures |s.closed| == |s.start| == |s.watch| == Size(s)
  {
  }

  lemma SignalCounters(s: State, step: Step)
    requires |s.start| == |s.watch| == Size(s) && Enabled(s, step)
    ensures step.Launch? ==> s.launched < |s.notifier|
    ensures
      var u := Apply(s, step);
      && u.received == s.received + One(step.TakeSignal?)
      && u.started == s.started + One(step.SendSignal?) - One(step.TakeSignal?)
      && u.pending == s.pending + One(step.Launch? && s.notifier[s.launched]) - One(step.TakeSignal?)
  {
  }

  lemma ResultCounters(s: State, step: Step)
    requires Enabled(s, step)
    ensures
      var u := Apply(s, step);
      && u.taken == s.taken + One(step.TakeResult?)
      && |u.results| == |s.results| + One(step.Deliver?) - One(step.TakeResult?)
  {
  }

  lemma CountedStep(s: State, step: Step)
    requires Shape(s) && Counted(s) && Enabled(s, step)
    ensures Counted(Apply(s, step))
  {
    hide Apply, Enabled, Notifiers, Signalled, Deliveries, Shape;
    CountersStep(s, step);
    NotifiersStep(s, step);
    SignalledStep(s, step);
    DeliveriesStep(s, step);
  }

  ghost predicate AllStarted(s: State) {
    forall i :: 0 <= i < Size(s) && i < |s.closed| && s.notifier[i] ==> s.closed[i]
  }

  // When nothing is pending, every notifier has signalled.
  lemma BarrierOpens(s: State)
    requires Shape(s) && Counted(s) && s.main.Awaiting? && s.pending <= 0
    ensures AllStarted(s)
  {
    assert Signalled(s) <= Notifiers(s);
    Squeeze(Signalled(s), Notifiers(s));
    forall i | 0 <= i < Size(s) && s.notifier[i] ensures s.closed[i] {
      assert i in Notifiers(s);
      assert i in Signalled(s);
    }
  }

  lemma Squeeze(a: set<nat>, b: set<nat>)
    requires a <= b && |a| >= |b|
    ensures a == b
  {
    assert |b - a| == |b| - |a|;
    assert b == a + (b - a);
  }

  // ---------------------------------------------------------------------
  // The ready flag
  // ---------------------------------------------------------------------

  ghost predicate Flagged(s: State) {
    && (s.ready ==> AllStarted(s) && s.stopper.Off?)
    && (s.main.Serving? ==> s.ready)
    && (s.ready ==> s.main.Serving? || s.main.Lowering?)
    && (s.stopper.Off? <==> !s.main.Draining? && !s.main.Returned?)
  }

  lemma FlaggedStep(s: State, step: Step)
    requires Shape(s) && Counted(s) && Flagged(s) && Enabled(s, step)
    ensures Flagged(Apply(s, step))
  {
    if step.Raise? { BarrierOpens(s); }
  }

  // ---------------------------------------------------------------------
  // The shutdown
  // ---------------------------------------------------------------------

  // The completed stops are the components from the last one downwards.
  ghost predicate Descending(s: State) {
    forall j :: 0 <= j < |s.stops| ==> s.stops[j].component == Size(s) - 1 - j
  }

  ghost predicate Stopping(s: State) {
    && Descending(s)
    && (match s.stopper
        case Off => s.stops == []
        case Next(left) => 0 < left && left + |s.stops| == Size(s)
        case Calling(i) => i + 1 + |s.stops| == Size(s)
        case Joining => |s.stops| == Size(s)
        case Reported => |s.stops| == Size(s) && forall i :: 0 <= i < |s.start| ==> s.start[i] == Finished)
    && (s.main.Returned? && s.main.clean ==> s.stopper.Reported?)
  }

  lemma StoppingStep(s: State, step: Step)
    requires Shape(s) && Stopping(s) && Flagged(s) && Enabled(s, step)
    ensures Stopping(Apply(s, step))
  {
    hide Shape, Flagged, Stopping, Apply, Enabled;
    match step {
      case CancelRun => StopperBegins(s);
      case BeginStop => StopBegins(s);
      case EndStop(failed) => StopEnds(s, failed);
      case Join => StopperReports(s);
      case TakeDone => MainReturns(s, step);
      case TakeTimeout => MainReturns(s, step);
      case _ => StopperKept(s, step);
    }
  }

  lemma StopperBegins(s: State)
    requires Shape(s) && Stopping(s) && Flagged(s) && Enabled(s, CancelRun)
    ensures Stopping(Apply(s, CancelRun))
  {
  }

  lemma StopBegins(s: State)
    requires Stopping(s) && Enabled(s, BeginStop)
    ensures Stopping(Apply(s, BeginStop))
  {
  }

  lemma StopEnds(s: State, failed: bool)
    requires Stopping(s) && Enabled(s, EndStop(failed))
    ensures Stopping(Apply(s, EndStop(failed)))
  {
    assert Apply(s, EndStop(failed)).stops[..|s.stops|] == s.stops;
  }

  lemma StopperReports(s: State)
    requires Stopping(s) && Enabled(s, Join)
    ensures Stopping(Apply(s, Join))
  {
  }

  lemma MainReturns(s: State, step: Step)
    requires step.TakeDone? || step.TakeTimeout?
    requires Stopping(s) && Enabled(s, step)
    ensures Stopping(Apply(s, step))
  {
  }

  predicate MovesStopper(step: Step) {
    step.CancelRun? || step.BeginStop? || step.EndStop? || step.Join? || step.TakeDone? || step.TakeTimeout?
  }

  lemma ShutdownKept(s: State, step: Step)
    requires Enabled(s, step) && !MovesStopper(step)
    ensures
      var u := Apply(s, step);
      u.stopper == s.stopper && u.stops == s.stops && u.notifier == s.notifier &&
          (u.main.Returned? ==> u.main == s.main)
  {
  }

  lemma StopperKept(s: State, step: Step)
    requires Shape(s) && Stopping(s) && Enabled(s, step) && !MovesStopper(step)
    ensures Stopping(Apply(s, step))
  {
    hide Shape, Apply, Enabled;
    ShutdownKept(s, step);
    AllFinishedStays(s, step);
  }

  // A finished Start call stays finished.
  lemma AllFinishedStays(s: State, step: Step)
    requires Shape(s) && Enabled(s, step)
    ensures (forall i :: 0 <= i < |s.start| ==> s.start[i] == Finished) ==>
              forall i :: 0 <= i < |s.start| ==> Apply(s, step).start[i] == Finished
    ensures |Apply(s, step).start| == |s.start|
  {
    if step.Launch? {
      assert s.start[s.launched] == Unlaunched;
    } else if TouchesComponent(step) {
      assert step.Deliver? || step.FinishStart? ==> s.start[step.i] != Finished;
    } else {
      ComponentsKept(s, step);
    }
  }

  ghost predicate Inv(s: State) {
    Shape(s) && Counted(s) && Flagged(s) && Stopping(s)
  }

  lemma {:induction false} RunKeepsInv(run: Run, i: nat)
    requires Legal(run) && i < |run.states|
    ensures Inv(run.states[i]) && Size(run.states[i]) == Size(run.states[0])
  {
    if i == 0 {
      var s := run.states[0];
      assert Notifiers(s) == {} && Signalled(s) == {} && Deliveries(s) == {};
    } else {
      var s, step := run.states[i - 1], run.steps[i - 1];
      RunKeepsInv(run, i - 1);
      ShapeStep(s, step);
      CountedStep(s, step);
      FlaggedStep(s, step);
      StoppingStep(s, step);
    }
  }

  // ---------------------------------------------------------------------
  // Main results, over every run
  // ---------------------------------------------------------------------

  // Ready is reported only between the last startup signal and the first
  // Stop call.
  lemma ReadyIsTruthful(run: Run, i: nat)
    requires Legal(run) && i < |run.states| && run.states[i].ready
    ensures AllStarted(run.states[i])
    ensures run.states[i].stopper.Off? && run.states[i].stops == []
    ensures !run.states[i].main.Returned?
  {
    RunKeepsInv(run, i);
  }

  predicate PastServing(s: State) {
    s.main.Cancelling? || s.main.Draining? || s.main.Returned?
  }

  lemma {:induction false} NeverBack(run: Run, i: nat, j: nat)
    requires Legal(run) && i <= j < |run.states|
    ensures PastServing(run.states[i]) ==> PastServing(run.states[j])
    ensures run.states[i].ready ==> run.states[j].ready || PastServing(run.states[j])
    decreases j - i
  {
    if i < j {
      RunKeepsInv(run, i);
      assert Enabled(run.states[i], run.steps[i]);
      NeverBack(run, i + 1, j);
    }
  }

  // The flag rises at most once, and stays down once Run has returned.
  lemma ReadyRisesOnce(run: Run, i: nat, j: nat, k: nat)
    requires Legal(run) && i <= j <= k < |run.states|
    ensures run.states[i].ready && !run.states[j].ready ==> !run.states[k].ready
    ensures run.states[j].main.Returned? ==> !run.states[k].ready
  {
    NeverBack(run, i, j);
    NeverBack(run, j, k);
    RunKeepsInv(run, k);
  }

  // The pending count is the number of launched notifiers minus the number of
  // distinct components whose signal main has received.
  lemma PendingIsExact(run: Run, i: nat)
    requires Legal(run) && i < |run.states|
    ensures run.states[i].pending == |Notifiers(run.states[i])| - run.states[i].received
    ensures run.states[i].received + run.states[i].started == |Signalled(run.states[i])|
    ensures Signalled(run.states[i]) <= Notifiers(run.states[i])
  {
    RunKeepsInv(run, i);
  }

  // A Run without a shutdown-timeout error has stopped every component once,
  // in reverse registration order whatever stops failed, and every start
  // goroutine has finished.
  lemma CleanReturnStoppedAll(run: Run, i: nat)
    requires Legal(run) && i < |run.states| && run.states[i].main == Returned(true)
    ensures
      var s := run.states[i];
      && |s.stops| == Size(s)
      && (forall j :: 0 <= j < Size(s) ==> s.stops[j].component == Size(s) - 1 - j)
      && |s.start| == Size(s)
      && (forall j :: 0 <= j < Size(s) ==> s.start[j] == Finished)
  {
    RunKeepsInv(run, i);
  }

  // At every moment the stops done so far, and the one in progress, are the
  // last components in reverse order, so no component is stopped twice and no
  // two at once.
  lemma StopsAreReversed(run: Run, i: nat)
    requires Legal(run) && i < |run.states|
    ensures
      var s := run.states[i];
      && |s.stops| <= Size(s)
      && (forall j :: 0 <= j < |s.stops| ==> s.stops[j].component == Size(s) - 1 - j)
      && (s.stopper.Calling? ==> s.stopper.component == Size(s) - 1 - |s.stops|)
  {
    RunKeepsInv(run, i);
  }

  // A goroutine that wants to send never finds its channel full.
  lemma SendersNeverBlock(run: Run, i: nat, c: nat)
    requires Legal(run) && i < |run.states| && c < Size(run.states[i])
    ensures
      var s := run.states[i];
      && c < |s.start| && c < |s.watch|
      && (s.start[c].Exited? ==> Enabled(s, Deliver(c)))
      && (s.watch[c] == Sending ==> Enabled(s, SendSignal(c)))
  {
    RunKeepsInv(run, i);
    var s := run.states[i];
    Below(Size(s));
    if s.start[c].Exited? {
      assert Deliveries(s) <= Indices(Size(s)) - {c};
      Smaller(Deliveries(s), Indices(Size(s)) - {c});
    }
    if s.watch[c] == Sending {
      assert Signalled(s) <= Indices(Size(s)) - {c};
      Smaller(Signalled(s), Indices(Size(s)) - {c});
    }
  }

  function Indices(n: nat): set<nat> {
    if n == 0 then {} else Indices(n - 1) + {n - 1}
  }

  lemma {:induction false} Below(n: nat)
    ensures |Indices(n)| == n
    ensures forall i: nat :: i in Indices(n) <==> i < n
  {
    if n > 0 { Below(n - 1); }
  }

  lemma Smaller(a: set<nat>, b: set<nat>)
    requires a <= b
    ensures |a| <= |b|
  {
    assert b == a + (b - a);
  }
}
