// The drain of the gRPC server (server/grpcx): any number of requests enter
// and leave through the activity tracker while Stop announces the drain and
// waits for the tracker to become idle. Every atomic operation of the tracker
// is one step, and steps of all goroutines interleave freely.
module Drain {
  type Id = nat

  // Where a request is between and around the atomic operations of
  // activityTracker.enter and activityTracker.leave.
  datatype Request =
    | Arriving     // before the first load of the drain flag
    | Unflagged    // that load said false; the increment comes next
    | Counted      // incremented; the second load comes next
    | Retreating   // the second load said true; the decrement comes next
    | Running      // admitted: the handler runs, then leave decrements
    | Notifying    // decremented; the notification comes next
    | Gone

  // Where a caller of Server.Stop is.
  datatype Stopper =
    | Idle
    | Announcing   // drain flag stored; the notification comes next
    | Loading      // about to load the counter
    | Blocked      // counter was not zero: in the select
    | Graceful     // wait returned nil, GracefulStop is called
    | Forced       // the context ended first, Stop is called

  datatype State = State(
    draining: bool,
    active: int,
    token: bool, // the one slot of the wake-up channel
    requests: map<Id, Request>,
    stoppers: map<Id, Stopper>)

  datatype Step =
    | Arrive(r: Id)
    | FirstLoad(r: Id)
    | Increment(r: Id)
    | SecondLoad(r: Id)
    | Decrement(r: Id)
    | Notify(r: Id)
    | StoreFlag(w: Id)
    | Announce(w: Id)
    | LoadCounter(w: Id)
    | Wake(w: Id)
    | Expire(w: Id)

  predicate At(s: State, r: Id, pc: Request) {
    r in s.requests && s.requests[r] == pc
  }

  predicate StopperAt(s: State, w: Id, pc: Stopper) {
    w in s.stoppers && s.stoppers[w] == pc
  }

  predicate Enabled(s: State, step: Step) {
    match step
    case Arrive(r) => r !in s.requests
    case FirstLoad(r) => At(s, r, Arriving)
    case Increment(r) => At(s, r, Unflagged)
    case SecondLoad(r) => At(s, r, Counted)
    case Decrement(r) => At(s, r, Retreating) || At(s, r, Running)
    case Notify(r) => At(s, r, Notifying)
    case StoreFlag(w) => StopperAt(s, w, Idle)
    case Announce(w) => StopperAt(s, w, Announcing)
    case LoadCounter(w) => StopperAt(s, w, Loading)
    case Wake(w) => StopperAt(s, w, Blocked) && s.token
    case Expire(w) => StopperAt(s, w, Blocked)
  }

  function Move(s: State, r: Id, pc: Request): State {
    s.(requests := s.requests[r := pc])
  }

  function MoveStopper(s: State, w: Id, pc: Stopper): State {
    s.(stoppers := s.stoppers[w := pc])
  }

  // A notification is a send that does nothing when the slot is full.
  function Apply(s: State, step: Step): State {
    match step
    case Arrive(r) => Move(s, r, Arriving)
    case FirstLoad(r) => Move(s, r, if s.draining then Gone else Unflagged)
    case Increment(r) => Move(s, r, Counted).(active := s.active + 1)
    case SecondLoad(r) => Move(s, r, if s.draining then Retreating else Running)
    case Decrement(r) => Move(s, r, Notifying).(active := s.active - 1)
    case Notify(r) => Move(s, r, Gone).(token := true)
    case StoreFlag(w) => MoveStopper(s, w, Announcing).(draining := true)
    case Announce(w) => MoveStopper(s, w, Loading).(token := true)
    case LoadCounter(w) => MoveStopper(s, w, if s.active == 0 then Graceful else Blocked)
    case Wake(w) => MoveStopper(s, w, Loading).(token := false)
    case Expire(w) => MoveStopper(s, w, Forced)
  }

  ghost predicate Init(s: State) {
    && !s.draining && s.active == 0 && !s.token
    && s.requests == map[]
    && forall w :: w in s.stoppers ==> s.stoppers[w] == Idle
  }

  // A run: each state follows from the one before by an enabled step.
  datatype Run = Run(states: seq<State>, steps: seq<Step>)

  ghost predicate Legal(run: Run) {
    && |run.states| == |run.steps| + 1
    && forall i :: 0 <= i < |run.steps| ==>
         Enabled(run.states[i], run.steps[i]) && run.states[i + 1] == Apply(run.states[i], run.steps[i])
  }

  ghost predicate FromStart(run: Run) {
    Legal(run) && Init(run.states[0])
  }

  // ---------------------------------------------------------------------
  // The counter
  // ---------------------------------------------------------------------

  predicate Holds(pc: Request) {
    pc.Counted? || pc.Retreating? || pc.Running?
  }

  // The requests between their increment and their decrement.
  function Holders(s: State): set<Id> {
    set r | r in s.requests && Holds(s.requests[r])
  }

  ghost predicate Counting(s: State) {
    s.active == |Holders(s)|
  }

  lemma HoldersStep(s: State, step: Step)
    requires Enabled(s, step)
    ensures Holders(Apply(s, step)) ==
      if step.Increment? then Holders(s) + {step.r}
      else if step.Decrement? then Holders(s) - {step.r}
      else Holders(s)
    ensures step.Increment? ==> step.r !in Holders(s)
    ensures step.Decrement? ==> step.r in Holders(s)
  {
  }

  lemma CountingStep(s: State, step: Step)
    requires Counting(s) && Enabled(s, step)
    ensures Counting(Apply(s, step))
  {
    HoldersStep(s, step);
    hide Holders, Enabled;
  }

  // ---------------------------------------------------------------------
  // Safety
  // ---------------------------------------------------------------------

  // Once some caller's wait returned nil, the flag is up and no handler runs.
  ghost predicate Safe(s: State) {
    && (forall w :: w in s.stoppers && s.stoppers[w] != Idle ==> s.draining)
    && (forall w :: StopperAt(s, w, Graceful) ==> forall r :: r in s.requests ==> s.requests[r] != Running)
  }

  lemma SafeStep(s: State, step: Step)
    requires Counting(s) && Safe(s) && Enabled(s, step)
    ensures Safe(Apply(s, step))
  {
    var u := Apply(s, step);
    forall w, r | StopperAt(u, w, Graceful) && r in u.requests ensures u.requests[r] != Running {
      if StopperAt(s, w, Graceful) {
        assert r in s.requests ==> s.requests[r] != Running;
      } else {
        assert s.active == 0 && Holders(s) == {};
        assert r !in Holders(s);
      }
    }
  }

  lemma {:induction false} RunIsSafe(run: Run, i: nat)
    requires FromStart(run) && i < |run.states|
    ensures Counting(run.states[i]) && Safe(run.states[i])
  {
    if i == 0 {
      assert Holders(run.states[0]) == {};
    } else {
      RunIsSafe(run, i - 1);
      CountingStep(run.states[i - 1], run.steps[i - 1]);
      SafeStep(run.states[i - 1], run.steps[i - 1]);
    }
  }

  // The counter is exact in every state of every run.
  lemma CounterIsExact(run: Run, i: nat)
    requires FromStart(run) && i < |run.states|
    ensures run.states[i].active == |Holders(run.states[i])|
  {
    RunIsSafe(run, i);
  }

  lemma {:induction false} GracefulIsFinal(run: Run, w: Id, i: nat, j: nat)
    requires Legal(run) && i <= j < |run.states| && StopperAt(run.states[i], w, Graceful)
    ensures StopperAt(run.states[j], w, Graceful)
    decreases j - i
  {
    if i < j {
      assert Enabled(run.states[i], run.steps[i]);
      GracefulIsFinal(run, w, i + 1, j);
    }
  }

  // Drain safety: from the moment wait returned nil, in every later state of
  // every run, no admitted handler is running, whatever requests arrive.
  lemma DrainSafety(run: Run, w: Id, r: Id, i: nat, j: nat)
    requires FromStart(run) && i <= j < |run.states|
    requires StopperAt(run.states[i], w, Graceful)
    ensures !At(run.states[j], r, Running)
    ensures run.states[j].draining
  {
    GracefulIsFinal(run, w, i, j);
    RunIsSafe(run, j);
  }

  function Last(run: Run): State
    requires |run.states| > 0
  {
    run.states[|run.states| - 1]
  }

  function Extend(run: Run, step: Step): Run
    requires |run.states| > 0
  {
    Run(run.states + [Apply(Last(run), step)], run.steps + [step])
  }

  lemma ExtendIsLegal(run: Run, step: Step)
    requires FromStart(run) && Enabled(Last(run), step)
    ensures FromStart(Extend(run, step)) && Last(Extend(run, step)) == Apply(Last(run), step)
    ensures Extend(run, step).states[0] == run.states[0]
  {
  }

  // A request that passed the first load before the flag went up may still
  // raise the counter after wait returned nil; it then backs off.
  lemma LateRequestsStillCount() returns (run: Run)
    ensures FromStart(run) && StopperAt(Last(run), 0, Graceful) && Last(run).active > 0
  {
    run := Run([State(false, 0, false, map[], map[0 := Idle])], []);
    run := Do(run, Arrive(7));
    run := Do(run, FirstLoad(7));
    run := Do(run, StoreFlag(0));
    run := Do(run, Announce(0));
    run := Do(run, LoadCounter(0));
    run := Do(run, Increment(7));
  }

  lemma Do(run: Run, step: Step) returns (longer: Run)
    requires FromStart(run) && Enabled(Last(run), step)
    ensures |longer.states| > 0
    ensures FromStart(longer) && Last(longer) == Apply(Last(run), step)
    ensures longer.states[0] == run.states[0]
  {
    longer := Extend(run, step);
    ExtendIsLegal(run, step);
  }

  // ---------------------------------------------------------------------
  // Wake-ups
  // ---------------------------------------------------------------------

  // Nobody is blocked for good: when the counter is zero, a blocked caller
  // finds a token or some request is about to notify.
  ghost predicate Wakeable(s: State) {
    forall w :: StopperAt(s, w, Blocked) && s.active == 0 ==>
      s.token || exists r :: At(s, r, Notifying)
  }

  lemma WakeableStep(s: State, step: Step)
    requires Counting(s) && Wakeable(s) && Enabled(s, step) && |s.stoppers| <= 1
    ensures Wakeable(Apply(s, step)) && |Apply(s, step).stoppers| <= 1
  {
    var u := Apply(s, step);
    assert u.stoppers.Keys == s.stoppers.Keys;
    forall w | StopperAt(u, w, Blocked) && u.active == 0
      ensures u.token || exists r :: At(u, r, Notifying)
    {
      if step.Decrement? {
        assert At(u, step.r, Notifying);
      } else if step.Wake? {
        OnlyOne(s.stoppers.Keys, step.w, w);
      } else if !step.Notify? && !step.Announce? {
        assert StopperAt(s, w, Blocked) && s.active == 0;
        StillNotifying(s, step);
      }
    }
  }

  lemma StillNotifying(s: State, step: Step)
    requires Enabled(s, step) && !step.Notify?
    ensures (exists r :: At(s, r, Notifying)) ==> exists r :: At(Apply(s, step), r, Notifying)
  {
    if r :| At(s, r, Notifying) {
      assert At(Apply(s, step), r, Notifying);
    }
  }

  lemma OnlyOne(ids: set<Id>, v: Id, w: Id)
    requires |ids| <= 1 && v in ids && w in ids
    ensures v == w
  {
    assert |ids - {v}| == |ids| - 1;
    assert ids - {v} == {};
  }

  lemma {:induction false} OneStopperWakes(run: Run, i: nat)
    requires FromStart(run) && i < |run.states| && |run.states[0].stoppers| <= 1
    ensures Wakeable(run.states[i]) && |run.states[i].stoppers| <= 1
  {
    if i > 0 {
      OneStopperWakes(run, i - 1);
      RunIsSafe(run, i - 1);
      WakeableStep(run.states[i - 1], run.steps[i - 1]);
    }
  }

  ghost predicate NeverLosesWakeup(callers: nat) {
    forall run: Run, i: nat :: FromStart(run) && |run.states[0].stoppers| == callers && i < |run.states| ==>
      Wakeable(run.states[i])
  }

  // One slot serves one waiter: wake-ups are never lost exactly when at most
  // one caller stops the server.
  lemma WakeupsAreSafeForOneCaller(callers: nat)
    ensures NeverLosesWakeup(callers) <==> callers <= 1
  {
    if callers <= 1 {
      forall run: Run, i: nat | FromStart(run) && |run.states[0].stoppers| == callers && i < |run.states|
        ensures Wakeable(run.states[i])
      {
        OneStopperWakes(run, i);
      }
    } else {
      var run := LostWakeup(callers);
      var i := |run.states| - 1;
      assert !Wakeable(run.states[i]);
    }
  }

  function IdleStoppers(n: nat): (m: map<Id, Stopper>)
    ensures |m| == n
    ensures forall w: nat :: w in m <==> w < n
    ensures forall w :: w in m ==> m[w] == Idle
  {
    if n == 0 then map[] else IdleStoppers(n - 1)[n - 1 := Idle]
  }

  // Two callers, one request: both callers block, the request's notification
  // and the announcements share one slot, and its token wakes only one caller.
  lemma LostWakeup(callers: nat) returns (run: Run)
    requires callers >= 2
    ensures FromStart(run) && |run.states[0].stoppers| == callers && !Wakeable(Last(run))
  {
    hide FromStart, Extend;
    var idle := IdleStoppers(callers);
    run := BothBlocked(callers, idle);
    run := Do(run, Decrement(7));
    run := Do(run, Notify(7));
    run := Do(run, Wake(0));
    assert Last(run) == State(true, 0, false, map[7 := Gone], idle[0 := Loading][1 := Blocked]);
    assert StopperAt(Last(run), 1, Blocked);
  }

  lemma OneRunning(idle: map<Id, Stopper>) returns (run: Run)
    requires forall w :: w in idle ==> idle[w] == Idle
    ensures |run.states| > 0
    ensures FromStart(run) && run.states[0].stoppers == idle
    ensures Last(run) == State(false, 1, false, map[7 := Running], idle)
  {
    run := Run([State(false, 0, false, map[], idle)], []);
    assert FromStart(run);
    hide FromStart, Extend;
    run := Do(run, Arrive(7));
    run := Do(run, FirstLoad(7));
    run := Do(run, Increment(7));
    run := Do(run, SecondLoad(7));
  }

  lemma BothBlocked(callers: nat, idle: map<Id, Stopper>) returns (run: Run)
    requires callers >= 2 && idle == IdleStoppers(callers)
    ensures |run.states| > 0
    ensures FromStart(run) && run.states[0].stoppers == idle
    ensures Last(run) == State(true, 1, true, map[7 := Running], idle[0 := Blocked][1 := Blocked])
  {
    run := OneRunning(idle);
    hide FromStart, Extend;
    run := Do(run, StoreFlag(0));
    run := Do(run, Announce(0));
    run := Do(run, LoadCounter(0));
    assert Last(run) == State(true, 1, true, map[7 := Running], idle[0 := Blocked]);
    run := Do(run, StoreFlag(1));
    run := Do(run, Announce(1));
    run := Do(run, LoadCounter(1));
  }

  // ---------------------------------------------------------------------
  // How often a caller wakes
  // ---------------------------------------------------------------------

  // Requests that can still notify, and callers that have not announced yet.
  function InFlight(s: State): set<Id> {
    set r | r in s.requests && !s.requests[r].Arriving? && !s.requests[r].Gone?
  }

  function Unannounced(s: State): set<Id> {
    set w | w in s.stoppers && (s.stoppers[w].Idle? || s.stoppers[w].Announcing?)
  }

  function Potential(s: State): nat {
    (if s.token then 1 else 0) + |InFlight(s)| + |Unannounced(s)|
  }

  function Wakes(steps: seq<Step>): nat {
    if steps == [] then 0
    else (if steps[|steps| - 1].Wake? then 1 else 0) + Wakes(steps[..|steps| - 1])
  }

  lemma PotentialStep(s: State, step: Step)
    requires s.draining && Enabled(s, step)
    ensures Apply(s, step).draining
    ensures Potential(Apply(s, step)) + (if step.Wake? then 1 else 0) <= Potential(s)
  {
    var u := Apply(s, step);
    InFlightStep(s, step);
    UnannouncedStep(s, step);
  }

  lemma InFlightStep(s: State, step: Step)
    requires s.draining && Enabled(s, step)
    ensures |InFlight(Apply(s, step))| + (if step.Notify? then 1 else 0) <= |InFlight(s)|
  {
    var u := Apply(s, step);
    if step.Notify? {
      assert InFlight(u) == InFlight(s) - {step.r};
      assert step.r in InFlight(s);
    } else {
      assert InFlight(u) == InFlight(s);
    }
  }

  lemma UnannouncedStep(s: State, step: Step)
    requires Enabled(s, step)
    ensures |Unannounced(Apply(s, step))| + (if step.Announce? then 1 else 0) <= |Unannounced(s)|
  {
    var u := Apply(s, step);
    if step.Announce? {
      assert Unannounced(u) == Unannounced(s) - {step.w};
      assert step.w in Unannounced(s);
    } else {
      assert Unannounced(u) == Unannounced(s);
    }
  }

  // From a state with the flag up, every later wake-up is paid for by a token,
  // a request in flight or an announcement, so callers wake at most once per
  // request in flight, whatever requests arrive later.
  lemma {:induction false} WakesAreBounded(run: Run, i: nat, j: nat)
    requires Legal(run) && i <= j < |run.states| && run.states[i].draining
    ensures run.states[j].draining
    ensures Wakes(run.steps[i..j]) + Potential(run.states[j]) <= Potential(run.states[i])
    decreases j
  {
    if i < j {
      WakesAreBounded(run, i, j - 1);
      PotentialStep(run.states[j - 1], run.steps[j - 1]);
      assert run.steps[i..j][..j - i - 1] == run.steps[i..j - 1];
    }
  }
}
