// The drain goes on: who is forced to stop, that nobody is stuck, and that a
// single caller can always still stop gracefully.
module DrainProgress {
  import opened Drain

  // ---------------------------------------------------------------------
  // Forced stops
  // ---------------------------------------------------------------------

  ghost predicate ExpiredBefore(run: Run, w: Id, i: nat) {
    exists k: nat :: k < i && k < |run.steps| && run.steps[k] == Expire(w)
  }

  // A caller ends with a forced stop exactly when its context ended while it
  // waited, and from then on.
  lemma {:induction false} ForcedExactly(run: Run, w: Id, i: nat)
    requires FromStart(run) && i < |run.states|
    ensures StopperAt(run.states[i], w, Forced) <==> ExpiredBefore(run, w, i)
  {
    hide Apply, Enabled;
    if i > 0 {
      ForcedExactly(run, w, i - 1);
      FinalStep(run.states[i - 1], run.steps[i - 1], w);
    }
  }

  lemma FinalStep(s: State, step: Step, w: Id)
    requires Enabled(s, step)
    ensures StopperAt(Apply(s, step), w, Forced) <==> StopperAt(s, w, Forced) || step == Expire(w)
    ensures StopperAt(Apply(s, step), w, Graceful) <==>
              StopperAt(s, w, Graceful) || (step == LoadCounter(w) && s.active == 0)
  {
  }

  // A caller stops gracefully exactly when it found the counter at zero.
  lemma {:induction false} GracefulExactly(run: Run, w: Id, i: nat)
    requires FromStart(run) && i < |run.states|
    ensures StopperAt(run.states[i], w, Graceful) <==>
              exists k: nat :: k < i && run.steps[k] == LoadCounter(w) && run.states[k].active == 0
  {
    hide Apply, Enabled;
    if i > 0 {
      GracefulExactly(run, w, i - 1);
      FinalStep(run.states[i - 1], run.steps[i - 1], w);
    }
  }

  // ---------------------------------------------------------------------
  // Admission
  // ---------------------------------------------------------------------

  // A request backs off only when it has seen the drain flag.
  lemma {:induction false} RetreatMeansDraining(run: Run, r: Id, i: nat)
    requires FromStart(run) && i < |run.states| && At(run.states[i], r, Retreating)
    ensures run.states[i].draining
  {
    assert Enabled(run.states[i - 1], run.steps[i - 1]);
    if At(run.states[i - 1], r, Retreating) { RetreatMeansDraining(run, r, i - 1); }
  }

  // The two loads admit a request exactly when both see no drain.
  lemma LoadsAdmitExactly(run: Run, r: Id, i: nat)
    requires FromStart(run) && i < |run.steps|
    ensures run.steps[i] == FirstLoad(r) ==>
              At(run.states[i + 1], r, if run.states[i].draining then Gone else Unflagged)
    ensures run.steps[i] == SecondLoad(r) ==>
              At(run.states[i + 1], r, if run.states[i].draining then Retreating else Running)
  {
  }

  // ---------------------------------------------------------------------
  // Nobody is stuck
  // ---------------------------------------------------------------------

  function NextOf(r: Id, pc: Request): Step {
    match pc
    case Arriving => FirstLoad(r)
    case Unflagged => Increment(r)
    case Counted => SecondLoad(r)
    case Retreating => Decrement(r)
    case Running => Decrement(r)
    case Notifying => Notify(r)
    case Gone => FirstLoad(r)
  }

  function Rank(pc: Request): nat {
    match pc
    case Arriving => 5
    case Unflagged => 4
    case Counted => 3
    case Retreating => 2
    case Running => 2
    case Notifying => 1
    case Gone => 0
  }

  // A request that has not left has a step, which takes it on.
  lemma RequestIsNeverStuck(s: State, r: Id)
    requires r in s.requests && !s.requests[r].Gone?
    ensures
      var step := NextOf(r, s.requests[r]);
      var u := Apply(s, step);
      && Enabled(s, step)
      && r in u.requests && Rank(u.requests[r]) < Rank(s.requests[r])
      && (forall q :: q != r ==> (q in u.requests <==> q in s.requests))
      && (forall q :: q != r && q in s.requests ==> u.requests[q] == s.requests[q])
      && u.stoppers == s.stoppers && u.draining == s.draining
  {
  }

  // So has a caller; while it is blocked it may have to wait for its context.
  lemma StopperIsNeverStuck(s: State, w: Id)
    requires w in s.stoppers && !s.stoppers[w].Graceful? && !s.stoppers[w].Forced?
    ensures exists step :: Enabled(s, step) && StepOf(step, w)
    ensures s.stoppers[w].Blocked? ==> Enabled(s, Expire(w)) && (Enabled(s, Wake(w)) <==> s.token)
  {
    var step := match s.stoppers[w]
      case Idle => StoreFlag(w)
      case Announcing => Announce(w)
      case Loading => LoadCounter(w)
      case _ => Expire(w);
    assert Enabled(s, step) && StepOf(step, w);
  }

  predicate StepOf(step: Step, w: Id) {
    step in {StoreFlag(w), Announce(w), LoadCounter(w), Wake(w), Expire(w)}
  }

  // ---------------------------------------------------------------------
  // A graceful stop stays possible
  // ---------------------------------------------------------------------

  ghost predicate Continues(run: Run, longer: Run) {
    FromStart(longer) && |longer.states| > 0 && run.states <= longer.states && run.steps <= longer.steps
  }

  lemma ContinuesItself(run: Run)
    requires FromStart(run)
    ensures |run.states| > 0 && Continues(run, run)
  {
  }

  lemma ContinuesOn(run: Run, longer: Run, longest: Run)
    requires Continues(run, longer) && Continues(longer, longest)
    ensures Continues(run, longest)
  {
    hide FromStart;
  }

  lemma ContinuesIsLegal(run: Run, longer: Run)
    requires Continues(run, longer)
    ensures FromStart(longer) && |longer.states| > 0
  {
  }

  lemma GoOn(run: Run, step: Step) returns (longer: Run)
    requires FromStart(run) && Enabled(Last(run), step)
    ensures Continues(run, longer) && Last(longer) == Apply(Last(run), step)
  {
    hide Enabled, Apply;
    longer := Extend(run, step);
    ExtendIsLegal(run, step);
    assert run.states <= longer.states && run.steps <= longer.steps;
  }

  lemma {:induction false} FinishRequest(run: Run, r: Id) returns (longer: Run)
    requires FromStart(run) && r in Last(run).requests
    ensures Continues(run, longer) && Last(longer).stoppers == Last(run).stoppers
    ensures Last(longer).requests == Last(run).requests[r := Gone]
    decreases Rank(Last(run).requests[r])
  {
    hide FromStart, Continues, Enabled, Apply;
    ContinuesItself(run);
    if Last(run).requests[r].Gone? {
      longer := run;
      assert Last(run).requests[r := Gone] == Last(run).requests;
    } else {
      RequestIsNeverStuck(Last(run), r);
      var next := GoOn(run, NextOf(r, Last(run).requests[r]));
      ContinuesIsLegal(run, next);
      longer := FinishRequest(next, r);
      ContinuesOn(run, next, longer);
      assert Last(next).requests[r := Gone] == Last(run).requests[r := Gone];
    }
  }

  function Present(s: State): set<Id> {
    set r | r in s.requests && !s.requests[r].Gone?
  }

  lemma {:induction false} FinishRequests(run: Run) returns (longer: Run)
    requires FromStart(run)
    ensures Continues(run, longer) && Last(longer).stoppers == Last(run).stoppers && Present(Last(longer)) == {}
    decreases |Present(Last(run))|
  {
    hide FromStart, Continues;
    ContinuesItself(run);
    if Present(Last(run)) == {} {
      longer := run;
    } else {
      var r: Id :| r in Present(Last(run));
      var next := FinishRequest(run, r);
      ContinuesIsLegal(run, next);
      assert Present(Last(next)) == Present(Last(run)) - {r};
      longer := FinishRequests(next);
      ContinuesOn(run, next, longer);
    }
  }

  // With no request left the counter is zero, and a single caller that is
  // blocked finds a token.
  lemma NothingInTheWay(run: Run, w: Id)
    requires FromStart(run) && |run.states[0].stoppers| <= 1 && Present(Last(run)) == {}
    ensures Last(run).active == 0
    ensures StopperAt(Last(run), w, Blocked) ==> Last(run).token
  {
    var s, i := Last(run), |run.states| - 1;
    CounterIsExact(run, i);
    OneStopperWakes(run, i);
    forall r | r in s.requests ensures s.requests[r].Gone? { assert r !in Present(s); }
    assert Holders(s) == {};
    forall r ensures !At(s, r, Notifying) {}
  }

  lemma {:induction false} FinishStopper(run: Run, w: Id) returns (longer: Run)
    requires FromStart(run) && |run.states[0].stoppers| <= 1 && Present(Last(run)) == {}
    requires w in Last(run).stoppers && !Last(run).stoppers[w].Forced?
    ensures Continues(run, longer) && StopperAt(Last(longer), w, Graceful)
    decreases StopperRank(Last(run).stoppers[w])
  {
    hide FromStart, Continues;
    ContinuesItself(run);
    NothingInTheWay(run, w);
    if Last(run).stoppers[w].Graceful? {
      longer := run;
    } else {
      var step := match Last(run).stoppers[w]
        case Idle => StoreFlag(w)
        case Announcing => Announce(w)
        case Loading => LoadCounter(w)
        case _ => Wake(w);
      var next := GoOn(run, step);
      ContinuesIsLegal(run, next);
      SameStart(run, next);
      longer := FinishStopper(next, w);
      ContinuesOn(run, next, longer);
    }
  }

  function StopperRank(pc: Stopper): nat {
    match pc
    case Idle => 4
    case Announcing => 3
    case Blocked => 2
    case Loading => 1
    case _ => 0
  }

  lemma SameStart(run: Run, longer: Run)
    requires FromStart(run) && Continues(run, longer)
    ensures |longer.states| > 0 && longer.states[0] == run.states[0]
  {
  }

  // From every state of every run with one caller that has not been forced, the
  // requests can leave and the caller can stop gracefully.
  lemma CanStopGracefully(run: Run, w: Id) returns (longer: Run)
    requires FromStart(run) && |run.states[0].stoppers| <= 1
    requires w in Last(run).stoppers && !Last(run).stoppers[w].Forced?
    ensures Continues(run, longer) && StopperAt(Last(longer), w, Graceful)
  {
    hide FromStart, Continues;
    ContinuesItself(run);
    var empty := FinishRequests(run);
    ContinuesIsLegal(run, empty);
    SameStart(run, empty);
    longer := FinishStopper(empty, w);
    ContinuesOn(run, empty, longer);
  }

  // Before the drain begins, a request that has not arrived can be admitted.
  lemma CanBeAdmitted(run: Run, r: Id) returns (longer: Run)
    requires FromStart(run) && !Last(run).draining && r !in Last(run).requests
    ensures Continues(run, longer) && At(Last(longer), r, Running)
  {
    hide FromStart, Continues;
    ContinuesItself(run);
    var arrived := GoOn(run, Arrive(r));
    ContinuesIsLegal(run, arrived);
    var loaded := GoOn(arrived, FirstLoad(r));
    ContinuesIsLegal(arrived, loaded);
    var counted := GoOn(loaded, Increment(r));
    ContinuesIsLegal(loaded, counted);
    longer := GoOn(counted, SecondLoad(r));
    ContinuesIsLegal(counted, longer);
    ContinuesOn(run, arrived, loaded);
    ContinuesOn(run, loaded, counted);
    ContinuesOn(run, counted, longer);
  }
}
