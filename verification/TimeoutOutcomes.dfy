// What the timeout middleware answers, by what it took first, and that it
// always answers.
module TimeoutOutcomes {
  import opened TimeoutBuffer

  // ---------------------------------------------------------------------
  // The answer
  // ---------------------------------------------------------------------

  ghost predicate Took(run: Run, i: nat, step: Step) {
    exists k: nat :: k < i && k < |run.steps| && run.steps[k] == step
  }

  // What main has taken, while it is still at it.
  ghost predicate Traced(run: Run, i: nat)
    requires i < |run.states|
  {
    var s := run.states[i];
    && (s.main.Selecting? ==> forall step :: Choice(step) ==> !Took(run, i, step))
    && (s.main.Finishing? ==> Only(run, i, TakeResult))
    && (s.main.Marking? ==> Only(run, i, TakeContext(s.main.reason)))
    && (s.main.Replying? ==> Only(run, i, TakeContext(Deadline)))
    && (s.main.Done? ==>
          || (Only(run, i, TakeResult) && s.handler == Reported(false) && s.client == Meant(s.log))
          || (Only(run, i, TakeResult) && s.handler == Reported(true) && s.client == Nothing)
          || (Only(run, i, TakeContext(Deadline)) && s.client == TimeoutReply)
          || (Only(run, i, TakeContext(ParentCancelled)) && s.client == Nothing))
  }

  predicate Choice(step: Step) {
    step.TakeResult? || step.TakeContext?
  }

  ghost predicate Only(run: Run, i: nat, choice: Step) {
    Took(run, i, choice) && forall step :: Choice(step) && step != choice ==> !Took(run, i, step)
  }

  lemma TookStep(run: Run, i: nat, step: Step)
    requires 0 < i <= |run.steps|
    ensures Took(run, i, step) <==> Took(run, i - 1, step) || run.steps[i - 1] == step
  {
  }

  lemma {:induction false} RunIsTraced(run: Run, i: nat)
    requires Legal(run) && i < |run.states|
    ensures Traced(run, i)
  {
    hide Inv, Took, Meant, Replay, Committed;
    if i == 0 {
      forall step ensures !Took(run, 0, step) { NothingTaken(run, step); }
    } else {
      RunIsTraced(run, i - 1);
      RunKeepsInv(run, i - 1);
      RunKeepsInv(run, i);
      var s, step := run.states[i - 1], run.steps[i - 1];
      assert Enabled(s, step);
      forall other
        ensures Took(run, i, other) <==> Took(run, i - 1, other) || step == other
      {
        TookStep(run, i, other);
      }
      TracedStep(run, i);
    }
  }

  lemma NothingTaken(run: Run, step: Step)
    ensures !Took(run, 0, step)
  {
  }

  lemma TracedStep(run: Run, i: nat)
    requires 0 < i < |run.states| && |run.steps| == |run.states| - 1
    requires Traced(run, i - 1) && Inv(run.states[i - 1])
    requires Enabled(run.states[i - 1], run.steps[i - 1])
    requires run.states[i] == Apply(run.states[i - 1], run.steps[i - 1])
    requires forall other :: Took(run, i, other) <==> Took(run, i - 1, other) || run.steps[i - 1] == other
    ensures Traced(run, i)
  {
    hide Took, Meant, Replay, Committed;
    var s := run.states[i - 1];
    if run.steps[i - 1].Commit? { CommitMeans(s); }
  }

  lemma CommitMeans(s: State)
    requires Inv(s) && s.main.Finishing?
    ensures Committed(s.buffer) == Meant(s.log)
  {
    ReplayMeans(s.log);
  }

  // When the middleware has returned: it took the handler's result and the
  // client got the complete response, or nothing after a panic; or it took the
  // deadline and the client got the timeout reply; or it took the cancellation
  // and the client got nothing.
  lemma AnswerExactly(run: Run, i: nat)
    requires Legal(run) && i < |run.states| && run.states[i].main.Done?
    ensures
      var s := run.states[i];
      && (Took(run, i, TakeResult) ==>
            s.handler.Reported? && s.client == if s.handler.panicked then Nothing else Meant(s.log))
      && (Took(run, i, TakeContext(Deadline)) ==> s.client == TimeoutReply)
      && (Took(run, i, TakeContext(ParentCancelled)) ==> s.client == Nothing)
      && (Took(run, i, TakeResult) || Took(run, i, TakeContext(Deadline)) || Took(run, i, TakeContext(ParentCancelled)))
  {
    hide Took, Meant;
    RunIsTraced(run, i);
  }

  // ---------------------------------------------------------------------
  // The middleware is never stuck
  // ---------------------------------------------------------------------

  predicate OfMain(step: Step) {
    Choice(step) || step.Commit? || step.Mark? || step.ReplyTimeout?
  }

  function Rank(main: Main): nat {
    match main
    case Selecting => 0
    case Finishing => 1
    case Marking(_) => 1
    case Replying => 2
    case Done => 3
  }

  // It waits only for the handler to report or for its context to end, and
  // each of its steps takes it on.
  lemma MainIsNeverStuck(run: Run, i: nat)
    requires Legal(run) && i < |run.states| && !run.states[i].main.Done?
    ensures
      var s := run.states[i];
      (exists step :: OfMain(step) && Enabled(s, step)) <==>
        !(s.main.Selecting? && !s.handler.Reported? && s.context == {})
  {
    var s := run.states[i];
    RunKeepsInv(run, i);
    if s.context != {} {
      var reason :| reason in s.context;
      assert s.main.Selecting? ==> Enabled(s, TakeContext(reason));
    }
    assert s.handler.Reported? && s.main.Selecting? ==> Enabled(s, TakeResult);
    assert s.main.Finishing? ==> Enabled(s, Commit);
    assert s.main.Marking? ==> Enabled(s, Mark);
    assert s.main.Replying? ==> Enabled(s, ReplyTimeout);
  }

  lemma MainAdvances(s: State, step: Step)
    requires Enabled(s, step)
    ensures if OfMain(step) then Rank(Apply(s, step).main) > Rank(s.main) else Apply(s, step).main == s.main
  {
  }

  // ---------------------------------------------------------------------
  // Every answer is possible
  // ---------------------------------------------------------------------

  function Last(run: Run): State
    requires |run.states| > 0
  {
    run.states[|run.states| - 1]
  }

  ghost predicate Continues(run: Run, longer: Run) {
    Legal(longer) && |longer.states| > 0 && run.states <= longer.states && run.steps <= longer.steps
  }

  lemma ContinuesItself(run: Run)
    requires Legal(run)
    ensures |run.states| > 0 && Continues(run, run)
  {
  }

  lemma ContinuesOn(run: Run, longer: Run, longest: Run)
    requires Continues(run, longer) && Continues(longer, longest)
    ensures Continues(run, longest)
  {
    hide Legal;
  }

  lemma ContinuesIsLegal(run: Run, longer: Run)
    requires Continues(run, longer)
    ensures Legal(longer) && |longer.states| > 0
  {
  }

  lemma Do(run: Run, step: Step) returns (longer: Run)
    requires Legal(run) && Enabled(Last(run), step)
    ensures Continues(run, longer) && Last(longer) == Apply(Last(run), step)
  {
    hide Enabled, Apply;
    longer := Run(run.states + [Apply(Last(run), step)], run.steps + [step]);
    forall i | 0 <= i < |longer.steps|
      ensures Enabled(longer.states[i], longer.steps[i])
      ensures longer.states[i + 1] == Apply(longer.states[i], longer.steps[i])
    {
      if i < |run.steps| {
        assert longer.states[i] == run.states[i] && longer.states[i + 1] == run.states[i + 1];
        assert longer.steps[i] == run.steps[i];
      }
    }
  }

  // The handler performs the operations one after the other.
  lemma {:induction false} HandleAll(run: Run, log: seq<Op>) returns (longer: Run)
    requires Legal(run) && Last(run).handler.Serving? && Last(run).main.Selecting?
    ensures Continues(run, longer) && Last(longer).handler.Serving? && Last(longer).main.Selecting?
    ensures Last(longer).log == Last(run).log + log && Last(longer).context == Last(run).context
    decreases |log|
  {
    hide Continues, Legal;
    ContinuesItself(run);
    if log == [] {
      longer := run;
    } else {
      var next := Do(run, Handle(log[0]));
      ContinuesIsLegal(run, next);
      longer := HandleAll(next, log[1..]);
      ContinuesOn(run, next, longer);
      assert [log[0]] + log[1..] == log;
    }
  }

  // Whatever a handler does next, as long as it still runs and main waits, its
  // complete response can reach the client.
  lemma EveryResponseCanBeGiven(run: Run, log: seq<Op>) returns (longer: Run)
    requires Legal(run) && Last(run).handler.Serving? && Last(run).main.Selecting?
    ensures Continues(run, longer) && Last(longer).main.Done? && Last(longer).client == Meant(Last(run).log + log)
  {
    hide Continues, Legal, Meant;
    ContinuesItself(run);
    var served := HandleAll(run, log);
    ContinuesIsLegal(run, served);
    var ended := Do(served, End(false));
    ContinuesIsLegal(served, ended);
    var reported := Do(ended, Report);
    ContinuesIsLegal(ended, reported);
    var taken := Do(reported, TakeResult);
    ContinuesIsLegal(reported, taken);
    LastIsKept(taken);
    CommitMeans(Last(taken));
    longer := Do(taken, Commit);
    ContinuesOn(run, served, ended);
    ContinuesOn(run, ended, reported);
    ContinuesOn(run, reported, taken);
    ContinuesOn(run, taken, longer);
  }

  lemma LastIsKept(run: Run)
    requires Legal(run)
    ensures |run.states| > 0 && Inv(Last(run))
  {
    RunKeepsInv(run, |run.states| - 1);
  }

  // While main waits and nothing else ended the context, the deadline can pass
  // and the client gets the timeout reply, whatever the handler has written.
  lemma DeadlineCanPass(run: Run) returns (longer: Run)
    requires Legal(run) && Last(run).main.Selecting? && Last(run).context <= {Deadline}
    ensures Continues(run, longer) && Last(longer).main.Done? && Last(longer).client == TimeoutReply
  {
    hide Continues, Legal;
    ContinuesItself(run);
    var ended := run;
    if Last(run).context == {} { ended := Do(run, EndContext(Deadline)); }
    ContinuesIsLegal(run, ended);
    assert Deadline in Last(ended).context;
    var taken := Do(ended, TakeContext(Deadline));
    ContinuesIsLegal(ended, taken);
    var marked := Do(taken, Mark);
    ContinuesIsLegal(taken, marked);
    longer := Do(marked, ReplyTimeout);
    ContinuesOn(run, ended, taken);
    ContinuesOn(run, taken, marked);
    ContinuesOn(run, marked, longer);
  }
}
