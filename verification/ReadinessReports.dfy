// What a readiness report says, in both directions: which dependencies it calls
// ready, and that every outcome can be reported.
module ReadinessReports {
  import opened Readiness

  // ---------------------------------------------------------------------
  // Results and reports say what the checkers returned
  // ---------------------------------------------------------------------

  ghost predicate Truthful(ch: Check) {
    && (forall k :: 0 <= k < |ch.results| ==> (ch.results[k].verdict.Passed? <==> Earned(ch, ch.results[k].name)))
    && (!ch.phase.Returned? ==>
          forall n :: n in ch.report ==> n in ch.sent && (ch.report[n].ready <==> Earned(ch, n)))
  }

  lemma BeginIsTruthful(ch: Check, name: Name, busy: bool)
    requires CheckInv(ch) && Truthful(ch) && ch.phase.Beginning? && name in ch.todo
    ensures Truthful(BeginOne(ch, name, busy))
  {
    hide Reported;
    var next := BeginOne(ch, name, busy);
    forall n | n in ch.sent ensures n != name && (Earned(next, n) <==> Earned(ch, n)) {}
    forall k | 0 <= k < |next.results|
      ensures next.results[k].verdict.Passed? <==> Earned(next, next.results[k].name)
    {
      if k < |ch.results| { assert next.results[k] == ch.results[k]; }
    }
  }

  lemma SendIsTruthful(ch: Check, name: Name)
    requires CheckInv(ch) && Truthful(ch) && name in ch.workers && ch.workers[name].Sending?
    ensures Truthful(SendOne(ch, name))
  {
    hide Reported;
    var next := SendOne(ch, name);
    forall n | n in ch.sent ensures n != name && (Earned(next, n) <==> Earned(ch, n)) {}
    forall k | 0 <= k < |next.results|
      ensures next.results[k].verdict.Passed? <==> Earned(next, next.results[k].name)
    {
      if k < |ch.results| { assert next.results[k] == ch.results[k]; }
    }
  }

  lemma ReturnsIsTruthful(ch: Check, name: Name, failed: bool)
    requires CheckInv(ch) && Truthful(ch) && WorkerAt(ch, name, Checking)
    ensures Truthful(ch.(workers := ch.workers[name := Sending(failed)]))
  {
    hide Reported;
    var next := ch.(workers := ch.workers[name := Sending(failed)]);
    forall n | n in ch.sent ensures n != name && (Earned(next, n) <==> Earned(ch, n)) {}
  }

  lemma FinishIsTruthful(ch: Check, name: Name)
    requires CheckInv(ch) && Truthful(ch) && name in ch.workers && ch.workers[name].Finishing?
    ensures Truthful(ch.(workers := ch.workers[name := Exited(ch.workers[name].failed)]))
  {
    hide Reported, Queued, Bookkept;
    var next := ch.(workers := ch.workers[name := Exited(ch.workers[name].failed)]);
    forall n ensures Earned(next, n) <==> Earned(ch, n) {}
  }

  lemma ReceiveIsTruthful(ch: Check)
    requires CheckInv(ch) && Truthful(ch) && ch.phase.Collecting? && ch.results != [] && ch.pending <= ch.entries.Keys
    ensures Truthful(ReceiveOne(ch))
  {
    hide Reported;
    var next := ReceiveOne(ch);
    assert next.workers == ch.workers && next.sent == ch.sent;
    forall n ensures Earned(next, n) <==> Earned(ch, n) {}
    forall k | 0 <= k < |next.results| ensures next.results[k] == ch.results[k + 1] {}
  }

  lemma TruthfulStep(s: State, step: Step, c: Id)
    requires Inv(s) && (forall d :: d in s.checks ==> Truthful(s.checks[d]))
    requires Enabled(s, step) && c in Apply(s, step).checks
    ensures Truthful(Apply(s, step).checks[c])
  {
    hide CheckInv, Flagged, Unsent;
    if step.Register? || step.StartCheck? || step.c != c {
      assert c in s.checks ==> Apply(s, step).checks[c] == s.checks[c];
    } else {
      var ch := s.checks[c];
      assert CheckInv(ch) && Truthful(ch);
      hide Truthful;
      match step {
        case Begin(_, name) =>
          BeginsFromTodo(s, c, name);
          BeginIsTruthful(ch, name, name in s.running);
        case CheckerReturns(_, name, failed) => ReturnsIsTruthful(ch, name, failed);
        case Send(_, name) => SendIsTruthful(ch, name);
        case Finish(_, name) => FinishIsTruthful(ch, name);
        case Receive(_) => ReceiveIsTruthful(ch);
        case AllBegun(_) => PhaseIsTruthful(ch, Apply(s, step).checks[c]);
        case Deadline(_) => PhaseIsTruthful(ch, Apply(s, step).checks[c]);
        case Complete(_) => PhaseIsTruthful(ch, Apply(s, step).checks[c]);
      }
    }
  }

  lemma BeginsFromTodo(s: State, c: Id, name: Name)
    requires Enabled(s, Begin(c, name))
    ensures s.checks[c].phase.Beginning? && name in s.checks[c].todo
  {
  }

  // A step that at most returns the report.
  lemma PhaseIsTruthful(ch: Check, next: Check)
    requires Truthful(ch) && next.workers == ch.workers && next.results == ch.results
    requires next.phase.Returned? || (next.report == ch.report && next.sent == ch.sent && !ch.phase.Returned?)
    ensures Truthful(next)
  {
    forall n ensures Earned(next, n) <==> Earned(ch, n) {}
  }

  lemma {:induction false} RunIsTruthful(run: Run, i: nat, c: Id)
    requires Legal(run) && i < |run.states| && c in run.states[i].checks
    ensures Truthful(run.states[i].checks[c])
    decreases i
  {
    hide Truthful, Apply, Enabled;
    if i > 0 {
      RunKeepsInv(run, i - 1);
      var s := run.states[i - 1];
      forall d | d in s.checks ensures Truthful(s.checks[d]) {
        RunIsTruthful(run, i - 1, d);
      }
      TruthfulStep(run.states[i - 1], run.steps[i - 1], c);
    }
  }

  // ---------------------------------------------------------------------
  // A returned report
  // ---------------------------------------------------------------------

  // What later steps leave of a returned check, and of what has been sent.
  ghost predicate Kept(ch: Check, next: Check) {
    && next.entries == ch.entries && ch.sent <= next.sent
    && (ch.phase.Returned? ==> next.phase.Returned? && next.report == ch.report && next.ready == ch.ready)
    && forall n :: n in ch.sent ==> (Earned(next, n) <==> Earned(ch, n))
  }

  // A step at the name of a worker that has not sent yet.
  lemma OneWorkerKept(ch: Check, next: Check, name: Name)
    requires name !in ch.sent && ch.sent <= next.sent && next.entries == ch.entries
    requires next.phase == ch.phase && next.report == ch.report && next.ready == ch.ready
    requires forall n :: n != name ==> (n in next.workers <==> n in ch.workers)
    requires forall n :: n != name && n in ch.workers ==> next.workers[n] == ch.workers[n]
    ensures Kept(ch, next)
  {
    forall n | n in ch.sent ensures Earned(next, n) <==> Earned(ch, n) {}
  }

  lemma SameWorkersKept(ch: Check, next: Check)
    requires next.workers == ch.workers && next.sent == ch.sent && next.entries == ch.entries && !ch.phase.Returned?
    ensures Kept(ch, next)
  {
    forall n ensures Earned(next, n) <==> Earned(ch, n) {}
  }

  lemma FinishKept(ch: Check, name: Name)
    requires name in ch.workers && ch.workers[name].Finishing?
    ensures Kept(ch, ch.(workers := ch.workers[name := Exited(ch.workers[name].failed)]))
  {
    var next := ch.(workers := ch.workers[name := Exited(ch.workers[name].failed)]);
    forall n ensures Earned(next, n) <==> Earned(ch, n) {}
  }

  lemma StepStays(s: State, step: Step, c: Id)
    requires Enabled(s, step) && c in s.checks && CheckInv(s.checks[c])
    ensures c in Apply(s, step).checks && Kept(s.checks[c], Apply(s, step).checks[c])
  {
    hide CheckInv, Kept, Earned;
    var ch := s.checks[c];
    if step.Register? || step.StartCheck? || step.c != c {
      assert Apply(s, step).checks[c] == ch;
      KeptItself(ch);
    } else {
      var next := Apply(s, step).checks[c];
      match step {
        case Begin(_, name) =>
          TodoIsNew(ch, name);
          OneWorkerKept(ch, next, name);
        case CheckerReturns(_, name, _) =>
          NotSentYet(ch, name);
          OneWorkerKept(ch, next, name);
        case Send(_, name) =>
          NotSentYet(ch, name);
          OneWorkerKept(ch, next, name);
        case Finish(_, name) => FinishKept(ch, name);
        case AllBegun(_) => SameWorkersKept(ch, next);
        case Receive(_) => SameWorkersKept(ch, next);
        case Deadline(_) => SameWorkersKept(ch, next);
        case Complete(_) => SameWorkersKept(ch, next);
      }
    }
  }

  lemma NotSentYet(ch: Check, name: Name)
    requires CheckInv(ch) && name in ch.workers && (ch.workers[name].Checking? || ch.workers[name].Sending?)
    ensures name !in ch.sent
  {
  }

  lemma KeptItself(ch: Check)
    ensures Kept(ch, ch)
  {
  }

  lemma KeptOn(ch: Check, next: Check, last: Check)
    requires Kept(ch, next) && Kept(next, last)
    ensures Kept(ch, last)
  {
    hide Earned;
  }

  lemma {:induction false} Stays(run: Run, c: Id, k: nat, j: nat)
    requires Legal(run) && k <= j < |run.states| && c in run.states[k].checks
    ensures c in run.states[j].checks && Kept(run.states[k].checks[c], run.states[j].checks[c])
    decreases j
  {
    hide Apply, Enabled, Kept, CheckInv;
    if k == j {
      KeptItself(run.states[k].checks[c]);
    } else {
      Stays(run, c, k, j - 1);
      RunKeepsInv(run, j - 1);
      StepStays(run.states[j - 1], run.steps[j - 1], c);
      KeptOn(run.states[k].checks[c], run.states[j - 1].checks[c], run.states[j].checks[c]);
    }
  }

  // A report returned because nothing was pending: a dependency is ready if
  // and only if this check started its checker and it returned without error.
  lemma CompleteReportIsExact(run: Run, c: Id, k: nat, j: nat)
    requires Legal(run) && k < j < |run.states| && run.steps[k] == Complete(c)
    ensures c in run.states[j].checks
    ensures
      var ch := run.states[j].checks[c];
      && ch.phase.Returned? && ch.report.Keys == ch.entries.Keys
      && (forall n :: n in ch.report ==> (ch.report[n].ready <==> Earned(ch, n)))
      && (ch.ready <==> forall n :: n in ch.entries && ch.entries[n] ==> Earned(ch, n))
  {
    CompleteMeans(run, c, k);
    Stays(run, c, k + 1, j);
    ReportIsExact(run, j, c);
    hide Earned;
  }

  lemma CompleteMeans(run: Run, c: Id, k: nat)
    requires Legal(run) && k < |run.steps| && run.steps[k] == Complete(c)
    ensures c in run.states[k + 1].checks
    ensures
      var ch := run.states[k + 1].checks[c];
      ch.phase.Returned? && forall n :: n in ch.report ==> n in ch.sent && (ch.report[n].ready <==> Earned(ch, n))
  {
    var s := run.states[k];
    assert Enabled(s, Complete(c)) && run.states[k + 1] == Apply(s, Complete(c));
    RunIsTruthful(run, k, c);
  }

  // A report returned at the deadline: a dependency is ready if and only if, in
  // addition, its result had been received by then.
  lemma DeadlineReportIsExact(run: Run, c: Id, k: nat, j: nat)
    requires Legal(run) && k < j < |run.states| && run.steps[k] == Deadline(c)
    ensures c in run.states[k].checks && c in run.states[j].checks
    ensures
      var pending, ch := run.states[k].checks[c].pending, run.states[j].checks[c];
      && ch.phase.Returned? && ch.report.Keys == ch.entries.Keys
      && (forall n :: n in ch.report ==> (ch.report[n].ready <==> n !in pending && Earned(ch, n)))
      && (ch.ready <==> forall n :: n in ch.entries && ch.entries[n] ==> n !in pending && Earned(ch, n))
  {
    DeadlineMeans(run, c, k);
    Stays(run, c, k + 1, j);
    ReportIsExact(run, j, c);
    hide Earned;
  }

  lemma DeadlineMeans(run: Run, c: Id, k: nat)
    requires Legal(run) && k < |run.steps| && run.steps[k] == Deadline(c)
    ensures c in run.states[k].checks && c in run.states[k + 1].checks
    ensures
      var pending, ch := run.states[k].checks[c].pending, run.states[k + 1].checks[c];
      && ch.phase.Returned?
      && forall n :: n in ch.report ==>
           if n in pending then !ch.report[n].ready else n in ch.sent && (ch.report[n].ready <==> Earned(ch, n))
  {
    var s := run.states[k];
    assert Enabled(s, Deadline(c)) && run.states[k + 1] == Apply(s, Deadline(c));
    RunIsTruthful(run, k, c);
    var ch, next := s.checks[c], run.states[k + 1].checks[c];
    forall n ensures Earned(next, n) <==> Earned(ch, n) {}
  }

  // ---------------------------------------------------------------------
  // Reports and the checkers' returns
  // ---------------------------------------------------------------------

  predicate HasReturned(ch: Check, n: Name, failed: bool) {
    WorkerAt(ch, n, Sending(failed)) || WorkerAt(ch, n, Finishing(failed)) || WorkerAt(ch, n, Exited(failed))
  }

  ghost predicate ReturnedBefore(run: Run, i: nat, c: Id, n: Name, failed: bool) {
    exists k: nat :: k < i && k < |run.steps| && run.steps[k] == CheckerReturns(c, n, failed)
  }

  lemma ReturnStep(s: State, step: Step, c: Id, n: Name, failed: bool)
    requires Inv(s) && Enabled(s, step) && c in Apply(s, step).checks
    ensures HasReturned(Apply(s, step).checks[c], n, failed) <==>
              (c in s.checks && HasReturned(s.checks[c], n, failed)) || step == CheckerReturns(c, n, failed)
  {
    hide CheckInv, Flagged, Unsent, HasReturned;
    if step.Register? || step.StartCheck? || step.c != c {
      if c in s.checks {
        assert Apply(s, step).checks[c] == s.checks[c];
      } else {
        assert Apply(s, step).checks[c] == Opened(s.entries);
        NoneHasReturned(s.entries, n, failed);
      }
    } else {
      var ch, next := s.checks[c], Apply(s, step).checks[c];
      assert CheckInv(ch);
      match step {
        case Begin(_, name) =>
          TodoIsNew(ch, name);
          BegunHasNotReturned(ch, next, name, n, failed);
        case CheckerReturns(_, name, f) => ReturnHasReturned(ch, name, f, n, failed);
        case Send(_, name) => MovedHasReturned(ch, next, name, n, failed);
        case Finish(_, name) => MovedHasReturned(ch, next, name, n, failed);
        case AllBegun(_) => SameHasReturned(ch, next, n, failed);
        case Receive(_) => SameHasReturned(ch, next, n, failed);
        case Deadline(_) => SameHasReturned(ch, next, n, failed);
        case Complete(_) => SameHasReturned(ch, next, n, failed);
      }
    }
  }

  lemma NoneHasReturned(entries: map<Name, bool>, n: Name, failed: bool)
    ensures !HasReturned(Opened(entries), n, failed)
  {
  }

  lemma TodoIsNew(ch: Check, name: Name)
    requires CheckInv(ch) && name in ch.todo
    ensures name !in ch.sent && name !in ch.workers
  {
  }

  lemma BegunHasNotReturned(ch: Check, next: Check, name: Name, n: Name, failed: bool)
    requires name !in ch.workers && (next.workers == ch.workers || next.workers == ch.workers[name := Checking])
    ensures HasReturned(next, n, failed) <==> HasReturned(ch, n, failed)
  {
  }

  lemma ReturnHasReturned(ch: Check, name: Name, f: bool, n: Name, failed: bool)
    requires WorkerAt(ch, name, Checking)
    ensures HasReturned(ch.(workers := ch.workers[name := Sending(f)]), n, failed) <==>
              HasReturned(ch, n, failed) || (n == name && f == failed)
  {
  }

  lemma MovedHasReturned(ch: Check, next: Check, name: Name, n: Name, failed: bool)
    requires name in ch.workers && !ch.workers[name].Checking?
    requires exists w: Worker ::
               next.workers == ch.workers[name := w] && !w.Checking? && w.failed == ch.workers[name].failed
    ensures HasReturned(next, n, failed) <==> HasReturned(ch, n, failed)
  {
  }

  lemma SameHasReturned(ch: Check, next: Check, n: Name, failed: bool)
    requires next.workers == ch.workers
    ensures HasReturned(next, n, failed) <==> HasReturned(ch, n, failed)
  {
  }

  // A worker is past its checker with this verdict exactly when the checker
  // returned it.
  lemma {:induction false} HasReturnedExactly(run: Run, i: nat, c: Id, n: Name, failed: bool)
    requires Legal(run) && i < |run.states| && c in run.states[i].checks
    ensures HasReturned(run.states[i].checks[c], n, failed) <==> ReturnedBefore(run, i, c, n, failed)
    decreases i
  {
    hide HasReturned, Apply, Enabled;
    if i > 0 {
      RunKeepsInv(run, i - 1);
      ReturnStep(run.states[i - 1], run.steps[i - 1], c, n, failed);
      if c in run.states[i - 1].checks {
        HasReturnedExactly(run, i - 1, c, n, failed);
      } else {
        NotYet(run, i - 1, c, n, failed);
      }
    }
  }

  lemma {:induction false} NotYet(run: Run, i: nat, c: Id, n: Name, failed: bool)
    requires Legal(run) && i < |run.states| && c !in run.states[i].checks
    ensures !ReturnedBefore(run, i, c, n, failed)
  {
    forall k: nat | k < i && k < |run.steps| ensures run.steps[k] != CheckerReturns(c, n, failed) {
      if run.steps[k] == CheckerReturns(c, n, failed) {
        assert Enabled(run.states[k], run.steps[k]);
        Stays(run, c, k, i);
      }
    }
  }

  // In a complete report a dependency is ready exactly when this check's own
  // call of its checker returned without an error.
  lemma ReadyMeansPassed(run: Run, c: Id, k: nat, j: nat, n: Name)
    requires Legal(run) && k < j < |run.states| && run.steps[k] == Complete(c)
    ensures c in run.states[j].checks
    ensures n in run.states[j].checks[c].report ==>
              (run.states[j].checks[c].report[n].ready <==> ReturnedBefore(run, k, c, n, false))
  {
    CompleteReportIsExact(run, c, k, j);
    CompleteMeans(run, c, k);
    Stays(run, c, k + 1, j);
    var ch := run.states[k + 1].checks[c];
    HasReturnedExactly(run, k, c, n, false);
    RunKeepsInv(run, k);
    RunKeepsInv(run, k + 1);
    CompleteChangesNoWorker(run.states[k], c, n);
    if n in ch.report { SentIsPast(ch, n); }
  }

  lemma CompleteChangesNoWorker(s: State, c: Id, n: Name)
    requires Enabled(s, Complete(c))
    ensures HasReturned(Apply(s, Complete(c)).checks[c], n, false) <==> HasReturned(s.checks[c], n, false)
  {
  }

  lemma SentIsPast(ch: Check, n: Name)
    requires CheckInv(ch) && n in ch.sent
    ensures Earned(ch, n) <==> HasReturned(ch, n, false)
  {
  }

  // A check starts the checker of a dependency exactly when it finds none
  // running; one that it found running it never reports as ready.
  lemma FoundRunningIsNeverReady(run: Run, i: nat, j: nat, c: Id, n: Name)
    requires Legal(run) && i < j < |run.states| && run.steps[i] == Begin(c, n)
    ensures c in run.states[j].checks
    ensures n in run.states[j].checks[c].workers <==> n !in run.states[i].running
    ensures n in run.states[i].running && n in run.states[j].checks[c].report ==>
              !run.states[j].checks[c].report[n].ready
  {
    hide CheckInv, Flagged, Unsent, Apply, Enabled;
    assert Enabled(run.states[i], run.steps[i]);
    BeginMeans(run.states[i], c, n);
    RunKeepsInv(run, i);
    WorkersStay(run, i + 1, j, c, n);
    RunKeepsInv(run, j);
    ReadyHasWorker(run.states[j].checks[c], n);
  }

  lemma ReadyHasWorker(ch: Check, n: Name)
    requires CheckInv(ch)
    ensures n in ch.report && ch.report[n].ready ==> n in ch.workers
  {
  }

  lemma BeginMeans(s: State, c: Id, n: Name)
    requires Enabled(s, Begin(c, n))
    ensures c in s.checks && c in Apply(s, Begin(c, n)).checks
    ensures
      var next := Apply(s, Begin(c, n)).checks[c];
      n !in next.todo && (CheckInv(s.checks[c]) ==> (n in next.workers <==> n !in s.running))
  {
  }

  lemma {:induction false} WorkersStay(run: Run, i: nat, j: nat, c: Id, n: Name)
    requires Legal(run) && i <= j < |run.states| && c in run.states[i].checks && n !in run.states[i].checks[c].todo
    ensures c in run.states[j].checks && n !in run.states[j].checks[c].todo
    ensures n in run.states[j].checks[c].workers <==> n in run.states[i].checks[c].workers
    decreases j
  {
    hide Apply, Enabled;
    if i < j {
      WorkersStay(run, i, j - 1, c, n);
      WorkerStays(run.states[j - 1], run.steps[j - 1], c, n);
    }
  }

  lemma WorkerStays(s: State, step: Step, c: Id, n: Name)
    requires Enabled(s, step) && c in s.checks && n !in s.checks[c].todo
    ensures c in Apply(s, step).checks && n !in Apply(s, step).checks[c].todo
    ensures n in Apply(s, step).checks[c].workers <==> n in s.checks[c].workers
  {
  }

  // ---------------------------------------------------------------------
  // A check is never stuck
  // ---------------------------------------------------------------------

  ghost predicate Accounted(ch: Check) {
    && (forall n :: n in ch.entries && n !in ch.todo ==> n in ch.workers || n in ch.sent)
    && (!ch.phase.Returned? ==> forall n :: n in ch.pending && n in ch.sent ==> Queues(ch, n))
  }

  predicate Queues(ch: Check, n: Name) {
    exists k :: 0 <= k < |ch.results| && ch.results[k].name == n
  }

  lemma ResultsGrow(ch: Check, next: Check, r: Result, n: Name)
    requires next.results == ch.results + [r]
    ensures Queues(next, n) <==> Queues(ch, n) || n == r.name
  {
    if k :| 0 <= k < |ch.results| && ch.results[k].name == n { assert next.results[k].name == n; }
    assert next.results[|ch.results|] == r;
  }

  lemma ResultsShrink(ch: Check, next: Check, n: Name)
    requires ch.results != [] && next.results == ch.results[1..] && n != ch.results[0].name
    ensures Queues(next, n) <==> Queues(ch, n)
  {
    if k :| 0 <= k < |ch.results| && ch.results[k].name == n { assert next.results[k - 1].name == n; }
    if k :| 0 <= k < |next.results| && next.results[k].name == n { assert ch.results[k + 1].name == n; }
  }

  lemma AccountedStep(s: State, step: Step, c: Id)
    requires (forall d :: d in s.checks ==> CheckInv(s.checks[d]) && Accounted(s.checks[d]))
    requires Enabled(s, step) && c in Apply(s, step).checks
    ensures Accounted(Apply(s, step).checks[c])
  {
    hide CheckInv, Queues;
    if step.Register? || step.StartCheck? || step.c != c {
      assert c in s.checks ==> Apply(s, step).checks[c] == s.checks[c];
    } else {
      var ch, next := s.checks[c], Apply(s, step).checks[c];
      match step {
        case Begin(_, name) =>
          forall n ensures next.results == ch.results || (Queues(next, n) <==> Queues(ch, n) || n == name) {
            if next.results != ch.results { ResultsGrow(ch, next, Result(name, InProgress), n); }
          }
          TodoIsNew(ch, name);
          if next.results == ch.results { SameQueue(ch, next); }
        case Send(_, name) =>
          forall n ensures Queues(next, n) <==> Queues(ch, n) || n == name {
            ResultsGrow(ch, next, next.results[|ch.results|], n);
          }
        case Receive(_) =>
          ReceiveShrinks(ch);
          forall n | n != ch.results[0].name ensures Queues(next, n) <==> Queues(ch, n) { ResultsShrink(ch, next, n); }
        case CheckerReturns(_, _, _) => SameQueue(ch, next);
        case Finish(_, _) => SameQueue(ch, next);
        case AllBegun(_) => SameQueue(ch, next);
        case Deadline(_) =>
        case Complete(_) =>
      }
    }
  }

  lemma SameQueue(ch: Check, next: Check)
    requires next.results == ch.results
    ensures forall n :: Queues(next, n) <==> Queues(ch, n)
  {
  }

  lemma {:induction false} RunIsAccounted(run: Run, i: nat, c: Id)
    requires Legal(run) && i < |run.states| && c in run.states[i].checks
    ensures Accounted(run.states[i].checks[c])
    decreases i
  {
    hide Accounted, Apply, Enabled;
    if i > 0 {
      RunKeepsInv(run, i - 1);
      var s := run.states[i - 1];
      forall d | d in s.checks ensures CheckInv(s.checks[d]) && Accounted(s.checks[d]) {
        RunIsAccounted(run, i - 1, d);
      }
      AccountedStep(s, run.steps[i - 1], c);
    }
  }

  // A check that collects can return, or receive, or waits for one of the
  // goroutines it started, which can go on.
  lemma CollectorIsNeverStuck(run: Run, i: nat, c: Id)
    requires Legal(run) && i < |run.states| && c in run.states[i].checks && run.states[i].checks[c].phase.Collecting?
    ensures
      var s := run.states[i];
      || Enabled(s, Complete(c)) || Enabled(s, Receive(c))
      || exists n :: n in s.checks[c].pending
                     && (Enabled(s, CheckerReturns(c, n, false)) || Enabled(s, Send(c, n)))
  {
    hide CheckInv, Accounted, Enabled;
    RunKeepsInv(run, i);
    RunIsAccounted(run, i, c);
    var s := run.states[i];
    var ch := s.checks[c];
    assert CheckInv(ch);
    if n: Name :| n in ch.pending {
      SendsNeverBlock(run, i, c, n);
      PendingGoesOn(s, c, n);
    } else {
      assert ch.pending == {};
      NothingPending(s, c);
    }
  }

  lemma PendingGoesOn(s: State, c: Id, n: Name)
    requires c in s.checks && CheckInv(s.checks[c]) && Accounted(s.checks[c]) && s.checks[c].phase.Collecting?
    requires n in s.checks[c].pending
    requires n in s.checks[c].workers && s.checks[c].workers[n].Sending? ==> HasRoom(s.checks[c])
    ensures Enabled(s, Receive(c)) || Enabled(s, CheckerReturns(c, n, false)) || Enabled(s, Send(c, n))
  {
    hide Queued;
    assert s.checks[c].pending <= s.checks[c].entries.Keys;
  }

  lemma NothingPending(s: State, c: Id)
    requires c in s.checks && s.checks[c].phase.Collecting? && s.checks[c].pending == {}
    ensures Enabled(s, Complete(c))
  {
  }

  // ---------------------------------------------------------------------
  // Every outcome can be reported
  // ---------------------------------------------------------------------

  function Last(run: Run): State
    requires |run.states| > 0
  {
    run.states[|run.states| - 1]
  }

  ghost predicate Continues(run: Run, longer: Run) {
    Legal(longer) && |longer.states| > 0 && run.states <= longer.states && run.steps <= longer.steps
  }

  lemma ContinuesOn(run: Run, longer: Run, longest: Run)
    requires Continues(run, longer) && Continues(longer, longest)
    ensures Continues(run, longest)
  {
    hide Legal;
  }

  lemma ContinuesItself(run: Run)
    requires Legal(run)
    ensures |run.states| > 0 && Continues(run, run)
  {
  }

  lemma ContinuesIsLegal(run: Run, longer: Run)
    requires Continues(run, longer)
    ensures Legal(longer) && |longer.states| > 0
  {
  }

  lemma Do(run: Run, step: Step) returns (longer: Run)
    requires Legal(run) && Enabled(Last(run), step)
    ensures Continues(run, longer) && |longer.states| > 0 && Last(longer) == Apply(Last(run), step)
    ensures |longer.steps| == |longer.states| - 1 > 0 && longer.steps[|longer.steps| - 1] == step
    ensures longer.states[|longer.states| - 2] == Last(run)
  {
    hide Enabled, Apply;
    longer := Run(run.states + [Apply(Last(run), step)], run.steps + [step]);
    forall i | 0 <= i < |longer.steps|
      ensures Enabled(longer.states[i], longer.steps[i])
      ensures longer.states[i + 1] == Apply(longer.states[i], longer.steps[i])
    {
      if i < |run.steps| {
        assert longer.states[i] == run.states[i] && longer.states[i + 1] == run.states[i + 1];
        assert longer.steps[i] == run.steps[i];
      }
    }
  }

  // The check c is running its checkers one after the other: those begun have
  // finished, with an error exactly for the names in `bad`.
  ghost predicate Going(s: State, c: Id, entries: map<Name, bool>, bad: set<Name>) {
    && c in s.checks && s.running == {}
    && s.checks[c].entries == entries && s.checks[c].todo <= entries.Keys
    && forall n :: n in entries && n !in s.checks[c].todo ==> WorkerAt(s.checks[c], n, Exited(n in bad))
  }

  lemma RunOneChecker(run: Run, c: Id, entries: map<Name, bool>, bad: set<Name>, n: Name) returns (longer: Run)
    requires Legal(run) && Going(Last(run), c, entries, bad)
    requires Last(run).checks[c].phase.Beginning? && n in Last(run).checks[c].todo
    ensures Continues(run, longer) && |longer.states| > 0 && Going(Last(longer), c, entries, bad)
    ensures Last(longer).checks[c].phase.Beginning?
    ensures Last(longer).checks[c].todo == Last(run).checks[c].todo - {n}
  {
    hide Continues, Legal;
    ContinuesItself(run);
    var begun := Do(run, Begin(c, n));
    ContinuesIsLegal(run, begun);
    var returned := Do(begun, CheckerReturns(c, n, n in bad));
    ContinuesIsLegal(begun, returned);
    SenderHasRoom(returned, c, n);
    var sent := Do(returned, Send(c, n));
    ContinuesIsLegal(returned, sent);
    longer := Do(sent, Finish(c, n));
    ContinuesOn(run, begun, returned);
    ContinuesOn(run, returned, sent);
    ContinuesOn(run, sent, longer);
  }

  lemma SenderHasRoom(run: Run, c: Id, n: Name)
    requires Legal(run) && c in Last(run).checks
    requires WorkerAt(Last(run).checks[c], n, Sending(true)) || WorkerAt(Last(run).checks[c], n, Sending(false))
    ensures HasRoom(Last(run).checks[c])
  {
    SendsNeverBlock(run, |run.states| - 1, c, n);
  }

  lemma {:induction false} RunCheckers(run: Run, c: Id, entries: map<Name, bool>, bad: set<Name>) returns (longer: Run)
    requires Legal(run) && Going(Last(run), c, entries, bad) && Last(run).checks[c].phase.Beginning?
    ensures Continues(run, longer) && |longer.states| > 0 && Going(Last(longer), c, entries, bad)
    ensures Last(longer).checks[c].phase.Beginning? && Last(longer).checks[c].todo == {}
    decreases |Last(run).checks[c].todo|
  {
    hide Continues, Legal, Going;
    ContinuesItself(run);
    GoingHasCheck(Last(run), c, entries, bad);
    var todo := Last(run).checks[c].todo;
    if todo == {} {
      longer := run;
    } else {
      var n: Name :| n in todo;
      var next := RunOneChecker(run, c, entries, bad, n);
      ContinuesIsLegal(run, next);
      GoingHasCheck(Last(next), c, entries, bad);
      longer := RunCheckers(next, c, entries, bad);
      ContinuesOn(run, next, longer);
    }
  }

  lemma GoingHasCheck(s: State, c: Id, entries: map<Name, bool>, bad: set<Name>)
    requires Going(s, c, entries, bad)
    ensures c in s.checks
  {
  }

  lemma {:induction false} ReceiveAll(run: Run, c: Id, entries: map<Name, bool>, bad: set<Name>) returns (longer: Run)
    requires Legal(run) && Going(Last(run), c, entries, bad) && Last(run).checks[c].todo == {}
    requires Last(run).checks[c].phase.Collecting?
    ensures Continues(run, longer) && |longer.states| > 0 && Going(Last(longer), c, entries, bad)
    ensures Last(longer).checks[c].todo == {} && Last(longer).checks[c].phase.Collecting?
    ensures Last(longer).checks[c].pending == {}
    decreases |Last(run).checks[c].pending|
  {
    hide Continues, Legal, CheckInv, Accounted;
    ContinuesItself(run);
    if Last(run).checks[c].pending == {} {
      longer := run;
    } else {
      ReceiveIsEnabled(run, c, entries, bad);
      var next := Do(run, Receive(c));
      ContinuesIsLegal(run, next);
      longer := ReceiveAll(next, c, entries, bad);
      ContinuesOn(run, next, longer);
    }
  }

  lemma ReceiveIsEnabled(run: Run, c: Id, entries: map<Name, bool>, bad: set<Name>)
    requires Legal(run) && Going(Last(run), c, entries, bad) && Last(run).checks[c].todo == {}
    requires Last(run).checks[c].phase.Collecting? && Last(run).checks[c].pending != {}
    ensures Enabled(Last(run), Receive(c))
    ensures |ReceiveOne(Last(run).checks[c]).pending| < |Last(run).checks[c].pending|
  {
    hide CheckInv, Accounted, Enabled, Going;
    ContinuesItself(run);
    GoingHasCheck(Last(run), c, entries, bad);
    LastIsAccounted(run, c);
    ReceiveGoes(Last(run), c, entries, bad);
  }

  lemma LastIsAccounted(run: Run, c: Id)
    requires Legal(run) && c in Last(run).checks
    ensures CheckInv(Last(run).checks[c]) && Accounted(Last(run).checks[c])
  {
    hide CheckInv, Accounted, Flagged, Unsent;
    RunKeepsInv(run, |run.states| - 1);
    RunIsAccounted(run, |run.states| - 1, c);
  }

  lemma ReceiveGoes(s: State, c: Id, entries: map<Name, bool>, bad: set<Name>)
    requires Going(s, c, entries, bad) && CheckInv(s.checks[c]) && Accounted(s.checks[c]) && s.checks[c].todo == {}
    requires s.checks[c].phase.Collecting? && s.checks[c].pending != {}
    ensures Enabled(s, Receive(c)) && |ReceiveOne(s.checks[c]).pending| < |s.checks[c].pending|
  {
    hide CheckInv, Accounted;
    PendingIsQueued(s.checks[c], entries, bad);
    ReceiveShrinks(s.checks[c]);
  }

  lemma PendingIsQueued(ch: Check, entries: map<Name, bool>, bad: set<Name>)
    requires CheckInv(ch) && Accounted(ch) && ch.phase.Collecting? && ch.pending != {} && ch.todo == {}
    requires ch.entries == entries && forall n :: n in entries ==> WorkerAt(ch, n, Exited(n in bad))
    ensures ch.results != [] && ch.pending <= ch.entries.Keys
  {
    hide Queued;
    PendingIsRegistered(ch);
    var n: Name :| n in ch.pending;
    assert WorkerAt(ch, n, Exited(n in bad));
    assert n in ch.sent && Queues(ch, n);
  }

  lemma PendingIsRegistered(ch: Check)
    requires CheckInv(ch) && ch.phase.Collecting?
    ensures ch.pending <= ch.entries.Keys
  {
  }

  // For any registry and any set of failing dependencies there is a check that
  // reports exactly the others ready.
  lemma EveryOutcomeCanBeReported(run: Run, c: Id, bad: set<Name>) returns (longer: Run)
    requires Legal(run) && c !in Last(run).checks && Last(run).running == {}
    ensures Continues(run, longer) && |longer.states| > 0 && c in Last(longer).checks
    ensures
      var entries, ch := Last(run).entries, Last(longer).checks[c];
      && ch.phase.Returned? && ch.report.Keys == entries.Keys
      && (forall n :: n in entries ==> ch.report[n].required == entries[n] && (ch.report[n].ready <==> n !in bad))
      && (ch.ready <==> forall n :: n in entries && entries[n] ==> n !in bad)
  {
    hide Continues, Legal;
    ContinuesItself(run);
    var entries := Last(run).entries;
    var started := Do(run, StartCheck(c));
    ContinuesIsLegal(run, started);
    var begun := RunCheckers(started, c, entries, bad);
    ContinuesIsLegal(started, begun);
    var collecting := Do(begun, AllBegun(c));
    ContinuesIsLegal(begun, collecting);
    var received := ReceiveAll(collecting, c, entries, bad);
    ContinuesIsLegal(collecting, received);
    longer := Do(received, Complete(c));
    ContinuesIsLegal(received, longer);
    ContinuesOn(run, started, begun);
    ContinuesOn(run, begun, collecting);
    ContinuesOn(run, collecting, received);
    ContinuesOn(run, received, longer);
    LastReport(longer, c, entries, bad);
  }

  lemma LastReport(run: Run, c: Id, entries: map<Name, bool>, bad: set<Name>)
    requires Legal(run) && |run.steps| > 0 && run.steps[|run.steps| - 1] == Complete(c)
    requires Going(Last(run), c, entries, bad) && Last(run).checks[c].todo == {}
    ensures
      var ch := Last(run).checks[c];
      && ch.phase.Returned? && ch.report.Keys == entries.Keys
      && (forall n :: n in entries ==> ch.report[n].required == entries[n] && (ch.report[n].ready <==> n !in bad))
      && (ch.ready <==> forall n :: n in entries && entries[n] ==> n !in bad)
  {
    CompleteReportIsExact(run, c, |run.steps| - 1, |run.states| - 1);
    ReportIsExact(run, |run.states| - 1, c);
    hide Legal;
    var ch := Last(run).checks[c];
    forall n | n in entries ensures Earned(ch, n) <==> n !in bad {
      assert WorkerAt(ch, n, Exited(n in bad));
    }
  }
}
