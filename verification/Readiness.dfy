// The readiness registry (readiness): any number of concurrent Check calls
// over a growing registry. A dependency is checked by at most one goroutine at
// a time; a Check collects results until its deadline. Locked sections,
// channel operations and goroutine boundaries are the steps.
module Readiness {
  type Name = string
  type Id = nat

  // A checker goroutine; its flag tells whether the check failed or panicked.
  datatype Worker = Checking | Sending(failed: bool) | Finishing(failed: bool) | Exited(failed: bool)

  datatype Verdict = Passed | Broken | InProgress

  datatype Result = Result(name: Name, verdict: Verdict)

  datatype Dependency = Dependency(required: bool, ready: bool)

  datatype Phase = Beginning | Collecting | Returned

  datatype Check = Check(
    entries: map<Name, bool>,          // the registry when the check began: name to required
    todo: set<Name>,                   // not begun yet
    workers: map<Name, Worker>,        // the goroutines this check has started
    sent: set<Name>,                   // names whose result has been sent
    results: seq<Result>,              // the buffered channel
    pending: set<Name>,
    ready: bool,                       // Report.Ready
    report: map<Name, Dependency>,     // Report.Dependencies
    phase: Phase)

  datatype State = State(entries: map<Name, bool>, running: set<Name>, checks: map<Id, Check>)

  datatype Step =
    | Register(name: Name, required: bool)
    | StartCheck(c: Id)
    | Begin(c: Id, name: Name)
    | AllBegun(c: Id)
    | CheckerReturns(c: Id, name: Name, failed: bool)
    | Send(c: Id, name: Name)
    | Finish(c: Id, name: Name)
    | Receive(c: Id)
    | Deadline(c: Id)
    | Complete(c: Id)

  predicate HasRoom(ch: Check) {
    |ch.results| < |ch.entries|
  }

  predicate WorkerAt(ch: Check, name: Name, w: Worker) {
    name in ch.workers && ch.workers[name] == w
  }

  predicate Enabled(s: State, step: Step) {
    match step
    case Register(name, _) => name !in s.entries && name != ""
    case StartCheck(c) => c !in s.checks
    case _ =>
      step.c in s.checks &&
      var ch := s.checks[step.c];
      match step
      case Begin(_, name) =>
        ch.phase.Beginning? && name in ch.todo && name in ch.entries && (name in s.running ==> HasRoom(ch))
      case AllBegun(_) => ch.phase.Beginning? && ch.todo == {}
      case CheckerReturns(_, name, _) => WorkerAt(ch, name, Checking)
      case Send(_, name) => name in ch.workers && ch.workers[name].Sending? && HasRoom(ch)
      case Finish(_, name) => name in ch.workers && ch.workers[name].Finishing?
      case Receive(_) => ch.phase.Collecting? && ch.pending != {} && ch.results != [] && ch.pending <= ch.entries.Keys
      case Deadline(_) => ch.phase.Collecting? && ch.pending != {} && ch.pending <= ch.entries.Keys
      case Complete(_) => ch.phase.Collecting? && ch.pending == {}
  }

  // addResult
  function AddResult(ch: Check, name: Name, passed: bool): Check
    requires name in ch.entries
  {
    var required := ch.entries[name];
    ch.(report := ch.report[name := Dependency(required, passed)],
        ready := ch.ready && (passed || !required))
  }

  function AddMissing(ch: Check, names: set<Name>): Check
    requires names <= ch.entries.Keys
  {
    ch.(report := ch.report + map n | n in names :: Dependency(ch.entries[n], false),
        ready := ch.ready && forall n :: n in names ==> !ch.entries[n])
  }

  function Opened(entries: map<Name, bool>): Check {
    Check(entries, entries.Keys, map[], {}, [], {}, true, map[], Beginning)
  }

  function BeginOne(ch: Check, name: Name, busy: bool): Check {
    var next := ch.(todo := ch.todo - {name}, pending := ch.pending + {name});
    if busy then next.(results := ch.results + [Result(name, InProgress)], sent := ch.sent + {name})
    else next.(workers := ch.workers[name := Checking])
  }

  function SendOne(ch: Check, name: Name): Check
    requires name in ch.workers && ch.workers[name].Sending?
  {
    var failed := ch.workers[name].failed;
    ch.(workers := ch.workers[name := Finishing(failed)], sent := ch.sent + {name},
        results := ch.results + [Result(name, if failed then Broken else Passed)])
  }

  function ReceiveOne(ch: Check): Check
    requires ch.results != [] && ch.pending <= ch.entries.Keys
  {
    var r := ch.results[0];
    var rest := ch.(results := ch.results[1..]);
    if r.name !in ch.pending then rest
    else AddResult(rest.(pending := ch.pending - {r.name}), r.name, r.verdict.Passed?)
  }

  function Put(s: State, c: Id, ch: Check): State {
    s.(checks := s.checks[c := ch])
  }

  function Apply(s: State, step: Step): State
    requires Enabled(s, step)
  {
    match step
    case Register(name, required) => s.(entries := s.entries[name := required])
    case StartCheck(c) => Put(s, c, Opened(s.entries))
    case Begin(c, name) =>
      Put(s, c, BeginOne(s.checks[c], name, name in s.running)).(running := s.running + {name})
    case AllBegun(c) => Put(s, c, s.checks[c].(phase := Collecting))
    case CheckerReturns(c, name, failed) =>
      Put(s, c, s.checks[c].(workers := s.checks[c].workers[name := Sending(failed)]))
    case Send(c, name) => Put(s, c, SendOne(s.checks[c], name))
    case Finish(c, name) =>
      var ch := s.checks[c];
      Put(s, c, ch.(workers := ch.workers[name := Exited(ch.workers[name].failed)])).(running := s.running - {name})
    case Receive(c) => Put(s, c, ReceiveOne(s.checks[c]))
    case Deadline(c) => Put(s, c, AddMissing(s.checks[c], s.checks[c].pending).(phase := Returned))
    case Complete(c) => Put(s, c, s.checks[c].(phase := Returned))
  }

  ghost predicate Init(s: State) {
    s.running == {} && s.checks == map[]
  }

  datatype Run = Run(states: seq<State>, steps: seq<Step>)

  ghost predicate Legal(run: Run) {
    && |run.states| == |run.steps| + 1
    && Init(run.states[0])
    && forall i :: 0 <= i < |run.steps| ==>
         Enabled(run.states[i], run.steps[i]) && run.states[i + 1] == Apply(run.states[i], run.steps[i])
  }

  // ---------------------------------------------------------------------
  // Single flight
  // ---------------------------------------------------------------------

  predicate Live(s: State, c: Id, name: Name) {
    c in s.checks && name in s.checks[c].workers && !s.checks[c].workers[name].Exited?
  }

  ghost predicate Flagged(s: State) {
    && (forall c, name :: Live(s, c, name) ==> name in s.running)
    && (forall name :: name in s.running ==> exists c :: Live(s, c, name))
    && (forall c, d, name :: Live(s, c, name) && Live(s, d, name) ==> c == d)
  }

  // ---------------------------------------------------------------------
  // One check on its own
  // ---------------------------------------------------------------------

  // The worker of this check for `name` has returned without an error.
  predicate Earned(ch: Check, name: Name) {
    WorkerAt(ch, name, Finishing(false)) || WorkerAt(ch, name, Exited(false))
  }

  ghost predicate Bookkept(ch: Check) {
    && ch.todo <= ch.entries.Keys
    && (ch.todo == {} || ch.phase.Beginning?)
    && (forall n :: n in ch.workers ==> n in ch.entries && n !in ch.todo)
    && ch.sent <= ch.entries.Keys - ch.todo
    && (forall n :: n in ch.workers ==>
          (n in ch.sent <==> ch.workers[n].Finishing? || ch.workers[n].Exited?))
    && |ch.results| <= |ch.sent|
  }

  ghost predicate Queued(ch: Check) {
    && (forall k :: 0 <= k < |ch.results| ==>
          ch.results[k].name in ch.sent
          && (ch.phase.Returned? || ch.results[k].name in ch.pending)
          && (ch.results[k].verdict.Passed? ==> Earned(ch, ch.results[k].name)))
    && (forall j, k :: 0 <= j < k < |ch.results| ==> ch.results[j].name != ch.results[k].name)
  }

  ghost predicate Reported(ch: Check) {
    && (!ch.phase.Returned? ==>
          ch.report.Keys !! ch.pending && ch.report.Keys + ch.pending == ch.entries.Keys - ch.todo)
    && (ch.phase.Returned? ==> ch.report.Keys == ch.entries.Keys)
    && (forall n :: n in ch.report ==> n in ch.entries && ch.report[n].required == ch.entries[n])
    && (forall n :: n in ch.report && ch.report[n].ready ==> Earned(ch, n))
    && (ch.ready <==> forall n :: n in ch.report && ch.report[n].required ==> ch.report[n].ready)
  }

  ghost predicate CheckInv(ch: Check) {
    Bookkept(ch) && Queued(ch) && Reported(ch)
  }

  lemma BeginKeeps(ch: Check, name: Name, busy: bool)
    requires CheckInv(ch) && ch.phase.Beginning? && name in ch.todo
    ensures CheckInv(BeginOne(ch, name, busy))
  {
    hide Bookkept, Queued, Reported;
    BeginKeepsBooks(ch, name, busy);
    BeginKeepsQueue(ch, name, busy);
    BeginKeepsReport(ch, name, busy);
  }

  lemma BeginKeepsBooks(ch: Check, name: Name, busy: bool)
    requires Bookkept(ch) && ch.phase.Beginning? && name in ch.todo
    ensures Bookkept(BeginOne(ch, name, busy)) && ch.todo <= ch.entries.Keys && name !in ch.workers && name !in ch.sent
  {
  }

  lemma BeginKeepsQueue(ch: Check, name: Name, busy: bool)
    requires Queued(ch) && ch.phase.Beginning? && name in ch.todo && name !in ch.sent && name !in ch.workers
    ensures Queued(BeginOne(ch, name, busy))
  {
    var next := BeginOne(ch, name, busy);
    assert forall k :: 0 <= k < |ch.results| ==> next.results[k] == ch.results[k];
    assert forall n :: n != name ==> Earned(next, n) == Earned(ch, n);
  }

  lemma BeginKeepsReport(ch: Check, name: Name, busy: bool)
    requires Reported(ch) && ch.phase.Beginning? && name in ch.todo && ch.todo <= ch.entries.Keys
    requires name !in ch.workers
    ensures Reported(BeginOne(ch, name, busy))
  {
    var next := BeginOne(ch, name, busy);
    assert name !in ch.report;
    assert next.report.Keys + next.pending == ch.report.Keys + ch.pending + {name};
  }

  lemma ReturnsKeeps(ch: Check, name: Name, failed: bool)
    requires CheckInv(ch) && WorkerAt(ch, name, Checking)
    ensures CheckInv(ch.(workers := ch.workers[name := Sending(failed)]))
  {
  }

  lemma SendKeeps(ch: Check, name: Name)
    requires CheckInv(ch) && name in ch.workers && ch.workers[name].Sending?
    requires ch.phase.Returned? || name in ch.pending
    ensures CheckInv(SendOne(ch, name))
  {
    hide Queued, Reported;
    assert name !in ch.sent;
    assert Bookkept(SendOne(ch, name));
    hide Bookkept;
    SendKeepsQueue(ch, name);
    SendKeepsReport(ch, name);
  }

  lemma SendKeepsQueue(ch: Check, name: Name)
    requires Queued(ch) && name in ch.workers && ch.workers[name].Sending? && name !in ch.sent
    requires ch.phase.Returned? || name in ch.pending
    ensures Queued(SendOne(ch, name))
  {
    var next := SendOne(ch, name);
    assert forall k :: 0 <= k < |ch.results| ==> next.results[k] == ch.results[k];
    assert forall n :: n != name ==> Earned(next, n) == Earned(ch, n);
  }

  lemma SendKeepsReport(ch: Check, name: Name)
    requires Reported(ch) && name in ch.workers && ch.workers[name].Sending?
    ensures Reported(SendOne(ch, name))
  {
    assert forall n :: Earned(ch, n) ==> Earned(SendOne(ch, name), n);
  }

  // A name whose worker has not sent yet is still pending, until the check
  // returns.
  ghost predicate Unsent(ch: Check) {
    forall n :: n in ch.workers && n !in ch.sent ==> ch.phase.Returned? || n in ch.pending
  }

  lemma FinishKeeps(ch: Check, name: Name)
    requires CheckInv(ch) && name in ch.workers && ch.workers[name].Finishing?
    ensures CheckInv(ch.(workers := ch.workers[name := Exited(ch.workers[name].failed)]))
  {
  }

  // Every result received belongs to a pending name, so each receive shrinks
  // the pending set and the collection loop ends.
  lemma ReceiveShrinks(ch: Check)
    requires CheckInv(ch) && ch.phase.Collecting? && ch.results != []
    ensures ch.results[0].name in ch.pending && ch.pending <= ch.entries.Keys
    ensures ReceiveOne(ch).pending == ch.pending - {ch.results[0].name}
    ensures |ReceiveOne(ch).pending| < |ch.pending|
  {
  }

  lemma ReceiveKeeps(ch: Check)
    requires CheckInv(ch) && ch.phase.Collecting? && ch.results != []
    requires ch.pending <= ch.entries.Keys
    ensures CheckInv(ReceiveOne(ch))
  {
    ReceiveShrinks(ch);
    assert Bookkept(ReceiveOne(ch)) by { hide Queued, Reported; }
    ReceiveKeepsQueue(ch);
    ReceiveKeepsReport(ch);
  }

  lemma ReceiveKeepsQueue(ch: Check)
    requires Queued(ch) && ch.phase.Collecting? && ch.results != [] && ch.pending <= ch.entries.Keys
    requires ch.results[0].name in ch.pending
    ensures Queued(ReceiveOne(ch))
  {
    var u := ReceiveOne(ch);
    assert forall k :: 0 <= k < |u.results| ==> u.results[k] == ch.results[k + 1];
  }

  lemma ReceiveKeepsReport(ch: Check)
    requires Queued(ch) && Reported(ch) && ch.phase.Collecting? && ch.results != []
    requires ch.pending <= ch.entries.Keys && ch.results[0].name in ch.pending
    ensures Reported(ReceiveOne(ch))
  {
    var name, passed := ch.results[0].name, ch.results[0].verdict.Passed?;
    var u := ReceiveOne(ch);
    assert passed ==> Earned(ch, name);
    hide Queued;
    assert name !in ch.report;
    assert u.report == ch.report[name := Dependency(ch.entries[name], passed)];
    assert u.report.Keys + u.pending == ch.report.Keys + ch.pending;
    assert u.workers == ch.workers;
    assert forall n :: Earned(u, n) == Earned(ch, n);
    assert forall n :: n in u.report <==> n == name || n in ch.report;
    assert u.report[name] == Dependency(ch.entries[name], passed);
    assert forall n :: n in ch.report ==> u.report[n] == ch.report[n];
  }

  lemma DeadlineKeeps(ch: Check)
    requires CheckInv(ch) && ch.phase.Collecting? && ch.pending <= ch.entries.Keys
    ensures CheckInv(AddMissing(ch, ch.pending).(phase := Returned))
  {
    var u := AddMissing(ch, ch.pending);
    assert u.report.Keys == ch.report.Keys + ch.pending;
  }

  ghost predicate Inv(s: State) {
    && Flagged(s)
    && (forall c :: c in s.checks ==> CheckInv(s.checks[c]) && Unsent(s.checks[c]))
  }

  lemma CheckStep(s: State, step: Step, c: Id)
    requires (forall d :: d in s.checks ==> CheckInv(s.checks[d]) && Unsent(s.checks[d]))
    requires Enabled(s, step) && c in Apply(s, step).checks
    ensures CheckInv(Apply(s, step).checks[c]) && Unsent(Apply(s, step).checks[c])
  {
    hide CheckInv;
    match step {
      case Register(_, _) =>
      case StartCheck(d) => OpenedKeeps(s.entries);
      case Begin(d, name) => BeginKeeps(s.checks[d], name, name in s.running);
      case AllBegun(d) => AllBegunKeeps(s.checks[d]);
      case CheckerReturns(d, name, failed) => ReturnsKeeps(s.checks[d], name, failed);
      case Send(d, name) =>
        SendingUnsent(s.checks[d], name);
        SendKeeps(s.checks[d], name);
      case Finish(d, name) => FinishKeeps(s.checks[d], name);
      case Receive(d) =>
        ReceiveKeeps(s.checks[d]);
        ReceivedWasSent(s.checks[d]);
      case Deadline(d) => DeadlineKeeps(s.checks[d]);
      case Complete(d) => CompleteKeeps(s.checks[d]);
    }
  }

  lemma OpenedKeeps(entries: map<Name, bool>)
    ensures CheckInv(Opened(entries))
  {
  }

  lemma AllBegunKeeps(ch: Check)
    requires CheckInv(ch) && ch.phase.Beginning? && ch.todo == {}
    ensures CheckInv(ch.(phase := Collecting))
  {
  }

  lemma CompleteKeeps(ch: Check)
    requires CheckInv(ch) && ch.phase.Collecting? && ch.pending == {}
    ensures CheckInv(ch.(phase := Returned))
  {
  }

  lemma SendingUnsent(ch: Check, name: Name)
    requires CheckInv(ch) && name in ch.workers && ch.workers[name].Sending?
    ensures name !in ch.sent
  {
  }

  lemma ReceivedWasSent(ch: Check)
    requires CheckInv(ch) && ch.results != []
    ensures ch.results[0].name in ch.sent
  {
  }

  lemma FlaggedStep(s: State, step: Step)
    requires Inv(s) && Enabled(s, step)
    ensures Flagged(Apply(s, step))
  {
    var u := Apply(s, step);
    match step {
      case Begin(c, name) =>
        assert name !in s.checks[c].workers by { assert CheckInv(s.checks[c]); }
        BeginFlags(s, c, name);
      case Finish(c, name) => FinishFlags(s, c, name);
      case _ =>
        hide CheckInv;
        SameLive(s, step);
    }
  }

  lemma SameLive(s: State, step: Step)
    requires Flagged(s) && Enabled(s, step) && !step.Begin? && !step.Finish?
    ensures Flagged(Apply(s, step))
  {
    var u := Apply(s, step);
    assert forall c, name :: Live(u, c, name) <==> Live(s, c, name);
  }

  lemma BeginFlags(s: State, c: Id, name: Name)
    requires Flagged(s) && Enabled(s, Begin(c, name)) && name !in s.checks[c].workers
    ensures Flagged(Apply(s, Begin(c, name)))
  {
    var u := Apply(s, Begin(c, name));
    if name in s.running {
      assert forall d, n :: Live(u, d, n) <==> Live(s, d, n);
    } else {
      assert Live(u, c, name);
      assert forall d, n :: Live(u, d, n) <==> Live(s, d, n) || (d == c && n == name);
    }
  }

  lemma FinishFlags(s: State, c: Id, name: Name)
    requires Flagged(s) && Enabled(s, Finish(c, name))
    ensures Flagged(Apply(s, Finish(c, name)))
  {
    var u := Apply(s, Finish(c, name));
    assert Live(s, c, name);
    assert forall d, n :: Live(u, d, n) <==> Live(s, d, n) && !(d == c && n == name);
  }

  lemma {:induction false} RunKeepsInv(run: Run, i: nat)
    requires Legal(run) && i < |run.states|
    ensures Inv(run.states[i])
  {
    if i > 0 {
      var s, step := run.states[i - 1], run.steps[i - 1];
      RunKeepsInv(run, i - 1);
      FlaggedStep(s, step);
      forall c | c in run.states[i].checks
        ensures CheckInv(run.states[i].checks[c]) && Unsent(run.states[i].checks[c])
      {
        CheckStep(s, step, c);
      }
    }
  }

  // ---------------------------------------------------------------------
  // Main results, over every run
  // ---------------------------------------------------------------------

  // At most one checker goroutine per dependency exists, across all checks,
  // and the running flag is set exactly while there is one.
  lemma SingleFlight(run: Run, i: nat, c: Id, d: Id, name: Name)
    requires Legal(run) && i < |run.states|
    ensures Live(run.states[i], c, name) && Live(run.states[i], d, name) ==> c == d
    ensures name in run.states[i].running <==> exists e :: Live(run.states[i], e, name)
  {
    RunKeepsInv(run, i);
  }

  // A result never waits for room in its channel, even when its check has
  // already returned at the deadline.
  lemma SendsNeverBlock(run: Run, i: nat, c: Id, name: Name)
    requires Legal(run) && i < |run.states| && c in run.states[i].checks
    ensures
      var ch := run.states[i].checks[c];
      && (name in ch.workers && ch.workers[name].Sending? ==> HasRoom(ch))
      && (name in ch.todo ==> HasRoom(ch))
  {
    RunKeepsInv(run, i);
    var ch := run.states[i].checks[c];
    assert CheckInv(ch);
    if name in ch.entries && name !in ch.sent {
      assert ch.sent <= ch.entries.Keys - {name};
      Smaller(ch.sent, ch.entries.Keys - {name});
      assert |ch.entries| == |ch.entries.Keys|;
    }
  }

  lemma Smaller(a: set<Name>, b: set<Name>)
    requires a <= b
    ensures |a| <= |b|
  {
    assert b == a + (b - a);
  }

  // A returned report lists exactly the dependencies registered when the check
  // began, and is ready exactly when every required one is; a dependency is
  // ready only if this very check started its checker and it returned without
  // an error.
  lemma ReportIsExact(run: Run, i: nat, c: Id)
    requires Legal(run) && i < |run.states| && c in run.states[i].checks && run.states[i].checks[c].phase.Returned?
    ensures
      var ch := run.states[i].checks[c];
      && ch.report.Keys == ch.entries.Keys
      && (forall n :: n in ch.report ==> ch.report[n].required == ch.entries[n])
      && (ch.ready <==> forall n :: n in ch.report && ch.report[n].required ==> ch.report[n].ready)
      && (forall n :: n in ch.report && ch.report[n].ready ==> Earned(ch, n))
  {
    RunKeepsInv(run, i);
    assert CheckInv(run.states[i].checks[c]);
  }

  // The entries of a check are the registry at the moment it began, whatever
  // is registered later.
  lemma {:induction false} EntriesAreFrozen(run: Run, c: Id, i: nat, j: nat)
    requires Legal(run) && i < j < |run.states| && run.steps[i] == StartCheck(c)
    ensures c in run.states[j].checks && run.states[j].checks[c].entries == run.states[i].entries
    decreases j
  {
    if j == i + 1 {
      assert Enabled(run.states[i], run.steps[i]);
    } else {
      EntriesAreFrozen(run, c, i, j - 1);
      KeepsEntries(run.states[j - 1], run.steps[j - 1], c);
    }
  }

  lemma KeepsEntries(s: State, step: Step, c: Id)
    requires Enabled(s, step) && c in s.checks
    ensures c in Apply(s, step).checks && Apply(s, step).checks[c].entries == s.checks[c].entries
  {
  }
}
