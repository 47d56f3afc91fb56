// The timeout middleware (middleware/timeout): a handler writes into a locked
// buffer in its own goroutine while the middleware waits for it or for the end
// of the request context. Every locked operation is one step.
module TimeoutBuffer {
  type Header = map<string, seq<string>>

  const STATUS_OK: int := 200

  // ---------------------------------------------------------------------
  // The buffer
  // ---------------------------------------------------------------------

  datatype Op =
    | SetHeader(key: string, values: seq<string>)
    | Status(code: int)
    | Body(data: string)

  datatype Buffer = Buffer(header: Header, body: string, status: int, timedOut: bool)

  const EMPTY: Buffer := Buffer(map[], "", 0, false)

  function Perform(b: Buffer, op: Op): Buffer {
    match op
    case SetHeader(key, values) => b.(header := b.header[key := values])
    case Status(code) => if b.timedOut || b.status != 0 then b else b.(status := code)
    case Body(data) =>
      if b.timedOut then b
      else b.(status := if b.status == 0 then STATUS_OK else b.status, body := b.body + data)
  }

  datatype Reply =
    | Nothing
    | Response(header: Header, status: int, body: string)
    | TimeoutReply

  class BufferWriter {
    var buffer: Buffer

    constructor ()
      ensures buffer == EMPTY
    {
      buffer := EMPTY;
    }

    method WriteHeader(status: int)
      modifies this
      ensures buffer == Perform(old(buffer), Status(status))
    {
      if buffer.timedOut || buffer.status != 0 { return; }
      buffer := buffer.(status := status);
    }

    // The error result is the handler-timeout error.
    method Write(data: string) returns (written: nat, ok: bool)
      modifies this
      ensures buffer == Perform(old(buffer), Body(data))
      ensures ok == !old(buffer).timedOut
      ensures written == if ok then |data| else 0
    {
      if buffer.timedOut { return 0, false; }
      if buffer.status == 0 { buffer := buffer.(status := STATUS_OK); }
      buffer := buffer.(body := buffer.body + data);
      return |data|, true;
    }

    method Timeout()
      modifies this
      ensures buffer == old(buffer).(timedOut := true)
    {
      buffer := buffer.(timedOut := true);
    }

    method Commit() returns (reply: Reply)
      ensures reply == Committed(buffer)
    {
      var status := buffer.status;
      if status == 0 { status := STATUS_OK; }
      reply := Response(buffer.header, status, buffer.body);
    }
  }

  function Committed(b: Buffer): Reply {
    Response(b.header, if b.status == 0 then STATUS_OK else b.status, b.body)
  }

  // ---------------------------------------------------------------------
  // The response a sequence of handler operations stands for
  // ---------------------------------------------------------------------

  // The first explicit non-zero status, or 200 if a body write comes first.
  function FirstStatus(log: seq<Op>): int {
    if log == [] then STATUS_OK
    else if log[0].Body? then STATUS_OK
    else if log[0].Status? && log[0].code != 0 then log[0].code
    else FirstStatus(log[1..])
  }

  function AllData(log: seq<Op>): string {
    if log == [] then "" else (if log[0].Body? then log[0].data else "") + AllData(log[1..])
  }

  // The value last set for each key.
  function LastHeader(log: seq<Op>): Header {
    if log == [] then map[]
    else
      var last := log[|log| - 1];
      var before := LastHeader(log[..|log| - 1]);
      if last.SetHeader? then before[last.key := last.values] else before
  }

  function Meant(log: seq<Op>): Reply {
    Response(LastHeader(log), FirstStatus(log), AllData(log))
  }

  function Replay(log: seq<Op>): Buffer {
    if log == [] then EMPTY else Perform(Replay(log[..|log| - 1]), log[|log| - 1])
  }

  predicate Decides(op: Op) {
    op.Body? || (op.Status? && op.code != 0)
  }

  lemma {:induction false} FirstStatusSnoc(log: seq<Op>, op: Op)
    ensures FirstStatus(log + [op]) ==
      if exists i :: 0 <= i < |log| && Decides(log[i]) then FirstStatus(log)
      else if op.Status? && op.code != 0 then op.code else STATUS_OK
    decreases |log|
  {
    if log == [] {
      assert FirstStatus([op]) == if op.Status? && op.code != 0 then op.code else STATUS_OK by {
        assert [op][1..] == [];
      }
    } else {
      assert (log + [op])[1..] == log[1..] + [op];
      FirstStatusSnoc(log[1..], op);
      if !Decides(log[0]) {
        if i :| 0 <= i < |log| && Decides(log[i]) { assert Decides(log[1..][i - 1]); }
      }
    }
  }

  lemma {:induction false} UndecidedStatus(log: seq<Op>)
    requires forall i :: 0 <= i < |log| ==> !Decides(log[i])
    ensures FirstStatus(log) == STATUS_OK
    decreases |log|
  {
    if log != [] { UndecidedStatus(log[1..]); }
  }

  lemma {:induction false} AllDataSnoc(log: seq<Op>, op: Op)
    ensures AllData(log + [op]) == AllData(log) + if op.Body? then op.data else ""
    decreases |log|
  {
    if log == [] {
      assert [op][1..] == [];
    } else {
      assert (log + [op])[1..] == log[1..] + [op];
      AllDataSnoc(log[1..], op);
      var first := if log[0].Body? then log[0].data else "";
      var last := if op.Body? then op.data else "";
      assert first + (AllData(log[1..]) + last) == (first + AllData(log[1..])) + last;
    }
  }

  // The buffer computes what the operations mean: first status wins, the body
  // is all writes in order, the last value of a header key stays.
  lemma {:induction false} ReplayMeans(log: seq<Op>)
    ensures Committed(Replay(log)) == Meant(log)
    ensures !Replay(log).timedOut
    ensures Replay(log).status == 0 <==> forall i :: 0 <= i < |log| ==> !Decides(log[i])
    decreases |log|
  {
    if log != [] {
      var before, op := log[..|log| - 1], log[|log| - 1];
      assert log == before + [op];
      ReplayMeans(before);
      FirstStatusSnoc(before, op);
      AllDataSnoc(before, op);
      if Replay(before).status == 0 { UndecidedStatus(before); }
      assert forall i :: 0 <= i < |log| ==> log[i] == if i < |before| then before[i] else op;
    }
  }

  // ---------------------------------------------------------------------
  // Handler and middleware, interleaved
  // ---------------------------------------------------------------------

  datatype Handler = Serving | Ended(panicked: bool) | Reported(panicked: bool)

  datatype Reason = Deadline | ParentCancelled

  datatype Main =
    | Selecting
    | Finishing            // took the handler result
    | Marking(reason: Reason)
    | Replying             // marked the buffer after the deadline
    | Done

  datatype State = State(
    buffer: Buffer,
    log: seq<Op>,          // the handler's operations so far
    handler: Handler,
    context: set<Reason>,  // why the request context ended; at most one reason
    main: Main,
    client: Reply)         // what reached the client

  datatype Step =
    | Handle(op: Op)
    | End(panicked: bool)
    | Report
    | EndContext(reason: Reason)
    | TakeResult
    | Commit
    | TakeContext(reason: Reason)
    | Mark
    | ReplyTimeout

  predicate Enabled(s: State, step: Step) {
    match step
    case Handle(_) => s.handler.Serving?
    case End(_) => s.handler.Serving?
    case Report => s.handler.Ended?
    case EndContext(_) => s.context == {}
    case TakeResult => s.main.Selecting? && s.handler.Reported?
    case Commit => s.main.Finishing? && s.handler.Reported?
    case TakeContext(reason) => s.main.Selecting? && reason in s.context
    case Mark => s.main.Marking?
    case ReplyTimeout => s.main.Replying?
  }

  // A panic of the handler is raised again and nothing is committed.
  function Apply(s: State, step: Step): State
    requires Enabled(s, step)
  {
    match step
    case Handle(op) => s.(buffer := Perform(s.buffer, op), log := s.log + [op])
    case End(panicked) => s.(handler := Ended(panicked))
    case Report => s.(handler := Reported(s.handler.panicked))
    case EndContext(reason) => s.(context := {reason})
    case TakeResult => s.(main := Finishing)
    case Commit => s.(main := Done, client := if s.handler.panicked then s.client else Committed(s.buffer))
    case TakeContext(reason) => s.(main := Marking(reason))
    case Mark => s.(buffer := s.buffer.(timedOut := true),
                    main := if s.main.reason.Deadline? then Replying else Done)
    case ReplyTimeout => s.(main := Done, client := TimeoutReply)
  }

  ghost predicate Init(s: State) {
    s == State(EMPTY, [], Serving, {}, Selecting, Nothing)
  }

  datatype Run = Run(states: seq<State>, steps: seq<Step>)

  ghost predicate Legal(run: Run) {
    && |run.states| == |run.steps| + 1
    && Init(run.states[0])
    && forall i :: 0 <= i < |run.steps| ==>
         Enabled(run.states[i], run.steps[i]) && run.states[i + 1] == Apply(run.states[i], run.steps[i])
  }

  ghost predicate Inv(s: State) {
    && (!s.buffer.timedOut ==> s.buffer == Replay(s.log))
    && (s.main.Selecting? || s.main.Finishing? || s.main.Marking? ==> !s.buffer.timedOut)
    && (s.main.Finishing? ==> s.handler.Reported?)
    && (s.main.Marking? ==> s.context == {s.main.reason})
    && (s.main.Replying? ==> s.context == {Deadline} && s.buffer.timedOut)
    && (!s.main.Done? ==> s.client == Nothing)
    && (s.client.Response? ==>
          s.handler == Reported(false) && s.client == Committed(Replay(s.log)) && !s.buffer.timedOut)
    && (s.client.TimeoutReply? ==> s.context == {Deadline} && s.buffer.timedOut)
    && (s.main.Done? && s.client.Nothing? ==> s.handler == Reported(true) || s.context == {ParentCancelled})
    && |s.context| <= 1
  }

  lemma InvStep(s: State, step: Step)
    requires Inv(s) && Enabled(s, step)
    ensures Inv(Apply(s, step))
  {
    if step.Handle? {
      assert (s.log + [step.op])[..|s.log|] == s.log;
    } else if step.TakeContext? {
      OnlyReason(s.context, step.reason);
    }
  }

  lemma OnlyReason(context: set<Reason>, reason: Reason)
    requires |context| <= 1 && reason in context
    ensures context == {reason}
  {
    assert |context - {reason}| == |context| - 1;
    assert context - {reason} == {};
  }

  lemma {:induction false} RunKeepsInv(run: Run, i: nat)
    requires Legal(run) && i < |run.states|
    ensures Inv(run.states[i])
  {
    if i > 0 {
      RunKeepsInv(run, i - 1);
      InvStep(run.states[i - 1], run.steps[i - 1]);
    }
  }

  // The client sees nothing, or the complete response of a handler that has
  // finished, or the timeout reply; never a mix.
  lemma ClientSeesOneReply(run: Run, i: nat)
    requires Legal(run) && i < |run.states|
    ensures
      var s := run.states[i];
      || s.client == Nothing
      || (s.client == Meant(s.log) && s.handler == Reported(false) && !s.buffer.timedOut)
      || (s.client == TimeoutReply && s.buffer.timedOut && s.context == {Deadline})
  {
    RunKeepsInv(run, i);
    ReplayMeans(run.states[i].log);
  }

  // When the middleware has returned, the client has seen nothing only after
  // a panic or because the parent context was cancelled.
  lemma SilenceHasACause(run: Run, i: nat)
    requires Legal(run) && i < |run.states| && run.states[i].main.Done? && run.states[i].client == Nothing
    ensures run.states[i].handler == Reported(true) || run.states[i].context == {ParentCancelled}
  {
    RunKeepsInv(run, i);
  }

  // What the client has seen never changes afterwards.
  lemma {:induction false} ReplyIsFinal(run: Run, i: nat, j: nat)
    requires Legal(run) && i <= j < |run.states| && run.states[i].client != Nothing
    ensures run.states[j].client == run.states[i].client
    decreases j
  {
    if i < j {
      ReplyIsFinal(run, i, j - 1);
      RunKeepsInv(run, j - 1);
      assert Enabled(run.states[j - 1], run.steps[j - 1]);
    }
  }

  // After the timeout mark no handler operation changes the status or the
  // body, and the mark stays.
  lemma {:induction false} LateWritesAreLost(run: Run, i: nat, j: nat)
    requires Legal(run) && i <= j < |run.states| && run.states[i].buffer.timedOut
    ensures run.states[j].buffer.timedOut
    ensures run.states[j].buffer.body == run.states[i].buffer.body
    ensures run.states[j].buffer.status == run.states[i].buffer.status
    decreases j
  {
    if i < j {
      LateWritesAreLost(run, i, j - 1);
      assert Enabled(run.states[j - 1], run.steps[j - 1]);
    }
  }
}
