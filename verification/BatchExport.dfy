/** The batch export task machine of storage/src/batch_export/mod.rs: callers that
    create and cancel tasks and one worker, interleaved at lock boundaries. */
module BatchExport {
  import opened Machine

  type TaskId = string

  datatype Status = Pending | Running | Completed | Failed | Cancelled

  datatype Task = Task(status: Status, progress: real, error: Option<string>, completedAt: Option<int>)

  const NEW_TASK := Task(Pending, 0.0, None, None)

  /** Between which of its locked sections the worker is, and with which task. */
  datatype Worker = Waiting | Received(id: TaskId) | Admitted(id: TaskId) | Executing(id: TaskId)

  /** `unsent` are tasks whose creator is still waiting for room in the channel. */
  datatype State = State(tasks: map<TaskId, Task>, unsent: set<TaskId>, queue: seq<TaskId>, worker: Worker)

  const CAPACITY: nat := 100

  const START := State(map[], {}, [], Waiting)

  datatype Step =
    | Create(id: TaskId)
    | Send(id: TaskId)
    | Cancel(id: TaskId)
    | Receive
    | Check
    | Begin
    | Finish(outcome: Result<()>, now: int)

  predicate IsCancelled(s: State, id: TaskId) {
    id in s.tasks && s.tasks[id].status == Cancelled
  }

  /** Task ids are fresh UUIDs. */
  predicate Enabled(s: State, e: Step) {
    match e
    case Create(id) => id !in s.tasks
    case Send(id) => id in s.unsent && |s.queue| < CAPACITY
    case Cancel(_) => true
    case Receive => s.worker.Waiting? && s.queue != []
    case Check => s.worker.Received?
    case Begin => s.worker.Admitted?
    case Finish(_, _) => s.worker.Executing?
  }

  function Finished(t: Task, outcome: Result<()>, now: int): Task {
    match outcome
    case Ok(_) => t.(status := Completed, progress := 1.0, completedAt := Some(now))
    case Err(e) => t.(status := Status.Failed, error := Some(e))
  }

  function Next(s: State, e: Step): (s': State)
    requires Enabled(s, e)
  {
    match e
    case Create(id) => s.(tasks := s.tasks[id := NEW_TASK], unsent := s.unsent + {id})
    case Send(id) => s.(unsent := s.unsent - {id}, queue := s.queue + [id])
    case Cancel(id) =>
      if id in s.tasks && (s.tasks[id].status == Pending || s.tasks[id].status == Running)
      then s.(tasks := s.tasks[id := s.tasks[id].(status := Cancelled)])
      else s
    case Receive => s.(queue := s.queue[1..], worker := Received(s.queue[0]))
    case Check => s.(worker := if IsCancelled(s, s.worker.id) then Waiting else Admitted(s.worker.id))
    case Begin =>
      var id := s.worker.id;
      if IsCancelled(s, id) then s.(worker := Waiting)
      else if id in s.tasks then
        s.(tasks := s.tasks[id := s.tasks[id].(status := Running, progress := 0.1)], worker := Executing(id))
      else s.(worker := Executing(id))
    case Finish(outcome, now) =>
      var id := s.worker.id;
      if IsCancelled(s, id) || id !in s.tasks then s.(worker := Waiting)
      else s.(tasks := s.tasks[id := Finished(s.tasks[id], outcome, now)], worker := Waiting)
  }

  // ----- what every step keeps ---------------------------------------------

  predicate Terminal(status: Status) {
    status == Completed || status == Status.Failed || status == Cancelled
  }

  predicate Held(s: State, id: TaskId) {
    !s.worker.Waiting? && s.worker.id == id
  }

  /** A task is on its way to the worker, or with it, in exactly one place. */
  ghost predicate Places(s: State) {
    && (forall id :: id in s.unsent ==> id in s.tasks && id !in s.queue && !Held(s, id))
    && (forall id :: id in s.queue ==> id in s.tasks && !Held(s, id))
    && (forall i, j :: 0 <= i < j < |s.queue| ==> s.queue[i] != s.queue[j])
    && (!s.worker.Waiting? ==> s.worker.id in s.tasks)
  }

  /** A task that has not ended is in one of those places, in the matching status. */
  ghost predicate Tracked(s: State, id: TaskId)
    requires id in s.tasks
  {
    var status := s.tasks[id].status;
    && (status == Pending ==> id in s.unsent || id in s.queue || s.worker == Received(id) || s.worker == Admitted(id))
    && (status == Running ==> s.worker == Executing(id))
    && (s.worker == Executing(id) ==> status == Running || status == Cancelled)
    && (id in s.unsent || id in s.queue || s.worker == Received(id) || s.worker == Admitted(id) ==>
          status == Pending || status == Cancelled)
  }

  predicate Recorded(t: Task) {
    && (t.completedAt.Some? <==> t.status == Completed)
    && (t.error.Some? <==> t.status == Status.Failed)
    && (t.status == Pending ==> t.progress == 0.0)
    && (t.status == Running || t.status == Status.Failed ==> t.progress == 0.1)
    && (t.status == Completed ==> t.progress == 1.0)
  }

  ghost predicate Valid(s: State) {
    Places(s) && forall id :: id in s.tasks ==> Tracked(s, id) && Recorded(s.tasks[id])
  }

  lemma PlacesKept(s: State, e: Step)
    requires Valid(s) && Enabled(s, e)
    ensures Places(Next(s, e))
  {
    if e.Receive? {
      assert forall id :: id in s.queue[1..] ==> id in s.queue;
      assert s.queue[0] !in s.queue[1..];
    }
  }

  lemma TrackedKept(s: State, e: Step, id: TaskId)
    requires Valid(s) && Enabled(s, e) && id in Next(s, e).tasks
    ensures Tracked(Next(s, e), id) && Recorded(Next(s, e).tasks[id])
  {
    if e.Receive? {
      assert id in s.queue <==> id == s.queue[0] || id in s.queue[1..];
      assert s.queue[0] !in s.queue[1..];
    }
    assert id in s.tasks ==> Tracked(s, id) && Recorded(s.tasks[id]);
  }

  lemma ValidKept(s: State, e: Step)
    requires Valid(s) && Enabled(s, e)
    ensures Valid(Next(s, e))
  {
    PlacesKept(s, e);
    forall id | id in Next(s, e).tasks
      ensures Tracked(Next(s, e), id) && Recorded(Next(s, e).tasks[id])
    {
      TrackedKept(s, e, id);
    }
  }

  /** Once a task has ended nothing about it changes: a cancel is never overwritten
      by the worker, a result never by a cancel. */
  lemma TerminalStays(s: State, e: Step, id: TaskId)
    requires Valid(s) && Enabled(s, e) && id in s.tasks && Terminal(s.tasks[id].status)
    ensures id in Next(s, e).tasks && Next(s, e).tasks[id] == s.tasks[id]
  {
    assert Tracked(s, id);
  }

  // ----- whole runs --------------------------------------------------------

  ghost predicate Legal(trace: seq<Step>)
    decreases |trace|, 0
  {
    trace == [] ||
    (Legal(trace[..|trace| - 1]) && Enabled(Run(trace[..|trace| - 1]), trace[|trace| - 1]))
  }

  ghost function Run(trace: seq<Step>): (s: State)
    requires Legal(trace)
    decreases |trace|, 1
  {
    if trace == [] then START else Next(Run(trace[..|trace| - 1]), trace[|trace| - 1])
  }

  /** Every reachable state is valid: results are recorded exactly when they should
      be, at most one task is running, and no unfinished task is lost. */
  lemma {:induction false} RunValid(trace: seq<Step>)
    requires Legal(trace)
    ensures Valid(Run(trace))
  {
    if trace != [] {
      RunValid(trace[..|trace| - 1]);
      ValidKept(Run(trace[..|trace| - 1]), trace[|trace| - 1]);
    }
  }

  lemma OneRunning(trace: seq<Step>, a: TaskId, b: TaskId)
    requires Legal(trace) && a in Run(trace).tasks && b in Run(trace).tasks
    requires Run(trace).tasks[a].status == Running && Run(trace).tasks[b].status == Running
    ensures a == b
  {
    RunValid(trace);
    assert Tracked(Run(trace), a) && Tracked(Run(trace), b);
  }

  /** An ended task stays as it is through every continuation of a run. */
  lemma {:induction false} TerminalForever(trace: seq<Step>, n: nat, id: TaskId)
    requires Legal(trace) && n <= |trace| && Legal(trace[..n])
    requires id in Run(trace[..n]).tasks && Terminal(Run(trace[..n]).tasks[id].status)
    ensures id in Run(trace).tasks && Run(trace).tasks[id] == Run(trace[..n]).tasks[id]
  {
    if n == |trace| {
      assert trace[..n] == trace;
    } else {
      var before := trace[..|trace| - 1];
      assert before[..n] == trace[..n];
      TerminalForever(before, n, id);
      RunValid(before);
      TerminalStays(Run(before), trace[|trace| - 1], id);
    }
  }

  // ----- send order --------------------------------------------------------

  /** The ids in the order they entered the channel. */
  function Sent(trace: seq<Step>): (ids: seq<TaskId>) {
    if trace == [] then []
    else
      var e := trace[|trace| - 1];
      Sent(trace[..|trace| - 1]) + (if e.Send? then [e.id] else [])
  }

  /** The ids the worker is done with, in the order it let go of them. */
  ghost function Handled(trace: seq<Step>): (ids: seq<TaskId>)
    requires Legal(trace)
  {
    if trace == [] then []
    else
      var before := trace[..|trace| - 1];
      Handled(before) + LetGo(Run(before).worker, Run(trace).worker)
  }

  /** The ids that ended with a result, in the order the results were stored. */
  ghost function Results(trace: seq<Step>): (ids: seq<TaskId>)
    requires Legal(trace)
  {
    if trace == [] then []
    else
      var before, e := trace[..|trace| - 1], trace[|trace| - 1];
      var s := Run(before);
      Results(before) + (if e.Finish? && !IsCancelled(s, s.worker.id) then [s.worker.id] else [])
  }

  function InHand(w: Worker): (ids: seq<TaskId>) {
    if w.Waiting? then [] else [w.id]
  }

  /** The channel is first in, first out and the worker takes one at a time. */
  lemma {:induction false} SendOrder(trace: seq<Step>)
    requires Legal(trace)
    ensures Sent(trace) == Handled(trace) + InHand(Run(trace).worker) + Run(trace).queue
  {
    if trace != [] {
      var before, e := trace[..|trace| - 1], trace[|trace| - 1];
      SendOrder(before);
      SendOrderStep(Run(before), e, Run(trace), Sent(before), Handled(before));
    }
  }

  /** The task the worker lets go of in a step, if it does. */
  function LetGo(was: Worker, now: Worker): (ids: seq<TaskId>) {
    if !was.Waiting? && now.Waiting? then [was.id] else []
  }

  lemma SendOrderStep(s: State, e: Step, s': State, sent: seq<TaskId>, handled: seq<TaskId>)
    requires Enabled(s, e) && s' == Next(s, e)
    requires sent == handled + InHand(s.worker) + s.queue
    ensures sent + (if e.Send? then [e.id] else [])
         == handled + LetGo(s.worker, s'.worker) + InHand(s'.worker) + s'.queue
  {
    AppendNil(sent);
    AppendNil(handled);
    AppendNil(handled + InHand(s.worker));
    match e {
      case Send(id) =>
        Assoc(handled + InHand(s.worker), s.queue, [id]);
      case Receive =>
        Uncons(s.queue);
        Assoc(handled, [s.queue[0]], s.queue[1..]);
      case Create(_) =>
      case Cancel(_) =>
      case Check =>
      case Begin =>
      case Finish(_, _) =>
    }
  }

  predicate HasResult(tasks: map<TaskId, Task>, id: TaskId) {
    id in tasks && (tasks[id].status == Completed || tasks[id].status == Status.Failed)
  }

  function WithResult(tasks: map<TaskId, Task>, ids: seq<TaskId>): (r: seq<TaskId>) {
    if ids == [] then []
    else
      var x := ids[|ids| - 1];
      WithResult(tasks, ids[..|ids| - 1]) + (if HasResult(tasks, x) then [x] else [])
  }

  lemma {:induction false} WithResultAppend(tasks: map<TaskId, Task>, a: seq<TaskId>, b: seq<TaskId>)
    requires forall i :: 0 <= i < |b| ==> !HasResult(tasks, b[i])
    ensures WithResult(tasks, a + b) == WithResult(tasks, a)
    decreases |b|
  {
    if b == [] {
      assert a + b == a;
    } else {
      InitOfAppend(a, b);
      WithResultAppend(tasks, a, b[..|b| - 1]);
    }
  }

  lemma {:induction false} WithResultFrame(s: State, e: Step, ids: seq<TaskId>)
    requires Valid(s) && Enabled(s, e)
    requires forall i :: 0 <= i < |ids| ==> ids[i] in s.tasks && Terminal(s.tasks[ids[i]].status)
    ensures WithResult(Next(s, e).tasks, ids) == WithResult(s.tasks, ids)
  {
    if ids != [] {
      WithResultFrame(s, e, ids[..|ids| - 1]);
      TerminalStays(s, e, ids[|ids| - 1]);
    }
  }

  /** Whatever the worker has let go of has ended. */
  lemma {:induction false} HandledEnded(trace: seq<Step>)
    requires Legal(trace)
    ensures forall i :: 0 <= i < |Handled(trace)| ==>
              Handled(trace)[i] in Run(trace).tasks && Terminal(Run(trace).tasks[Handled(trace)[i]].status)
  {
    if trace != [] {
      var before, e := trace[..|trace| - 1], trace[|trace| - 1];
      HandledEnded(before);
      RunValid(before);
      var s := Run(before);
      assert s.worker.Executing? ==> Tracked(s, s.worker.id);
      forall id | id in s.tasks && Terminal(s.tasks[id].status)
        ensures id in Run(trace).tasks && Terminal(Run(trace).tasks[id].status)
      {
        TerminalStays(s, e, id);
      }
    }
  }

  lemma {:induction false} ResultsAreHandled(trace: seq<Step>)
    requires Legal(trace)
    ensures Results(trace) == WithResult(Run(trace).tasks, Handled(trace))
  {
    if trace != [] {
      var before, e := trace[..|trace| - 1], trace[|trace| - 1];
      ResultsAreHandled(before);
      HandledEnded(before);
      RunValid(before);
      var s := Run(before);
      WithResultFrame(s, e, Handled(before));
      ResultStep(s, e, Run(trace), Handled(before));
    }
  }

  lemma ResultStep(s: State, e: Step, s': State, handled: seq<TaskId>)
    requires Valid(s) && Enabled(s, e) && s' == Next(s, e)
    ensures WithResult(s'.tasks, handled + LetGo(s.worker, s'.worker))
         == WithResult(s'.tasks, handled) + (if e.Finish? && !IsCancelled(s, s.worker.id) then [s.worker.id] else [])
  {
    if !s.worker.Waiting? && s'.worker.Waiting? {
      var id := s.worker.id;
      WithResultSnoc(s'.tasks, handled, id);
      assert Tracked(s, id);
      assert HasResult(s'.tasks, id) <==> e.Finish? && !IsCancelled(s, id);
    } else {
      assert handled + [] == handled;
    }
  }

  lemma WithResultSnoc(tasks: map<TaskId, Task>, ids: seq<TaskId>, id: TaskId)
    ensures WithResult(tasks, ids + [id]) == WithResult(tasks, ids) + (if HasResult(tasks, id) then [id] else [])
  {
    InitOfSnoc(ids, id);
  }

  /** Tasks get their results exactly in the order they were sent. */
  lemma ResultsInSendOrder(trace: seq<Step>)
    requires Legal(trace)
    ensures Results(trace) == WithResult(Run(trace).tasks, Sent(trace))
  {
    SendOrder(trace);
    ResultsAreHandled(trace);
    RunValid(trace);
    PendingHaveNone(Run(trace), Handled(trace), Sent(trace));
  }

  lemma PendingHaveNone(s: State, handled: seq<TaskId>, sent: seq<TaskId>)
    requires Valid(s) && sent == handled + InHand(s.worker) + s.queue
    ensures WithResult(s.tasks, sent) == WithResult(s.tasks, handled)
  {
    var rest := InHand(s.worker) + s.queue;
    assert sent == handled + rest;
    NoResultYet(s, rest);
    WithResultAppend(s.tasks, handled, rest);
  }

  lemma NoResultYet(s: State, rest: seq<TaskId>)
    requires Valid(s) && rest == InHand(s.worker) + s.queue
    ensures forall i :: 0 <= i < |rest| ==> !HasResult(s.tasks, rest[i])
  {
    forall i | 0 <= i < |rest|
      ensures !HasResult(s.tasks, rest[i])
    {
      assert rest[i] in s.tasks ==> Tracked(s, rest[i]);
      assert i < |InHand(s.worker)| || rest[i] in s.queue;
    }
  }

  // ----- what a result says ------------------------------------------------

  /** Step i of the run finished this task with the result that it now records. */
  ghost predicate FinishedAt(trace: seq<Step>, i: nat, id: TaskId, t: Task)
    requires i < |trace| && Legal(trace[..i])
  {
    && trace[i].Finish? && Run(trace[..i]).worker == Executing(id)
    && match trace[i].outcome
       case Ok(_) => t.status == Completed && t.completedAt == Some(trace[i].now)
       case Err(e) => t.status == Status.Failed && t.error == Some(e)
  }

  /** Every recorded result is the outcome of one execution of that very task. */
  lemma {:induction false} ResultsAreOutcomes(trace: seq<Step>, id: TaskId) returns (i: nat)
    requires Legal(trace) && HasResult(Run(trace).tasks, id)
    ensures i < |trace| && Legal(trace[..i]) && FinishedAt(trace, i, id, Run(trace).tasks[id])
  {
    var before, e := trace[..|trace| - 1], trace[|trace| - 1];
    var s := Run(before);
    RunValid(before);
    if HasResult(s.tasks, id) {
      i := ResultsAreOutcomes(before, id);
      TerminalStays(s, e, id);
      assert trace[..i] == before[..i];
    } else {
      i := |trace| - 1;
      ResultIsOutcome(s, e, Run(trace), id);
    }
  }

  /** A step that gives a task its result is the end of its execution. */
  lemma ResultIsOutcome(s: State, e: Step, s': State, id: TaskId)
    requires Valid(s) && Enabled(s, e) && s' == Next(s, e) && !HasResult(s.tasks, id) && HasResult(s'.tasks, id)
    ensures e.Finish? && s.worker == Executing(id)
    ensures match e.outcome
            case Ok(_) => s'.tasks[id].status == Completed && s'.tasks[id].completedAt == Some(e.now)
            case Err(x) => s'.tasks[id].status == Status.Failed && s'.tasks[id].error == Some(x)
  {
  }

  // ----- what a cancel does ------------------------------------------------

  lemma RunSnoc(trace: seq<Step>, e: Step)
    requires Legal(trace) && Enabled(Run(trace), e)
    ensures Legal(trace + [e]) && Run(trace + [e]) == Next(Run(trace), e)
  {
    InitOfSnoc(trace, e);
  }

  /** A cancel of a task that has not ended marks this task as cancelled, and touches
      nothing else of it, no other task, not the channel and not the worker; any other
      cancel touches nothing at all. */
  lemma CancelCancels(trace: seq<Step>, id: TaskId)
    requires Legal(trace)
    ensures Legal(trace + [Cancel(id)])
    ensures var s, s' := Run(trace), Run(trace + [Cancel(id)]);
            && s'.tasks.Keys == s.tasks.Keys && s'.unsent == s.unsent && s'.queue == s.queue && s'.worker == s.worker
            && (forall other :: other in s.tasks && other != id ==> s'.tasks[other] == s.tasks[other])
            && (id in s.tasks && !Terminal(s.tasks[id].status) ==>
                  var t, t' := s.tasks[id], s'.tasks[id];
                  && t'.status == Cancelled
                  && t'.progress == t.progress && t'.error == t.error && t'.completedAt == t.completedAt)
            && (id in s.tasks && Terminal(s.tasks[id].status) ==> s'.tasks[id] == s.tasks[id])
  {
    RunSnoc(trace, Cancel(id));
  }

  lemma {:induction false} WithResultHas(tasks: map<TaskId, Task>, ids: seq<TaskId>, id: TaskId)
    ensures id in WithResult(tasks, ids) <==> id in ids && HasResult(tasks, id)
  {
    if ids != [] {
      WithResultHas(tasks, ids[..|ids| - 1], id);
      Unsnoc(ids);
    }
  }

  lemma CancelStands(trace: seq<Step>, n: nat, id: TaskId)
    requires Legal(trace) && n < |trace| && Legal(trace[..n]) && trace[n] == Cancel(id)
    requires id in Run(trace[..n]).tasks && !Terminal(Run(trace[..n]).tasks[id].status)
    ensures IsCancelled(Run(trace), id)
  {
    var before, after := trace[..n], trace[..n + 1];
    assert after == before + [Cancel(id)];
    CancelCancels(before, id);
    TerminalForever(trace, n + 1, id);
  }

  lemma CancelledHasNoResult(trace: seq<Step>, id: TaskId)
    requires Legal(trace) && IsCancelled(Run(trace), id)
    ensures id !in Results(trace)
  {
    ResultsInSendOrder(trace);
    WithResultHas(Run(trace).tasks, Sent(trace), id);
  }

  /** A cancel that comes before the end of a task is final: through every continuation
      the task stays cancelled and no result is ever stored for it. */
  lemma CancelIsFinal(trace: seq<Step>, n: nat, id: TaskId)
    requires Legal(trace) && n < |trace| && Legal(trace[..n]) && trace[n] == Cancel(id)
    requires id in Run(trace[..n]).tasks && !Terminal(Run(trace[..n]).tasks[id].status)
    ensures IsCancelled(Run(trace), id) && id !in Results(trace)
  {
    CancelStands(trace, n, id);
    CancelledHasNoResult(trace, id);
  }

  /** The i-th step began this task, which was not cancelled then, as it was not when the
      worker first looked at it in step h. */
  ghost predicate BegunAt(trace: seq<Step>, h: nat, i: nat, id: TaskId)
    requires h < i < |trace| && Legal(trace[..h]) && Legal(trace[..i])
  {
    && trace[h].Check? && Run(trace[..h]).worker == Received(id) && !IsCancelled(Run(trace[..h]), id)
    && trace[i].Begin? && Run(trace[..i]).worker == Admitted(id) && !IsCancelled(Run(trace[..i]), id)
  }

  /** A task let through to its start was not cancelled when the worker looked at it. */
  lemma {:induction false} AdmittedUncancelled(trace: seq<Step>, id: TaskId) returns (h: nat)
    requires Legal(trace) && Run(trace).worker == Admitted(id)
    ensures h < |trace| && Legal(trace[..h])
    ensures trace[h].Check? && Run(trace[..h]).worker == Received(id) && !IsCancelled(Run(trace[..h]), id)
  {
    var before := trace[..|trace| - 1];
    if Run(before).worker == Admitted(id) {
      h := AdmittedUncancelled(before, id);
      assert trace[..h] == before[..h];
    } else {
      h := |trace| - 1;
    }
  }

  /** Nothing is executed that was cancelled before it began: the worker looks twice. */
  lemma {:induction false} ExecutedUncancelled(trace: seq<Step>, id: TaskId) returns (h: nat, i: nat)
    requires Legal(trace) && Run(trace).worker == Executing(id)
    ensures h < i < |trace| && Legal(trace[..h]) && Legal(trace[..i]) && BegunAt(trace, h, i, id)
  {
    var before := trace[..|trace| - 1];
    if Run(before).worker == Executing(id) {
      h, i := ExecutedUncancelled(before, id);
      assert trace[..h] == before[..h] && trace[..i] == before[..i];
    } else {
      i := |trace| - 1;
      h := AdmittedUncancelled(before, id);
      assert trace[..h] == before[..h];
    }
  }

  // ----- progress ----------------------------------------------------------

  function Phase(w: Worker): nat {
    match w case Waiting => 0 case Received(_) => 3 case Admitted(_) => 2 case Executing(_) => 1
  }

  /** The worker and send steps still ahead, if no more tasks are created. */
  function Ahead(s: State): nat {
    5 * |s.unsent| + 4 * |s.queue| + Phase(s.worker)
  }

  predicate IsWork(e: Step) {
    !e.Create? && !e.Cancel?
  }

  function Creates(trace: seq<Step>): nat {
    if trace == [] then 0 else Creates(trace[..|trace| - 1]) + (if trace[|trace| - 1].Create? then 1 else 0)
  }

  function Work(trace: seq<Step>): nat {
    if trace == [] then 0 else Work(trace[..|trace| - 1]) + (if IsWork(trace[|trace| - 1]) then 1 else 0)
  }

  /** The two numbers count steps. */
  lemma {:induction false} CreatesCounted(trace: seq<Step>)
    ensures Creates(trace) == |set i | 0 <= i < |trace| && trace[i].Create?|
  {
    if trace != [] {
      var before, last := trace[..|trace| - 1], |trace| - 1;
      var counted := set i | 0 <= i < |before| && before[i].Create?;
      CreatesCounted(before);
      assert (set i | 0 <= i < |trace| && trace[i].Create?) == counted + if trace[last].Create? then {last} else {};
    }
  }

  lemma {:induction false} WorkCounted(trace: seq<Step>)
    ensures Work(trace) == |set i | 0 <= i < |trace| && IsWork(trace[i])|
  {
    if trace != [] {
      var before, last := trace[..|trace| - 1], |trace| - 1;
      var counted := set i | 0 <= i < |before| && IsWork(before[i]);
      WorkCounted(before);
      assert (set i | 0 <= i < |trace| && IsWork(trace[i])) == counted + if IsWork(trace[last]) then {last} else {};
    }
  }

  lemma WorkAhead(s: State, e: Step, s': State)
    requires Enabled(s, e) && s' == Next(s, e) && (e.Create? ==> e.id !in s.unsent)
    ensures IsWork(e) ==> Ahead(s') < Ahead(s)
    ensures e.Cancel? ==> Ahead(s') == Ahead(s)
    ensures e.Create? ==> Ahead(s') == Ahead(s) + 5
  {
    if e.Create? {
      assert |s.unsent + {e.id}| == |s.unsent| + 1;
    } else if e.Send? {
      assert |s.unsent - {e.id}| == |s.unsent| - 1;
    } else {
      assert s'.unsent == s.unsent;
    }
  }

  /** At most five sends and worker steps happen per created task. */
  lemma {:induction false} WorkBound(trace: seq<Step>)
    requires Legal(trace)
    ensures Work(trace) + Ahead(Run(trace)) <= 5 * Creates(trace)
  {
    if trace != [] {
      var before := trace[..|trace| - 1];
      WorkBound(before);
      RunValid(before);
      WorkAhead(Run(before), trace[|trace| - 1], Run(trace));
    }
  }

  /** When neither a send nor the worker can move, every task has ended. */
  lemma QuiescentMeansDone(trace: seq<Step>, id: TaskId)
    requires Legal(trace) && id in Run(trace).tasks
    requires forall e :: IsWork(e) ==> !Enabled(Run(trace), e)
    ensures Terminal(Run(trace).tasks[id].status)
  {
    var s := Run(trace);
    RunValid(trace);
    assert Tracked(s, id);
    assert !Enabled(s, Receive) && !Enabled(s, Check) && !Enabled(s, Begin);
    assert !Enabled(s, Finish(Ok(()), 0));
    assert s.worker.Waiting? && s.queue == [];
    if id in s.unsent {
      assert Enabled(s, Send(id)) && IsWork(Send(id));
    }
  }

  // ----- the manager object ------------------------------------------------

  class BatchExportManager {
    var tasks: map<TaskId, Task>
    var unsent: set<TaskId>
    var queue: seq<TaskId>
    var worker: Worker

    ghost function View(): State
      reads this
    {
      State(tasks, unsent, queue, worker)
    }

    constructor ()
      ensures View() == START
    {
      tasks, unsent, queue, worker := map[], {}, [], Waiting;
    }

    /** `create_task` up to the release of the write lock. */
    method CreateTask(id: TaskId)
      requires id !in tasks
      modifies this
      ensures View() == Next(old(View()), Create(id))
    {
      tasks := tasks[id := Task(Pending, 0.0, None, None)];
      unsent := unsent + {id};
    }

    /** The rest of `create_task`: the send goes through once there is room. */
    method SendTask(id: TaskId)
      requires id in unsent && |queue| < CAPACITY
      modifies this
      ensures View() == Next(old(View()), Send(id))
    {
      unsent := unsent - {id};
      queue := queue + [id];
    }

    method CancelTask(id: TaskId) returns (r: Result<()>)
      modifies this
      ensures View() == Next(old(View()), Cancel(id))
      ensures r.Ok? <==> id in old(tasks) && !Terminal(old(tasks)[id].status)
      ensures r.Ok? ==> tasks[id].status == Cancelled
      ensures r.Err? ==> View() == old(View())
      ensures r.Err? ==> r.error == if id in old(tasks) then "Task cannot be cancelled" else "Task not found"
    {
      if id !in tasks {
        return Err("Task not found");
      }
      var task := tasks[id];
      if task.status == Pending || task.status == Running {
        tasks := tasks[id := task.(status := Cancelled)];
        return Ok(());
      }
      r := Err("Task cannot be cancelled");
    }

    method ReceiveTask()
      requires worker.Waiting? && queue != []
      modifies this
      ensures View() == Next(old(View()), Receive)
    {
      worker := Received(queue[0]);
      queue := queue[1..];
    }

    method CheckTask()
      requires worker.Received?
      modifies this
      ensures View() == Next(old(View()), Check)
    {
      if worker.id in tasks && tasks[worker.id].status == Cancelled {
        worker := Waiting;
        return;
      }
      worker := Admitted(worker.id);
    }

    method BeginTask()
      requires worker.Admitted?
      modifies this
      ensures View() == Next(old(View()), Begin)
    {
      var id := worker.id;
      if id in tasks {
        if tasks[id].status == Cancelled {
          worker := Waiting;
          return;
        }
        tasks := tasks[id := tasks[id].(status := Running, progress := 0.1)];
      }
      worker := Executing(id);
    }

    method FinishTask(outcome: Result<()>, now: int)
      requires worker.Executing?
      modifies this
      ensures View() == Next(old(View()), Finish(outcome, now))
    {
      var id := worker.id;
      worker := Waiting;
      if id in tasks {
        if tasks[id].status == Cancelled {
          return;
        }
        var task := tasks[id];
        match outcome {
          case Ok(_) => task := task.(status := Completed, progress := 1.0, completedAt := Some(now));
          case Err(e) => task := task.(status := Status.Failed, error := Some(e));
        }
        tasks := tasks[id := task];
      }
    }
  }
}
