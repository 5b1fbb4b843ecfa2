/**
 * The async task manager. Each critical section under the manager mutex is one operation; the
 * goroutine of a task is its phase. Task number n is the n-th submitted since the process started
 * (its id is the text "task-" and that number, counted from 1).
 */
module Tasks {
  import opened Basics

  datatype Status = Queued | Running | Succeeded | Failed | Canceled

  /** finishedAt is None while the time is zero. */
  datatype Task = Task(
    kind: string, status: Status, finishedAt: Option<int>, error: string, output: string, progress: seq<string>)

  /** A job body, re-runnable. */
  type Job = nat

  /** The goroutine of a task: not yet in run, inside the job, or done. */
  datatype Phase = Spawned | Executing | Returned

  datatype Outcome = Done(output: string) | Error(error: string)

  /**
   * objs are the task objects, which outlive their place in the map; listed is the key set of tasks,
   * cancels that of cancels; canceledCtx holds the tasks whose current context is canceled, and
   * completions counts the calls of the completion callback.
   */
  datatype Manager = Manager(
    objs: seq<Task>, jobs: seq<Job>, phases: seq<Phase>, listed: set<nat>, cancels: set<nat>,
    canceledCtx: set<nat>, completions: multiset<nat>, ttl: int)

  datatype Op =
    | Submit(kind: string, job: Job)
    | RunStarts(id: nat)
    | Progress(id: nat, line: string)
    | Finish(id: nat, outcome: Outcome, now: int)
    | Cancel(id: nat, now: int)
    | Retry(id: nat)
    | Prune(now: int)

  function Fresh(ttl: int): Manager {
    Manager([], [], [], {}, {}, {}, multiset{}, ttl)
  }

  predicate Sized(m: Manager) {
    |m.objs| == |m.jobs| == |m.phases|
  }

  function DoSubmit(m: Manager, kind: string, job: Job): Manager {
    m.(objs := m.objs + [Task(kind, Queued, None, "", "", [])],
       jobs := m.jobs + [job],
       phases := m.phases + [Spawned],
       listed := m.listed + {|m.objs|})
  }

  /** The critical section of run; without an entry the goroutine just returns. */
  function DoRun(m: Manager, id: nat): Manager
    requires Sized(m)
  {
    if id >= |m.objs| || m.phases[id] != Spawned then m
    else if id !in m.listed then m.(phases := m.phases[id := Returned])
    else
      m.(objs := m.objs[id := m.objs[id].(status := Running)],
         phases := m.phases[id := Executing],
         cancels := m.cancels + {id},
         canceledCtx := m.canceledCtx - {id})
  }

  function DoProgress(m: Manager, id: nat, line: string): Manager
    requires Sized(m)
  {
    if id >= |m.objs| || m.phases[id] != Executing then m
    else m.(objs := m.objs[id := m.objs[id].(progress := m.objs[id].progress + [line])])
  }

  function Finished(t: Task, outcome: Outcome, now: int): Task {
    match outcome
    case Done(output) => t.(finishedAt := Some(now), status := Succeeded, output := output)
    case Error(error) => t.(finishedAt := Some(now), status := Failed, error := error)
  }

  /** finish, called by the job as its last action. */
  function DoFinish(m: Manager, id: nat, outcome: Outcome, now: int): Manager
    requires Sized(m)
  {
    if id >= |m.objs| || m.phases[id] != Executing then m
    else
      var m' := m.(phases := m.phases[id := Returned], cancels := m.cancels - {id});
      if m.objs[id].status == Canceled then m'
      else m'.(objs := m.objs[id := Finished(m.objs[id], outcome, now)], completions := m.completions + multiset{id})
  }

  /** Cancel reports whether a live task was found. */
  predicate Cancelable(m: Manager, id: nat) {
    id in m.listed && id < |m.objs| && m.objs[id].finishedAt.None? && m.objs[id].status != Canceled
  }

  function DoCancel(m: Manager, id: nat, now: int): Manager {
    if !Cancelable(m, id) then m
    else
      m.(objs := m.objs[id := m.objs[id].(status := Canceled, finishedAt := Some(now), error := "canceled")],
         canceledCtx := if id in m.cancels then m.canceledCtx + {id} else m.canceledCtx,
         completions := m.completions + multiset{id})
  }

  predicate Retryable(m: Manager, id: nat) {
    && id in m.listed && id < |m.objs|
    && m.objs[id].finishedAt.Some? && m.objs[id].status != Queued && m.objs[id].status != Running
  }

  function DoRetry(m: Manager, id: nat): Manager
    requires Sized(m)
  {
    if Retryable(m, id) then DoSubmit(m, m.objs[id].kind, m.jobs[id]) else m
  }

  predicate Expired(m: Manager, id: nat, now: int) {
    id < |m.objs| && m.objs[id].finishedAt.Some? && m.objs[id].finishedAt.value < now - m.ttl
  }

  function DoPrune(m: Manager, now: int): Manager {
    if m.ttl <= 0 then m else m.(listed := set id | id in m.listed && !Expired(m, id, now))
  }

  function Apply(m: Manager, op: Op): (m': Manager)
    requires Sized(m)
    ensures Sized(m') && |m'.objs| >= |m.objs|
  {
    match op
    case Submit(kind, job) => DoSubmit(m, kind, job)
    case RunStarts(id) => DoRun(m, id)
    case Progress(id, line) => DoProgress(m, id, line)
    case Finish(id, outcome, now) => DoFinish(m, id, outcome, now)
    case Cancel(id, now) => DoCancel(m, id, now)
    case Retry(id) => DoRetry(m, id)
    case Prune(now) => DoPrune(m, now)
  }

  function Run(m: Manager, ops: seq<Op>): (m': Manager)
    requires Sized(m)
    ensures Sized(m') && |m'.objs| >= |m.objs|
    decreases |ops|
  {
    if ops == [] then m else Run(Apply(m, ops[0]), ops[1..])
  }

  // ---------------------------------------------------------------- the code

  class TaskRecord {
    const kind: string
    var status: Status
    var finishedAt: Option<int>
    var error: string
    var output: string
    var progress: seq<string>
    ghost const number: nat

    constructor (kind: string, ghost number: nat)
      ensures Value() == Task(kind, Queued, None, "", "", []) && this.number == number
    {
      this.kind, this.number := kind, number;
      status, finishedAt, error, output, progress := Queued, None, "", "", [];
    }

    function Value(): Task
      reads this
    {
      Task(kind, status, finishedAt, error, output, progress)
    }

    method MarkCanceled(now: int)
      modifies this
      ensures Value() == old(Value()).(status := Canceled, finishedAt := Some(now), error := "canceled")
    {
      status := Canceled;
      finishedAt := Some(now);
      error := "canceled";
    }

    method AddLine(line: string)
      modifies this
      ensures Value() == old(Value()).(progress := old(progress) + [line])
    {
      progress := progress + [line];
    }

    method MarkFinished(outcome: Outcome, now: int)
      modifies this
      ensures Value() == Finished(old(Value()), outcome, now)
    {
      finishedAt := Some(now);
      match outcome {
        case Done(output) =>
          status := Succeeded;
          this.output := output;
        case Error(error) =>
          status := Failed;
          this.error := error;
      }
    }
  }

  class TaskManager {
    var tasks: map<nat, TaskRecord>
    var cancels: set<nat>
    var jobs: map<nat, Job>
    var seqNo: nat
    var canceledCtx: set<nat>
    const ttl: int
    ghost var objs: seq<TaskRecord>
    ghost var phases: seq<Phase>
    ghost var completions: multiset<nat>

    /** The manager holds exactly the abstract state v. */
    ghost predicate Holds(v: Manager)
      reads this, objs
    {
      Objects(v.objs) && Books(v) && Counts(v)
    }

    ghost predicate Objects(values: seq<Task>)
      reads this, objs
    {
      |objs| == |values| && forall i :: 0 <= i < |objs| ==> objs[i].number == i && objs[i].Value() == values[i]
    }

    /** The two maps: the listed tasks, and a job for every task. */
    ghost predicate Books(v: Manager)
      reads this
    {
      && Sized(v) && |objs| == |v.objs|
      && tasks.Keys == v.listed && (forall i :: i in tasks ==> i < |objs| && tasks[i] == objs[i])
      && (forall i: nat :: i in jobs <==> i < |objs|) && (forall i :: i in jobs ==> jobs[i] == v.jobs[i])
    }

    ghost predicate Counts(v: Manager)
      reads this
    {
      && seqNo == |v.objs| && phases == v.phases && ttl == v.ttl
      && cancels == v.cancels && canceledCtx == v.canceledCtx && completions == v.completions
    }

    constructor (ttl: int)
      ensures Holds(Fresh(ttl))
    {
      tasks, cancels, jobs, seqNo, canceledCtx := map[], {}, map[], 0, {};
      this.ttl := ttl;
      objs, phases, completions := [], [], multiset{};
    }

    method SubmitJob(kind: string, job: Job, ghost v: Manager) returns (id: nat)
      requires Holds(v)
      modifies this
      ensures id == |v.objs| && |objs| == id + 1 && objs[..id] == old(objs) && fresh(objs[id])
      ensures Holds(DoSubmit(v, kind, job))
    {
      id := seqNo;
      seqNo := seqNo + 1;
      var t := new TaskRecord(kind, id);
      tasks := tasks[id := t];
      jobs := jobs[id := job];
      objs := objs + [t];
      phases := phases + [Spawned];
    }

    /** run, up to the call of the job; found says whether the job is called. */
    method RunTask(id: nat, ghost v: Manager) returns (found: bool)
      requires Holds(v) && id < |v.objs| && v.phases[id] == Spawned
      modifies this, objs
      ensures objs == old(objs) && found == (id in v.listed)
      ensures Holds(DoRun(v, id))
    {
      if id !in tasks {
        phases := phases[id := Returned];
        return false;
      }
      var t := tasks[id];
      cancels := cancels + {id};
      canceledCtx := canceledCtx - {id};
      t.status := Running;
      phases := phases[id := Executing];
      return true;
    }

    /** One line of progress from the job. */
    method AddLine(t: TaskRecord, id: nat, line: string, ghost v: Manager)
      requires Holds(v) && id < |v.objs| && v.phases[id] == Executing && objs[id] == t
      modifies objs
      ensures Holds(DoProgress(v, id, line))
    {
      t.AddLine(line);
    }

    method FinishTask(t: TaskRecord, id: nat, outcome: Outcome, now: int, ghost v: Manager) returns (complete: bool)
      requires Holds(v) && id < |v.objs| && v.phases[id] == Executing && objs[id] == t
      modifies this, objs
      ensures objs == old(objs) && complete == (v.objs[id].status != Canceled)
      ensures Holds(DoFinish(v, id, outcome, now))
    {
      phases := phases[id := Returned];
      if t.status == Canceled {
        cancels := cancels - {id};
        return false;
      }
      t.MarkFinished(outcome, now);
      cancels := cancels - {id};
      completions := completions + multiset{id};
      return true;
    }

    method CancelTask(id: nat, now: int, ghost v: Manager) returns (live: bool)
      requires Holds(v)
      modifies this, objs
      ensures objs == old(objs) && live == Cancelable(v, id)
      ensures Holds(DoCancel(v, id, now))
    {
      if id !in tasks {
        return false;
      }
      var t := tasks[id];
      if t.finishedAt.Some? || t.status == Canceled {
        return false;
      }
      t.MarkCanceled(now);
      if id in cancels {
        canceledCtx := canceledCtx + {id};
      }
      completions := completions + multiset{id};
      return true;
    }

    method RetryTask(id: nat, ghost v: Manager) returns (again: Option<nat>)
      requires Holds(v)
      modifies this
      ensures again == if Retryable(v, id) then Some(|v.objs|) else None
      ensures Holds(DoRetry(v, id))
    {
      if id !in tasks {
        return None;
      }
      var t := tasks[id];
      if t.finishedAt.None? || t.status == Queued || t.status == Running {
        return None;
      }
      if id !in jobs {
        return None;
      }
      var new' := SubmitJob(t.kind, jobs[id], v);
      return Some(new');
    }

    method PruneTasks(now: int, ghost v: Manager)
      requires Holds(v)
      modifies this`tasks
      ensures Holds(DoPrune(v, now))
    {
      if ttl <= 0 {
        return;
      }
      var cutoff := now - ttl;
      var todo := tasks.Keys;
      while todo != {}
        invariant todo <= tasks.Keys <= v.listed
        invariant forall i :: i in tasks ==> i < |objs| && tasks[i] == objs[i]
        invariant forall i :: i in v.listed && i !in tasks ==> Expired(v, i, now)
        invariant forall i :: i in tasks && i !in todo ==> !Expired(v, i, now)
        decreases todo
      {
        var i :| i in todo;
        assert tasks[i].Value() == v.objs[i];
        if tasks[i].finishedAt.Some? && tasks[i].finishedAt.value < cutoff {
          tasks := tasks - {i};
        }
        todo := todo - {i};
      }
      assert tasks.Keys == DoPrune(v, now).listed;
    }
  }
}
