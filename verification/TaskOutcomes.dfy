/** What becomes of a task, read off the operations of the run. */
module TaskOutcomes {
  import opened Basics
  import opened Tasks
  import opened TaskLaws

  /** The operation that ends the task: the first report or cancel that finds its job running. */
  function EndOf(m: Manager, ops: seq<Op>, id: nat): Option<Op>
    requires Sized(m)
    decreases |ops|
  {
    if ops == [] then None
    else if id < |m.objs| && m.phases[id] == Executing && (ops[0].Finish? || ops[0].Cancel?) && ops[0].id == id then
      Some(ops[0])
    else EndOf(Apply(m, ops[0]), ops[1..], id)
  }

  /** What a task shows once op has ended it, and what it shows before. */
  predicate Shows(t: Task, end: Option<Op>) {
    match end
    case None => (t.status == Queued || t.status == Running) && t.finishedAt == None && t.output == "" && t.error == ""
    case Some(Finish(_, Done(output), now)) =>
      t.status == Succeeded && t.finishedAt == Some(now) && t.output == output && t.error == ""
    case Some(Finish(_, Error(error), now)) =>
      t.status == Failed && t.finishedAt == Some(now) && t.error == error && t.output == ""
    case Some(Cancel(_, now)) =>
      t.status == Canceled && t.finishedAt == Some(now) && t.error == "canceled" && t.output == ""
    case Some(_) => false
  }

  /** Live, and showing nothing yet. */
  ghost predicate Blank(m: Manager, id: nat)
    requires Sized(m) && id < |m.objs|
  {
    Orderly(m, id) && Shows(m.objs[id], None)
  }

  lemma StepBlank(m: Manager, op: Op, id: nat)
    requires Sized(m) && id < |m.objs| && Blank(m, id) && !EarlyCancel(m, op, id)
    requires !(m.phases[id] == Executing && (op.Finish? || op.Cancel?) && op.id == id)
    ensures Blank(Apply(m, op), id)
  {
    StepOrderly(m, op, id);
  }

  lemma StepEnds(m: Manager, op: Op, id: nat)
    requires Sized(m) && id < |m.objs| && Blank(m, id) && m.phases[id] == Executing
    requires (op.Finish? || op.Cancel?) && op.id == id
    ensures Orderly(Apply(m, op), id) && Shows(Apply(m, op).objs[id], Some(op))
  {
    StepOrderly(m, op, id);
  }

  lemma {:induction false} RunShows(m: Manager, ops: seq<Op>, id: nat)
    requires Sized(m) && NoGhosts(m) && NeverEarly(m, ops, id) && (id < |m.objs| ==> Blank(m, id))
    ensures id < |Run(m, ops).objs| ==> Shows(Run(m, ops).objs[id], EndOf(m, ops, id))
    decreases |ops|
  {
    if ops != [] {
      var op, m' := ops[0], Apply(m, ops[0]);
      StepNoGhosts(m, op);
      if id >= |m.objs| {
        if |m'.objs| > |m.objs| {
          SubmittedOrderly(m, op);
        }
        RunShows(m', ops[1..], id);
      } else if m.phases[id] == Executing && (op.Finish? || op.Cancel?) && op.id == id {
        StepEnds(m, op, id);
        TerminalIsForever(m', ops[1..], id);
      } else {
        StepBlank(m, op, id);
        RunShows(m', ops[1..], id);
      }
    }
  }

  /**
   * In every run without an early cancel of the task: it succeeded exactly when the operation that ended it
   * reported an output, which it shows; failed exactly when that reported an error, which it shows; is
   * canceled exactly when that was a cancel; each at that time; and is live exactly when nothing ended it.
   */
  lemma OutcomeFromOps(ttl: int, ops: seq<Op>, id: nat)
    requires NeverEarly(Fresh(ttl), ops, id)
    ensures var m, end := Run(Fresh(ttl), ops), EndOf(Fresh(ttl), ops, id);
      id < |m.objs| ==>
        && Shows(m.objs[id], end)
        && (m.objs[id].status == Succeeded <==> end.Some? && end.value.Finish? && end.value.outcome.Done?)
        && (m.objs[id].status == Failed <==> end.Some? && end.value.Finish? && end.value.outcome.Error?)
        && (m.objs[id].status == Canceled <==> end.Some? && end.value.Cancel?)
  {
    RunShows(Fresh(ttl), ops, id);
    EndIsAnEnd(Fresh(ttl), ops, id);
  }

  lemma {:induction false} EndIsAnEnd(m: Manager, ops: seq<Op>, id: nat)
    requires Sized(m)
    ensures var end := EndOf(m, ops, id); end.Some? ==> end.value.Finish? || end.value.Cancel?
    decreases |ops|
  {
    if ops != [] {
      EndIsAnEnd(Apply(m, ops[0]), ops[1..], id);
    }
  }

  // ---------------------------------------------------------------- kind, job and progress

  /** The lines that the running job of the task reported, in order. */
  function LinesOf(m: Manager, ops: seq<Op>, id: nat): seq<string>
    requires Sized(m)
    decreases |ops|
  {
    if ops == [] then []
    else
      (if id < |m.objs| && m.phases[id] == Executing && ops[0].Progress? && ops[0].id == id then [ops[0].line] else [])
      + LinesOf(Apply(m, ops[0]), ops[1..], id)
  }

  lemma StepLines(m: Manager, op: Op, id: nat)
    requires Sized(m)
    ensures var reports := id < |m.objs| && m.phases[id] == Executing && op.Progress? && op.id == id;
      var line := if reports then [op.line] else [];
      && (id < |m.objs| ==> Apply(m, op).objs[id].progress == m.objs[id].progress + line)
      && (|m.objs| <= id < |Apply(m, op).objs| ==> Apply(m, op).objs[id].progress == [] == line)
  {
    if id < |m.objs| {
      assert m.objs[id].progress + [] == m.objs[id].progress;
    }
  }

  /** A task shows exactly the lines that its job reported while it ran, in order, whatever became of it. */
  lemma {:induction false} ProgressIsKept(m: Manager, ops: seq<Op>, id: nat)
    requires Sized(m) && id < |Run(m, ops).objs|
    ensures Run(m, ops).objs[id].progress
         == (if id < |m.objs| then m.objs[id].progress else []) + LinesOf(m, ops, id)
    decreases |ops|
  {
    if ops == [] {
      assert m.objs[id].progress + [] == m.objs[id].progress;
    } else {
      StepLines(m, ops[0], id);
      ProgressIsKept(Apply(m, ops[0]), ops[1..], id);
    }
  }

  /** A submitted task is queued under the next number, and keeps its kind and its job in every continuation. */
  lemma SubmitKeeps(ttl: int, before: seq<Op>, kind: string, job: Job, ops: seq<Op>)
    ensures var m := Run(Fresh(ttl), before);
      var m', id := Apply(m, Submit(kind, job)), |m.objs|;
      && |m'.objs| == id + 1 && m'.objs[..id] == m.objs && m'.objs[id].status == Queued && id in m'.listed
      && Run(m', ops).objs[id].kind == kind && Run(m', ops).jobs[id] == job
  {
    var m := Run(Fresh(ttl), before);
    KindAndJobStay(Apply(m, Submit(kind, job)), ops, |m.objs|);
  }

  /** Exactly the tasks inside their job can be canceled through a context, and none is canceled before its job. */
  ghost predicate Contexts(m: Manager)
    requires Sized(m)
  {
    && (forall id: nat :: id in m.cancels <==> id < |m.objs| && m.phases[id] == Executing)
    && (forall id: nat :: id in m.canceledCtx ==> id < |m.objs| && m.phases[id] != Spawned)
  }

  lemma StepContexts(m: Manager, op: Op)
    requires Sized(m) && Contexts(m)
    ensures Contexts(Apply(m, op))
  {
  }

  lemma {:induction false} RunContexts(m: Manager, ops: seq<Op>)
    requires Sized(m) && Contexts(m)
    ensures Contexts(Run(m, ops))
    decreases |ops|
  {
    if ops != [] {
      StepContexts(m, ops[0]);
      RunContexts(Apply(m, ops[0]), ops[1..]);
    }
  }

  /** In every run, early cancels included, cancels holds exactly the tasks inside their job. */
  lemma CancelsAreRunning(ttl: int, ops: seq<Op>)
    ensures Contexts(Run(Fresh(ttl), ops))
  {
    RunContexts(Fresh(ttl), ops);
  }

  lemma {:induction false} PastRun(m: Manager, ops: seq<Op>, id: nat)
    requires Sized(m) && id < |m.objs| && m.phases[id] != Spawned
    ensures Run(m, ops).phases[id] != Spawned && (m.phases[id] == Returned ==> Run(m, ops).phases[id] == Returned)
    decreases |ops|
  {
    if ops != [] {
      PastRun(Apply(m, ops[0]), ops[1..], id);
    }
  }

  /**
   * The goroutine of a task calls its job at its run step exactly when the task is listed then, with a context
   * that is not canceled; otherwise it is gone for good and the task stays as it is. No later run step of it does
   * anything, and no other task is touched.
   */
  lemma RunsIfListed(ttl: int, before: seq<Op>, id: nat, ops: seq<Op>)
    requires var m := Run(Fresh(ttl), before); id < |m.objs| && m.phases[id] == Spawned
    ensures var m := Run(Fresh(ttl), before);
      var m' := Apply(m, RunStarts(id));
      && (id in m.listed ==> m'.phases[id] == Executing && m'.objs[id] == m.objs[id].(status := Running)
                             && id in m'.cancels && id !in m'.canceledCtx)
      && (id !in m.listed ==> m'.objs == m.objs && m'.cancels == m.cancels && Run(m', ops).phases[id] == Returned)
      && Apply(Run(m', ops), RunStarts(id)) == Run(m', ops)
      && m'.listed == m.listed && m'.completions == m.completions
      && (forall u :: 0 <= u < |m.objs| && u != id ==> m'.objs[u] == m.objs[u] && m'.phases[u] == m.phases[u])
  {
    var m := Run(Fresh(ttl), before);
    PastRun(Apply(m, RunStarts(id)), ops, id);
  }

  // ---------------------------------------------------------------- retry and pruning

  /** In every run, exactly the listed tasks that succeeded, failed or are canceled can be tried again. */
  lemma EndedIsRetryable(ttl: int, ops: seq<Op>, id: nat)
    ensures var m := Run(Fresh(ttl), ops);
      |Apply(m, Retry(id)).objs| > |m.objs| <==>
        id in m.listed && id < |m.objs|
        && (m.objs[id].status == Succeeded || m.objs[id].status == Failed || m.objs[id].status == Canceled)
  {
    RunSettled(Fresh(ttl), ops, id);
  }

  /** Pruning takes off the list exactly the tasks that finished longer ago than the time to live, if there is one. */
  lemma PruneByAge(ttl: int, ops: seq<Op>, now: int, id: nat)
    ensures var m := Run(Fresh(ttl), ops);
      var m' := Apply(m, Prune(now));
      && m'.objs == m.objs && m'.cancels == m.cancels && m'.completions == m.completions
      && (id in m'.listed <==> id in m.listed && !(ttl > 0 && id < |m.objs| && m.objs[id].finishedAt.Some?
                                                   && now - m.objs[id].finishedAt.value > ttl))
  {
    TtlStays(Fresh(ttl), ops);
  }

  lemma {:induction false} TtlStays(m: Manager, ops: seq<Op>)
    requires Sized(m)
    ensures Run(m, ops).ttl == m.ttl
    decreases |ops|
  {
    if ops != [] {
      TtlStays(Apply(m, ops[0]), ops[1..]);
    }
  }
}
