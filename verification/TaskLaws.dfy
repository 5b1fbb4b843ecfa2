/** The lifecycle laws of tasks over every run. */
module TaskLaws {
  import opened Tasks

  predicate Terminal(s: Status) {
    s == Succeeded || s == Failed || s == Canceled
  }

  /** A task whose cancel, if any, came after its run started. */
  ghost predicate Orderly(m: Manager, id: nat)
    requires Sized(m) && id < |m.objs|
  {
    var t, phase := m.objs[id], m.phases[id];
    && (Terminal(t.status) <==> t.finishedAt.Some?)
    && (phase == Spawned ==> t.status == Queued && id in m.listed && id !in m.canceledCtx)
    && (phase == Executing ==> t.status == Running || t.status == Canceled)
    && (phase == Returned ==> Terminal(t.status))
    && (phase == Executing ==> (t.status == Canceled <==> id in m.canceledCtx))
    && (id in m.cancels <==> phase == Executing)
    && m.completions[id] == (if Terminal(t.status) then 1 else 0)
    && (!Terminal(t.status) ==> id in m.listed)
  }

  /** Nothing refers to a task not yet submitted. */
  ghost predicate NoGhosts(m: Manager) {
    forall id :: id >= |m.objs| ==>
      id !in m.listed && id !in m.cancels && id !in m.canceledCtx && m.completions[id] == 0
  }

  /** A cancel that finds the task still queued. */
  predicate EarlyCancel(m: Manager, op: Op, id: nat)
    requires id < |m.objs|
  {
    op.Cancel? && op.id == id && Cancelable(m, id) && m.objs[id].status == Queued
  }

  lemma StepNoGhosts(m: Manager, op: Op)
    requires Sized(m) && NoGhosts(m)
    ensures NoGhosts(Apply(m, op))
  {
  }

  /** Only an early cancel of a task itself can disturb it. */
  lemma StepOrderly(m: Manager, op: Op, id: nat)
    requires Sized(m) && id < |m.objs| && Orderly(m, id) && !EarlyCancel(m, op, id)
    ensures Orderly(Apply(m, op), id)
    ensures Terminal(m.objs[id].status) ==>
      var t, t' := m.objs[id], Apply(m, op).objs[id];
      t' == t.(progress := t'.progress) && t.progress <= t'.progress
  {
  }

  lemma SubmittedOrderly(m: Manager, op: Op)
    requires Sized(m) && NoGhosts(m) && |Apply(m, op).objs| > |m.objs|
    ensures |Apply(m, op).objs| == |m.objs| + 1 && Orderly(Apply(m, op), |m.objs|)
  {
  }

  /** In this run no cancel of id finds it still queued. */
  ghost predicate NeverEarly(m: Manager, ops: seq<Op>, id: nat)
    requires Sized(m)
    decreases |ops|
  {
    ops == [] || ((id < |m.objs| ==> !EarlyCancel(m, ops[0], id)) && NeverEarly(Apply(m, ops[0]), ops[1..], id))
  }

  /** Once terminal, a task keeps its outcome, its finishing time and its one callback. */
  lemma {:induction false} TerminalIsForever(m: Manager, ops: seq<Op>, id: nat)
    requires Sized(m) && id < |m.objs| && Orderly(m, id) && Terminal(m.objs[id].status)
    ensures var t, t' := m.objs[id], Run(m, ops).objs[id];
      && t' == t.(progress := t'.progress) && t.progress <= t'.progress
    ensures Run(m, ops).completions[id] == 1
    decreases |ops|
  {
    if ops != [] {
      StepOrderly(m, ops[0], id);
      TerminalIsForever(Apply(m, ops[0]), ops[1..], id);
    }
  }

  lemma {:induction false} RunOrderly(m: Manager, ops: seq<Op>, id: nat)
    requires Sized(m) && NoGhosts(m) && NeverEarly(m, ops, id)
    requires id < |m.objs| ==> Orderly(m, id)
    ensures NoGhosts(Run(m, ops))
    ensures id < |Run(m, ops).objs| ==> Orderly(Run(m, ops), id)
    decreases |ops|
  {
    if ops != [] {
      StepNoGhosts(m, ops[0]);
      if id < |m.objs| {
        StepOrderly(m, ops[0], id);
      } else if |Apply(m, ops[0]).objs| > |m.objs| {
        SubmittedOrderly(m, ops[0]);
      }
      RunOrderly(Apply(m, ops[0]), ops[1..], id);
    }
  }

  /**
   * In every run without an early cancel of the task: it is in cancels exactly while its job runs,
   * finished exactly when its status is terminal, and its callback was called exactly once if
   * finished and never otherwise; and while its job runs, its context is canceled exactly when it is.
   */
  lemma Lifecycle(ttl: int, ops: seq<Op>, id: nat)
    requires NeverEarly(Fresh(ttl), ops, id)
    ensures var m := Run(Fresh(ttl), ops); id < |m.objs| ==> Orderly(m, id)
  {
    RunOrderly(Fresh(ttl), ops, id);
  }

  // ---------------------------------------------------------------- every run, early cancels included

  /** The task never saw an early cancel, or it has a finishing time, which it keeps. */
  ghost predicate Settled(m: Manager, id: nat)
    requires Sized(m) && id < |m.objs|
  {
    Orderly(m, id) || m.objs[id].finishedAt.Some?
  }

  lemma StepSettled(m: Manager, op: Op, id: nat)
    requires Sized(m) && id < |m.objs| && Settled(m, id)
    ensures Settled(Apply(m, op), id)
  {
    if Orderly(m, id) && !EarlyCancel(m, op, id) {
      StepOrderly(m, op, id);
    }
  }

  lemma {:induction false} RunSettled(m: Manager, ops: seq<Op>, id: nat)
    requires Sized(m) && NoGhosts(m) && (id < |m.objs| ==> Settled(m, id))
    ensures NoGhosts(Run(m, ops)) && (id < |Run(m, ops).objs| ==> Settled(Run(m, ops), id))
    decreases |ops|
  {
    if ops != [] {
      StepNoGhosts(m, ops[0]);
      if id < |m.objs| {
        StepSettled(m, ops[0], id);
      } else if |Apply(m, ops[0]).objs| > |m.objs| {
        SubmittedOrderly(m, ops[0]);
      }
      RunSettled(Apply(m, ops[0]), ops[1..], id);
    }
  }

  /** In every run a task that has not finished is listed: pruning never removes it. */
  lemma UnfinishedIsListed(ttl: int, ops: seq<Op>, id: nat)
    ensures var m := Run(Fresh(ttl), ops);
      id < |m.objs| && m.objs[id].finishedAt.None? ==> id in m.listed && Orderly(m, id)
  {
    RunSettled(Fresh(ttl), ops, id);
  }

  // ---------------------------------------------------------------- cancel

  /** A goroutine that has returned stays returned, and a finish makes it return. */
  lemma {:induction false} FinishReturns(m: Manager, ops: seq<Op>, id: nat)
    requires Sized(m) && id < |m.objs| && m.phases[id] != Spawned
    requires m.phases[id] == Returned || exists i :: 0 <= i < |ops| && ops[i].Finish? && ops[i].id == id
    ensures Run(m, ops).phases[id] == Returned
    decreases |ops|
  {
    if ops != [] {
      var m' := Apply(m, ops[0]);
      if m'.phases[id] != Returned {
        var i :| 0 <= i < |ops| && ops[i].Finish? && ops[i].id == id;
        assert ops[1..][i - 1] == ops[i];
      }
      FinishReturns(m', ops[1..], id);
    }
  }

  /**
   * A cancel that finds the task running beats everything later: whatever follows, the task stays
   * canceled with one callback and a canceled context, and once its job reports, it leaves cancels.
   */
  lemma CancelBeatsFinish(ttl: int, before: seq<Op>, id: nat, now: int, ops: seq<Op>)
    requires var m := Run(Fresh(ttl), before); Cancelable(m, id) && m.objs[id].status == Running
    ensures var c := DoCancel(Run(Fresh(ttl), before), id, now);
      var end := Run(c, ops);
      && c.objs[id].status == Canceled && end.objs[id] == c.objs[id].(progress := end.objs[id].progress)
      && end.completions[id] == 1
      && (id in end.cancels <==> end.phases[id] == Executing)
      && (id in end.cancels ==> id in end.canceledCtx)
      && ((exists i :: 0 <= i < |ops| && ops[i].Finish? && ops[i].id == id) ==> id !in end.cancels)
  {
    UnfinishedIsListed(ttl, before, id);
    CancelOrderly(Run(Fresh(ttl), before), id, now);
    var c := DoCancel(Run(Fresh(ttl), before), id, now);
    CanceledStays(c, ops, id);
    if exists i :: 0 <= i < |ops| && ops[i].Finish? && ops[i].id == id {
      FinishReturns(c, ops, id);
    }
  }

  lemma CancelOrderly(m: Manager, id: nat, now: int)
    requires Sized(m) && Cancelable(m, id) && Orderly(m, id) && m.objs[id].status == Running
    ensures var c := DoCancel(m, id, now); c.objs[id].status == Canceled && c.phases[id] == Executing && Orderly(c, id)
  {
    StepOrderly(m, Cancel(id, now), id);
    assert Apply(m, Cancel(id, now)) == DoCancel(m, id, now);
  }

  /** What becomes of a canceled task whose job was running. */
  lemma CanceledStays(c: Manager, ops: seq<Op>, id: nat)
    requires Sized(c) && id < |c.objs| && Orderly(c, id) && c.objs[id].status == Canceled && c.phases[id] != Spawned
    ensures var end := Run(c, ops);
      && end.objs[id] == c.objs[id].(progress := end.objs[id].progress) && end.completions[id] == 1
      && (id in end.cancels <==> end.phases[id] == Executing)
      && (id in end.cancels ==> id in end.canceledCtx)
  {
    TerminalIsForever(c, ops, id);
    OrderlyIsForever(c, ops, id);
  }

  lemma {:induction false} OrderlyIsForever(m: Manager, ops: seq<Op>, id: nat)
    requires Sized(m) && id < |m.objs| && Orderly(m, id) && Terminal(m.objs[id].status)
    ensures Orderly(Run(m, ops), id)
    decreases |ops|
  {
    if ops != [] {
      StepOrderly(m, ops[0], id);
      OrderlyIsForever(Apply(m, ops[0]), ops[1..], id);
    }
  }

  /** Canceling a queued task is undone by its run, and its callback is called twice. */
  lemma CancelWhileQueued(ttl: int, before: seq<Op>, id: nat, now: int, output: string)
    requires var m := Run(Fresh(ttl), before); Cancelable(m, id) && m.objs[id].status == Queued
    ensures var c := DoCancel(Run(Fresh(ttl), before), id, now);
      var m1, m2 := Run(c, [RunStarts(id)]), Run(c, [RunStarts(id), Finish(id, Done(output), now)]);
      && m1.objs[id].status == Running && m1.objs[id].finishedAt.Some?
      && m2.objs[id].status == Succeeded && m2.completions[id] == 2
  {
    UnfinishedIsListed(ttl, before, id);
    var c := DoCancel(Run(Fresh(ttl), before), id, now);
    assert c.phases[id] == Spawned && id in c.listed && c.completions[id] == 1;
    RunAndFinish(c, id, now, output);
  }

  lemma RunAndFinish(c: Manager, id: nat, now: int, output: string)
    requires Sized(c) && id < |c.objs| && c.phases[id] == Spawned && id in c.listed
    ensures var m1, m2 := Run(c, [RunStarts(id)]), Run(c, [RunStarts(id), Finish(id, Done(output), now)]);
      && m1.objs[id] == c.objs[id].(status := Running)
      && m2.objs[id].status == Succeeded && m2.completions[id] == c.completions[id] + 1
  {
    var r := DoRun(c, id);
    assert [RunStarts(id)][1..] == [];
    assert Run(c, [RunStarts(id)]) == Run(r, []) == r;
    var fin := Finish(id, Done(output), now);
    assert [RunStarts(id), fin][1..] == [fin] && [fin][1..] == [];
    var f := DoFinish(r, id, Done(output), now);
    assert Run(c, [RunStarts(id), fin]) == Run(r, [fin]) == Run(f, []) == f;
  }

  /** Submit, cancel, run, finish: the canceled task succeeds, and its callback is called twice. */
  lemma CanceledTaskSucceeds(ttl: int, kind: string, job: Job, now: int, output: string)
    ensures var end := Run(Fresh(ttl), [Submit(kind, job), Cancel(0, now), RunStarts(0), Finish(0, Done(output), now)]);
      |end.objs| == 1 && end.objs[0].status == Succeeded && end.completions[0] == 2
  {
    var tail := [RunStarts(0), Finish(0, Done(output), now)];
    var ops := [Submit(kind, job), Cancel(0, now)] + tail;
    var m := DoSubmit(Fresh(ttl), kind, job);
    var c := DoCancel(m, 0, now);
    assert ops[1..] == [Cancel(0, now)] + tail && ops[1..][1..] == tail;
    assert Run(Fresh(ttl), ops) == Run(m, ops[1..]) == Run(c, tail);
    assert Run(Fresh(ttl), [Submit(kind, job)]) == m by {
      assert [Submit(kind, job)][1..] == [];
    }
    CancelWhileQueued(ttl, [Submit(kind, job)], 0, now, output);
    RunSize(c, tail);
  }

  lemma {:induction false} RunSize(m: Manager, ops: seq<Op>)
    requires Sized(m) && forall i :: 0 <= i < |ops| ==> !ops[i].Submit? && !ops[i].Retry?
    ensures |Run(m, ops).objs| == |m.objs|
    decreases |ops|
  {
    if ops != [] {
      RunSize(Apply(m, ops[0]), ops[1..]);
    }
  }

  /** In every run, a successful cancel holds in every continuation exactly when it finds the task running. */
  lemma CancelIsFinal(ttl: int, before: seq<Op>, id: nat, now: int)
    requires Cancelable(Run(Fresh(ttl), before), id)
    ensures (forall ops :: Run(DoCancel(Run(Fresh(ttl), before), id, now), ops).objs[id].status == Canceled)
       <==> Run(Fresh(ttl), before).objs[id].status == Running
  {
    var m := Run(Fresh(ttl), before);
    UnfinishedIsListed(ttl, before, id);
    if m.objs[id].status == Running {
      forall ops: seq<Op>
        ensures Run(DoCancel(m, id, now), ops).objs[id].status == Canceled
      {
        CancelBeatsFinish(ttl, before, id, now, ops);
      }
    } else {
      CancelWhileQueued(ttl, before, id, now, "");
      assert Run(DoCancel(m, id, now), [RunStarts(id)]).objs[id].status == Running;
    }
  }

  // ---------------------------------------------------------------- retry

  /** Kind and job of a task never change. */
  lemma {:induction false} KindAndJobStay(m: Manager, ops: seq<Op>, id: nat)
    requires Sized(m) && id < |m.objs|
    ensures Run(m, ops).objs[id].kind == m.objs[id].kind && Run(m, ops).jobs[id] == m.jobs[id]
    decreases |ops|
  {
    if ops != [] {
      KindAndJobStay(Apply(m, ops[0]), ops[1..], id);
    }
  }

  /**
   * Retry leaves every task alone and queues a new one, which keeps the kind and job of the old one and
   * lives its own orderly life in every continuation without an early cancel of it.
   */
  lemma RetryStartsAfresh(ttl: int, before: seq<Op>, id: nat, ops: seq<Op>)
    requires Retryable(Run(Fresh(ttl), before), id)
    ensures var m := Run(Fresh(ttl), before);
      var m', again := DoRetry(m, id), |m.objs|;
      && m'.objs[..|m.objs|] == m.objs && |m'.objs| == again + 1 && m'.objs[again].status == Queued
      && var end := Run(m', ops);
        && end.objs[again].kind == m.objs[id].kind && end.jobs[again] == m.jobs[id]
        && (NeverEarly(m', ops, again) ==> Orderly(end, again))
  {
    var m := Run(Fresh(ttl), before);
    RunSettled(Fresh(ttl), before, id);
    assert Apply(m, Retry(id)) == DoRetry(m, id);
    SubmittedOrderly(m, Retry(id));
    StepNoGhosts(m, Retry(id));
    KindAndJobStay(DoRetry(m, id), ops, |m.objs|);
    if NeverEarly(DoRetry(m, id), ops, |m.objs|) {
      RunOrderly(DoRetry(m, id), ops, |m.objs|);
    }
  }
}
