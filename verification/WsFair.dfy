/** Endless schedules of writers and closers of one connection: nothing happens forever, and a fair one ends. */
module WsFair {
  import opened WsFrames
  import opened WsConn
  import opened WsWire
  import opened Schedules

  /** How much a goroutine still has to go through. */
  function Stage(pc: Pc): nat {
    match pc
    case Ready => 0
    case TearDown => 1
    case BodyOut(_, _) => 2
    case HeaderOut(_, _) => 3
    case Locked(_, _) => 4
    case Want(_, _) => 5
    case InOnce => 6
  }

  function Effort(th: Thread): nat {
    7 * |th.jobs| + Stage(th.pc)
  }

  function TotalEffort(threads: seq<Thread>): nat
    decreases |threads|
  {
    if threads == [] then 0 else Effort(threads[0]) + TotalEffort(threads[1..])
  }

  lemma {:induction false} EffortUpdate(threads: seq<Thread>, t: nat, th: Thread)
    requires t < |threads|
    ensures TotalEffort(threads[t := th]) + Effort(threads[t]) == TotalEffort(threads) + Effort(th)
    decreases t
  {
    if t == 0 {
      assert threads[t := th][1..] == threads[1..];
    } else {
      assert threads[t := th][1..] == threads[1..][t - 1 := th];
      EffortUpdate(threads[1..], t - 1, th);
    }
  }

  lemma JobDescends(n: Net, t: nat)
    requires t < |n.threads| && n.threads[t].jobs != []
    requires n.threads[t].pc.Ready?
    ensures var n' := TakeJob(n, t);
      n' == n || (n'.threads == n.threads[t := n'.threads[t]] && Effort(n'.threads[t]) < Effort(n.threads[t]))
  {
  }

  lemma StageDescends(n: Net, t: nat)
    requires AllSound(n) && t < |n.threads| && !n.threads[t].pc.Ready?
    ensures var n' := Step(n, t);
      n' == n || (|n'.threads| == |n.threads| && n'.threads == n.threads[t := n'.threads[t]]
                  && Effort(n'.threads[t]) < Effort(n.threads[t]))
  {
  }

  function Work(): Net -> nat {
    (n: Net) => TotalEffort(n.threads)
  }

  function NothingElse(): Net -> nat {
    (n: Net) => 0
  }

  /** A step that changes anything leaves less to do. */
  lemma StepDescends(n: Net, t: nat, n': Net)
    requires AllSound(n) && n' == Step(n, t) && n' != n
    ensures Lower(n', n, Work(), NothingElse())
  {
    if n.threads[t].pc.Ready? {
      JobDescends(n, t);
    } else {
      StageDescends(n, t);
    }
    EffortUpdate(n.threads, t, n'.threads[t]);
  }

  // ---------------------------------------------------------------- endless schedules

  /** Who steps at each moment. */
  type Schedule = nat -> nat

  ghost function NetAt(n: Net, f: Schedule, k: nat): Net
    decreases k
  {
    if k == 0 then n else Next(NetAt(n, f, k - 1), f(k - 1))
  }

  ghost function Next(n: Net, t: nat): Net {
    if AllSound(n) then Step(n, t) else n
  }

  ghost function NetsOf(n: Net, f: Schedule): nat -> Net {
    (k: nat) => NetAt(n, f, k)
  }

  /** What every step keeps: all invariants of the wire, and the order of each goroutine's writes. */
  ghost predicate Good(n: Net, programs: seq<seq<Job>>) {
    Inv(n) && InOrder(n, programs)
  }

  ghost predicate Kept(n: Net, n': Net, programs: seq<seq<Job>>) {
    Good(n, programs) ==> Good(n', programs)
  }

  lemma StepKept(n: Net, t: nat, programs: seq<seq<Job>>)
    ensures Kept(n, Next(n, t), programs)
  {
    if Good(n, programs) {
      StepKeeps(n, t);
      StepInOrder(n, t, programs);
    }
  }

  lemma NetsStep(n: Net, f: Schedule, at: nat -> Net, k: nat)
    requires at == NetsOf(n, f)
    ensures at(k + 1) == Next(at(k), f(k))
  {
  }

  lemma {:induction false} GoodAlong(at: nat -> Net, programs: seq<seq<Job>>, k: nat)
    requires Good(at(0), programs) && forall i: nat :: Kept(at(i), at(i + 1), programs)
    ensures Good(at(k), programs)
    decreases k
  {
    if k > 0 {
      GoodAlong(at, programs, k - 1);
      assert Kept(at(k - 1), at(k - 1 + 1), programs);
    }
  }

  lemma GoodAt(n: Net, f: Schedule, at: nat -> Net, programs: seq<seq<Job>>, k: nat)
    requires Good(n, programs) && at == NetsOf(n, f)
    ensures Good(at(k), programs)
  {
    forall i: nat
      ensures Kept(at(i), at(i + 1), programs)
    {
      NetsStep(n, f, at, i);
      StepKept(at(i), f(i), programs);
    }
    GoodAlong(at, programs, k);
  }

  lemma MomentDescends(n: Net, f: Schedule, at: nat -> Net, programs: seq<seq<Job>>, k: nat)
    requires Good(n, programs) && at == NetsOf(n, f) && Changes(at, k)
    ensures Lower(at(k + 1), at(k), Work(), NothingElse())
  {
    GoodAt(n, f, at, programs, k);
    NetsStep(n, f, at, k);
    StepDescends(at(k), f(k), at(k + 1));
  }

  /** In every endless schedule, fair or not, only finitely many steps change anything. */
  lemma ChangesEnd(programs: seq<seq<Job>>, accepts: nat, f: Schedule) returns (end: nat)
    requires ValidPrograms(programs)
    ensures SettledFrom(NetsOf(Begin(programs, accepts), f), end)
  {
    var n := Begin(programs, accepts);
    var at := NetsOf(n, f);
    BeginGood(programs, accepts);
    forall k: nat | Changes(at, k)
      ensures Lower(at(k + 1), at(k), Work(), NothingElse())
    {
      MomentDescends(n, f, at, programs, k);
    }
    end := DescentEnds(at, Work(), NothingElse(), 0);
  }

  lemma BeginGood(programs: seq<seq<Job>>, accepts: nat)
    requires ValidPrograms(programs)
    ensures Good(Begin(programs, accepts), programs)
  {
    BeginInv(programs, accepts);
    BeginInOrder(programs, accepts);
  }

  predicate Done(n: Net) {
    forall t :: 0 <= t < |n.threads| ==> n.threads[t] == Thread(Ready, [])
  }

  /** All are done, and each goroutine's texts and pongs were begun once and in its own order. */
  ghost predicate AllWritten(n: Net, programs: seq<seq<Job>>) {
    Done(n) && forall t: nat :: t < |programs| ==> DataLog(n.log, t) == DataJobs(programs[t])
  }

  lemma DoneIsWritten(n: Net, programs: seq<seq<Job>>)
    requires Good(n, programs) && Done(n)
    ensures AllWritten(n, programs)
  {
    forall t: nat | t < |programs|
      ensures DataLog(n.log, t) == DataJobs(programs[t])
    {
      assert n.threads[t] == Thread(Ready, []);
      assert DataLog(n.log, t) + (DataPending(Ready) + DataJobs([])) == DataJobs(programs[t]);
      assert DataLog(n.log, t) + ([] + []) == DataLog(n.log, t);
    }
  }

  lemma SettledIsDone(n: Net, f: Schedule, at: nat -> Net, programs: seq<seq<Job>>, end: nat)
    requires Good(n, programs) && at == NetsOf(n, f) && FairTurns(f, |programs|) && SettledFrom(at, end)
    ensures AllWritten(at(end), programs)
  {
    GoodAt(n, f, at, programs, end);
    if !Done(at(end)) {
      var t := SomeoneSteps(at(end));
      forall m: nat | m >= end && f(m) == t && at(m) == at(end)
        ensures Changes(at, m)
      {
        NetsStep(n, f, at, m);
      }
      SettledHasNoTurn(at, f, |programs|, end, t);
    }
    DoneIsWritten(at(end), programs);
  }

  /**
   * Every fair schedule of any writers, replies and closers brings all of them to their end, and then each
   * has begun its texts and pongs once and in order.
   */
  lemma FairEnds(programs: seq<seq<Job>>, accepts: nat, f: Schedule) returns (end: nat)
    requires ValidPrograms(programs) && FairTurns(f, |programs|)
    ensures forall m: nat :: m >= end ==> AllWritten(NetAt(Begin(programs, accepts), f, m), programs)
  {
    var n := Begin(programs, accepts);
    var at := NetsOf(n, f);
    BeginGood(programs, accepts);
    end := ChangesEnd(programs, accepts, f);
    SettledIsDone(n, f, at, programs, end);
    forall m: nat | m >= end
      ensures AllWritten(NetAt(n, f, m), programs)
    {
      assert at(m) == at(end);
    }
  }
}
