/**
 * Shared mount leases: any number of SFTP leases and file-manager requests, interleaved step by
 * step over the two mutexes fmMountMu (outer) and sftpLeases.mu (inner).
 */
module Leases {
  import opened Basics
  import opened Paths
  import opened MountSession

  /** A mount, with the session that made it (0: it was there before) and that session's container. */
  datatype Entry = Entry(path: Path, owner: nat, key: string)

  function PathsOf(table: seq<Entry>): (ps: Table)
    ensures |ps| == |table| && forall i :: 0 <= i < |table| ==> ps[i] == table[i].path
  {
    seq(|table|, i requires 0 <= i < |table| => table[i].path)
  }

  function Tag(made: seq<Path>, owner: nat, key: string): (es: seq<Entry>)
    ensures |es| == |made| && forall i :: 0 <= i < |made| ==> es[i] == Entry(made[i], owner, key)
  {
    seq(|made|, i requires 0 <= i < |made| => Entry(made[i], owner, key))
  }

  /** sftpLeaseEntry: what its session mounted, the session's number, and refs. */
  datatype Lease = Lease(made: seq<Path>, session: nat, refs: nat)

  /** A thread takes and releases one lease, or serves one file-manager request. */
  datatype Role = Leaser | FileManager

  datatype Pc =
    | Start
    | FastLocked               // acquire: holds inner, about to look
    | FastLooked(hit: bool)    // about to unlock inner
    | WantOuter                // about to lock outer
    | OuterLocked              // holds outer, about to lock inner
    | BothLocked               // about to look again, and to mount
    | SlowLooked(ok: bool)     // about to unlock inner
    | SlowUnlock(ok: bool)     // about to unlock outer
    | Holding                  // the root is handed out; next comes release
    | RelOuter                 // release: holds outer, about to lock inner
    | RelBoth                  // about to drop its reference
    | RelDone(left: seq<Path>, session: nat)  // about to unlock inner, then to close a session
    | FileLocked               // beginFMSession: holds outer, about to mount
    | Serving(left: seq<Path>, session: nat)  // the request runs on its session
    | Closing(left: seq<Path>, session: nat)  // unmounts what is left, then unlocks outer
    | Finished

  datatype Thread = Thread(role: Role, key: string, pc: Pc)

  datatype State = State(
    dir: Path, threads: seq<Thread>, outer: Option<nat>, inner: Option<nat>,
    active: map<string, Lease>, table: seq<Entry>, sessions: nat,
    mounts: multiset<(nat, Path)>, umounts: multiset<(nat, Path)>)

  function GoTo(s: State, t: nat, pc: Pc): State
    requires t < |s.threads|
  {
    s.(threads := s.threads[t := s.threads[t].(pc := pc)])
  }

  /** A successful setup adds its mounts to the table, under a new session number. */
  function AddMounts(s: State, made: seq<Path>, key: string): State {
    s.(table := s.table + Tag(made, s.sessions + 1, key),
       sessions := s.sessions + 1,
       mounts := s.mounts + Pairs(Tag(made, s.sessions + 1, key)))
  }

  /** The mounts made by sessions, with their sessions. */
  function Pairs(table: seq<Entry>): multiset<(nat, Path)>
    decreases |table|
  {
    if table == [] then multiset{}
    else
      var e := table[|table| - 1];
      Pairs(table[..|table| - 1]) + (if e.owner == 0 then multiset{} else multiset{(e.owner, e.path)})
  }

  /** umount of a path; its failure is ignored. */
  function RemoveMount(s: State, p: Path): State {
    var ps := PathsOf(s.table);
    var i := NewestOn(ps, p);
    if i < 0 || Busy(ps, i) then s
    else
      var e := s.table[i];
      s.(table := s.table[..i] + s.table[i + 1..], umounts := s.umounts + multiset{(e.owner, e.path)})
  }

  /** The look-up of acquire. */
  function Share(s: State, key: string): State
    requires key in s.active
  {
    s.(active := s.active[key := s.active[key].(refs := s.active[key].refs + 1)])
  }

  /** The second look-up of acquire, and the mount if there is no lease yet. */
  function LookOrMount(s: State, t: nat, a: Attempt): State
    requires t < |s.threads|
  {
    var key := s.threads[t].key;
    if key in s.active then GoTo(Share(s, key), t, SlowLooked(true))
    else if !a.ok then GoTo(s, t, SlowLooked(false))
    else
      var s' := AddMounts(s, a.made, key);
      GoTo(s'.(active := s'.active[key := Lease(a.made, s'.sessions, 1)]), t, SlowLooked(true))
  }

  /** The middle of release. */
  function DropRef(s: State, t: nat): State
    requires t < |s.threads|
  {
    var key := s.threads[t].key;
    if key !in s.active then GoTo(s, t, RelDone([], 0))
    else
      var l := s.active[key];
      if l.refs > 1 then GoTo(s.(active := s.active[key := l.(refs := l.refs - 1)]), t, RelDone([], 0))
      else GoTo(s.(active := s.active - {key}), t, RelDone(l.made, l.session))
  }

  function BeginFile(s: State, t: nat, a: Attempt): State
    requires t < |s.threads|
  {
    if !a.ok then GoTo(s, t, Closing([], 0))
    else GoTo(AddMounts(s, a.made, s.threads[t].key), t, Serving(a.made, s.sessions + 1))
  }

  function LockOuter(s: State, t: nat, pc: Pc): State
    requires t < |s.threads|
  {
    if s.outer.None? then GoTo(s.(outer := Some(t)), t, pc) else s
  }

  function LockInner(s: State, t: nat, pc: Pc): State
    requires t < |s.threads|
  {
    if s.inner.None? then GoTo(s.(inner := Some(t)), t, pc) else s
  }

  /**
   * One step of thread t, when the setup it may run comes to a; a thread whose lock is taken stays
   * where it is. A setup that fails has already restored the table.
   */
  function StepWith(s: State, t: nat, a: Attempt): State {
    if t >= |s.threads| then s
    else
      var th := s.threads[t];
      match th.pc
      case Start => if th.role == Leaser then LockInner(s, t, FastLocked) else LockOuter(s, t, FileLocked)
      case FastLocked =>
        if th.key in s.active then GoTo(Share(s, th.key), t, FastLooked(true)) else GoTo(s, t, FastLooked(false))
      case FastLooked(hit) => GoTo(s.(inner := None), t, if hit then Holding else WantOuter)
      case WantOuter => LockOuter(s, t, OuterLocked)
      case OuterLocked => LockInner(s, t, BothLocked)
      case BothLocked => LookOrMount(s, t, a)
      case SlowLooked(ok) => GoTo(s.(inner := None), t, SlowUnlock(ok))
      case SlowUnlock(ok) => GoTo(s.(outer := None), t, if ok then Holding else Finished)
      case Holding => LockOuter(s, t, RelOuter)
      case RelOuter => LockInner(s, t, RelBoth)
      case RelBoth => DropRef(s, t)
      case RelDone(left, session) => GoTo(s.(inner := None), t, Closing(left, session))
      case FileLocked => BeginFile(s, t, a)
      case Serving(left, session) => GoTo(s, t, Closing(left, session))
      case Closing(left, session) =>
        if left == [] then GoTo(s.(outer := None), t, Finished)
        else GoTo(RemoveMount(s, Last(left)), t, Closing(Front(left), session))
      case Finished => s
  }

  /** One step of thread t; setup is what a mount would meet now. */
  function Step(s: State, t: nat, setup: Setup): State {
    if t >= |s.threads| then s
    else StepWith(s, t, TrySetup(PathsOf(s.table), s.dir, s.threads[t].key, setup))
  }

  /** A schedule: which thread steps, and what its setup would meet. */
  function Run(s: State, schedule: seq<(nat, Setup)>): State
    decreases |schedule|
  {
    if schedule == [] then s else Run(Step(s, schedule[0].0, schedule[0].1), schedule[1..])
  }

  /** Any number of threads over any mounts already there. */
  function Begin(dir: Path, programs: seq<(Role, string)>, env: Table): State {
    State(dir,
          seq(|programs|, i requires 0 <= i < |programs| => Thread(programs[i].0, programs[i].1, Start)),
          None, None, map[], Tag(env, 0, ""), 0, multiset{}, multiset{})
  }
}
