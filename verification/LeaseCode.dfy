/**
 * acquire and release as the code of one goroutine, over the shared map of leases; and the link to
 * the step system: a thread that is not interrupted does exactly what they do.
 */
module LeaseCode {
  import opened Basics
  import opened Paths
  import opened MountSession
  import opened Leases

  /** A lease without its session's number. */
  datatype Shared = Shared(made: seq<Path>, refs: nat)

  datatype World = World(active: map<string, Shared>, table: Table)

  /** What acquire does: one more holder of a mounted lease, or a new mount with one holder. */
  function Acquired(w: World, a: Attempt, key: string): World {
    if key in w.active then w.(active := w.active[key := Shared(w.active[key].made, w.active[key].refs + 1)])
    else if a.ok then World(w.active[key := Shared(a.made, 1)], w.table + a.made)
    else w
  }

  /** What release does: one holder less, and with the last one the session is closed. */
  function Released(w: World, key: string): World {
    if key !in w.active then w
    else if w.active[key].refs > 1 then
      w.(active := w.active[key := Shared(w.active[key].made, w.active[key].refs - 1)])
    else World(w.active - {key}, UnmountAll(w.table, w.active[key].made))
  }

  /** A mount that is taken and given back at once leaves the world as it was, whatever was mounted. */
  lemma AcquireReleaseRestores(w: World, a: Attempt, key: string)
    requires key in w.active ==> w.active[key].refs >= 1
    ensures key in w.active || a.ok ==> Released(Acquired(w, a, key), key) == w
  {
    CleanupRestores(w.table, a.made);
    if key in w.active {
      assert Released(Acquired(w, a, key), key).active == w.active;
    } else {
      assert (w.active[key := Shared(a.made, 1)]) - {key} == w.active;
    }
  }

  // ---------------------------------------------------------------- the code

  method OpenSession(host: Host, dir: Path, key: string, s: Setup, ghost a: Attempt) returns (session: FmSession?)
    requires Canonical(dir) && a == TrySetupSeen(host.seen, host.table, dir, key, s)
    modifies host`table
    ensures (session != null) == a.ok && host.table == old(host.table) + (if a.ok then a.made else [])
    ensures session != null ==> fresh(session) && session.Made() == a.made && !session.unlocks
  {
    session := MountOverlaySession(host, dir, key, s);
  }

  class LeaseEntry {
    ghost const key: string
    const session: FmSession
    const root: Path
    var refs: nat

    constructor (ghost key: string, session: FmSession)
      ensures this.key == key && this.session == session && root == session.root && refs == 1
    {
      this.key, this.session, root, refs := key, session, session.root, 1;
    }
  }

  /** The shared map; entries and owners name the objects that it may change. */
  class SftpLeases {
    var active: map<string, LeaseEntry>
    ghost var entries: set<LeaseEntry>
    ghost var owners: map<FmSession, string>

    constructor ()
      ensures Holds(map[]) && entries == {} && owners == map[]
    {
      active, entries, owners := map[], {}, map[];
    }

    /** The map holds these leases, each with an entry and a session of its own. */
    ghost predicate Holds(v: map<string, Shared>)
      reads this, entries, owners.Keys
    {
      && (forall k :: k in active <==> k in v)
      && forall k :: k in active ==>
        && active[k] in entries && active[k].key == k && active[k].refs == v[k].refs >= 1
        && active[k].session in owners && owners[active[k].session] == k
        && active[k].session.Made() == v[k].made && !active[k].session.unlocks
    }

    method AddHolder(key: string, ghost v: map<string, Shared>) returns (root: Path)
      requires Holds(v) && key in active
      modifies entries
      ensures Holds(v[key := Shared(v[key].made, v[key].refs + 1)]) && root == active[key].root
    {
      var e := active[key];
      e.refs := e.refs + 1;
      root := e.root;
    }

    method Insert(key: string, e: LeaseEntry, ghost v: map<string, Shared>)
      requires Holds(v) && key !in active && e.key == key && e.refs == 1
      requires e.session !in owners && !e.session.unlocks
      modifies this
      ensures entries == old(entries) + {e} && owners == old(owners)[e.session := key]
      ensures active == old(active)[key := e]
      ensures Holds(v[key := Shared(e.session.Made(), 1)])
    {
      active := active[key := e];
      entries, owners := entries + {e}, owners[e.session := key];
    }

    method Register(key: string, session: FmSession, ghost v: map<string, Shared>)
      requires Holds(v) && key !in active && session !in owners && !session.unlocks
      modifies this
      ensures fresh(entries - old(entries)) && owners == old(owners)[session := key]
      ensures Holds(v[key := Shared(session.Made(), 1)]) && active[key].root == session.root
    {
      var e := new LeaseEntry(key, session);
      Insert(key, e, v);
    }

    /** acquire: the root to serve, or nothing when the mount fails. */
    method Acquire(host: Host, dir: Path, key: string, s: Setup, ghost v: map<string, Shared>)
      returns (root: Option<Path>)
      requires Holds(v) && Canonical(dir)
      modifies this, entries, host`table
      ensures fresh(entries - old(entries)) && fresh(owners.Keys - old(owners.Keys))
      ensures var a := TrySetupSeen(host.seen, old(host.table), dir, key, s);
        var w := Acquired(World(v, old(host.table)), a, key);
        Holds(w.active) && host.table == w.table && root.Some? == (key in v || a.ok)
      ensures root.Some? ==> key in active && root == Some(active[key].root)
    {
      root := AcquireWith(host, dir, key, s, v, TrySetupSeen(host.seen, host.table, dir, key, s));
    }

    method AcquireWith(host: Host, dir: Path, key: string, s: Setup, ghost v: map<string, Shared>, ghost a: Attempt)
      returns (root: Option<Path>)
      requires Holds(v) && Canonical(dir) && a == TrySetupSeen(host.seen, host.table, dir, key, s)
      modifies this, entries, host`table
      ensures fresh(entries - old(entries)) && fresh(owners.Keys - old(owners.Keys))
      ensures var w := Acquired(World(v, old(host.table)), a, key);
        Holds(w.active) && host.table == w.table && root.Some? == (key in v || a.ok)
      ensures root.Some? ==> key in active && root == Some(active[key].root)
    {
      if key in active {
        var shared := AddHolder(key, v);
        root := Some(shared);
      } else {
        root := MountLease(host, dir, key, s, v, a);
      }
    }

    method MountLease(host: Host, dir: Path, key: string, s: Setup, ghost v: map<string, Shared>, ghost a: Attempt)
      returns (root: Option<Path>)
      requires Holds(v) && Canonical(dir) && key !in active && a == TrySetupSeen(host.seen, host.table, dir, key, s)
      modifies this, host`table
      ensures fresh(entries - old(entries)) && fresh(owners.Keys - old(owners.Keys))
      ensures Holds(if a.ok then v[key := Shared(a.made, 1)] else v)
      ensures host.table == old(host.table) + (if a.ok then a.made else [])
      ensures if a.ok then key in active && root == Some(active[key].root) else root == None
    {
      var session := OpenSession(host, dir, key, s, a);
      if session == null {
        return None;
      }
      Register(key, session, v);
      return Some(session.root);
    }

    method DropEntry(key: string, ghost v: map<string, Shared>) returns (session: FmSession)
      requires Holds(v) && key in active
      modifies this`active
      ensures Holds(v - {key}) && session.Made() == v[key].made && !session.unlocks
      ensures session in owners && owners[session] == key && key !in active
    {
      session := active[key].session;
      active := active - {key};
    }

    method RemoveHolder(key: string, ghost v: map<string, Shared>)
      requires Holds(v) && key in active && v[key].refs > 1
      modifies entries
      ensures Holds(v[key := Shared(v[key].made, v[key].refs - 1)])
    {
      var e := active[key];
      e.refs := e.refs - 1;
    }

    method CloseSession(host: Host, key: string, session: FmSession, ghost v: map<string, Shared>)
      requires Holds(v) && session in owners && owners[session] == key && key !in active && !session.unlocks
      modifies session, host`table
      ensures Holds(v) && host.table == UnmountAll(old(host.table), old(session.Made()))
    {
      session.CleanupMounts(host);
    }

    /** release: the last holder takes the lease away and unmounts. */
    method Release(host: Host, key: string, ghost v: map<string, Shared>)
      requires Holds(v)
      modifies this`active, entries, owners.Keys, host`table
      ensures var w := Released(World(v, old(host.table)), key); Holds(w.active) && host.table == w.table
    {
      if key !in active {
        return;
      }
      if active[key].refs > 1 {
        RemoveHolder(key, v);
        return;
      }
      var session := DropEntry(key, v);
      CloseSession(host, key, session, v - {key});
    }
  }

  // ---------------------------------------------------------------- the step system, uninterrupted

  function WorldOf(s: State): World {
    World(map k | k in s.active :: Shared(s.active[k].made, s.active[k].refs), PathsOf(s.table))
  }

  function Iterate(step: State -> State, s: State, n: nat): State
    decreases n
  {
    if n == 0 then s else Iterate(step, step(s), n - 1)
  }

  lemma {:induction false} IterateMore(step: State -> State, s: State, m: nat, n: nat)
    ensures Iterate(step, Iterate(step, s, m), n) == Iterate(step, s, m + n)
    decreases m
  {
    if m > 0 {
      IterateMore(step, step(s), m - 1, n);
    }
  }

  function Stepper(t: nat, a: Attempt): State -> State {
    s => StepWith(s, t, a)
  }

  /** n steps of thread t alone, when a setup comes to a. */
  function Alone(s: State, t: nat, a: Attempt, n: nat): State {
    Iterate(Stepper(t, a), s, n)
  }

  lemma AloneMore(s: State, t: nat, a: Attempt, m: nat, n: nat)
    ensures Alone(Alone(s, t, a, m), t, a, n) == Alone(s, t, a, m + n)
  {
    IterateMore(Stepper(t, a), s, m, n);
  }

  lemma AloneOne(s: State, t: nat, a: Attempt)
    ensures Alone(s, t, a, 1) == StepWith(s, t, a)
  {
    assert Iterate(Stepper(t, a), s, 1) == Iterate(Stepper(t, a), StepWith(s, t, a), 0);
  }

  /** m steps and one more. */
  lemma AloneThen(s: State, t: nat, a: Attempt, m: nat, s': State)
    requires Alone(s, t, a, m) == s'
    ensures Alone(s, t, a, m + 1) == StepWith(s', t, a)
  {
    AloneMore(s, t, a, m, 1);
    AloneOne(s', t, a);
  }

  predicate Unlocked(s: State) {
    s.outer == None && s.inner == None
  }

  /** The first look-up: a hit, or the way to the locks. */
  lemma LookAlone(s: State, t: nat, a: Attempt)
    requires t < |s.threads| && s.threads[t].pc == Start && s.threads[t].role == Leaser && Unlocked(s)
    ensures var key := s.threads[t].key; var hit := key in s.active;
      Alone(s, t, a, 3) == GoTo(if hit then Share(s, key) else s, t, if hit then Holding else WantOuter)
  {
    var key := s.threads[t].key;
    var s1 := GoTo(s.(inner := Some(t)), t, FastLocked);
    var s2 := if key in s.active then GoTo(Share(s1, key), t, FastLooked(true)) else GoTo(s1, t, FastLooked(false));
    AloneOne(s, t, a);
    AloneThen(s, t, a, 1, s1);
    AloneThen(s, t, a, 2, s2);
    assert StepWith(s2, t, a).threads == GoTo(s, t, StepWith(s2, t, a).threads[t].pc).threads;
  }

  /** Thread t takes both locks. */
  function Both(s: State, t: nat, pc: Pc): State
    requires t < |s.threads|
  {
    GoTo(s.(outer := Some(t), inner := Some(t)), t, pc)
  }

  lemma LockAlone(s: State, t: nat, a: Attempt)
    requires t < |s.threads| && (s.threads[t].pc.WantOuter? || s.threads[t].pc.Holding?) && Unlocked(s)
    ensures Alone(s, t, a, 2) == Both(s, t, if s.threads[t].pc.Holding? then RelBoth else BothLocked)
  {
    var s1 := GoTo(s.(outer := Some(t)), t, if s.threads[t].pc.Holding? then RelOuter else OuterLocked);
    AloneOne(s, t, a);
    AloneThen(s, t, a, 1, s1);
    assert StepWith(s1, t, a).threads == Both(s, t, StepWith(s1, t, a).threads[t].pc).threads;
  }

  lemma UnlockAlone(s: State, t: nat, a: Attempt)
    requires t < |s.threads| && s.threads[t].pc.SlowLooked? && s.outer == Some(t) && s.inner == Some(t)
    ensures Alone(s, t, a, 2)
         == GoTo(s.(outer := None, inner := None), t, if s.threads[t].pc.ok then Holding else Finished)
  {
    var s1 := GoTo(s.(inner := None), t, SlowUnlock(s.threads[t].pc.ok));
    AloneOne(s, t, a);
    AloneThen(s, t, a, 1, s1);
    assert StepWith(s1, t, a).threads == GoTo(s, t, StepWith(s1, t, a).threads[t].pc).threads;
  }

  lemma MountWorld(s: State, t: nat, a: Attempt)
    requires t < |s.threads| && s.threads[t].key !in s.active
    ensures var s' := LookOrMount(s, t, a);
      && t < |s'.threads| && s'.outer == s.outer && s'.inner == s.inner && s'.threads[t].pc == SlowLooked(a.ok)
      && WorldOf(s') == Acquired(WorldOf(s), a, s.threads[t].key)
  {
    if a.ok {
      var key := s.threads[t].key;
      assert PathsOf(AddMounts(s, a.made, key).table) == PathsOf(s.table) + a.made;
    }
  }

  /** Under both locks: the mount, or nothing. */
  lemma MountAlone(s: State, t: nat, a: Attempt)
    requires t < |s.threads| && s.threads[t].pc == WantOuter && Unlocked(s) && s.threads[t].key !in s.active
    ensures var s', key := Alone(s, t, a, 5), s.threads[t].key;
      && Unlocked(s') && t < |s'.threads| && s'.threads[t].pc == (if a.ok then Holding else Finished)
      && WorldOf(s') == Acquired(WorldOf(s), a, key)
  {
    var s2 := Both(s, t, BothLocked);
    var s3 := LookOrMount(s2, t, a);
    LockAlone(s, t, a);
    AloneThen(s, t, a, 2, s2);
    MountWorld(s2, t, a);
    UnlockAlone(s3, t, a);
    AloneMore(s, t, a, 3, 2);
    assert WorldOf(s2) == WorldOf(s);
    assert WorldOf(Alone(s3, t, a, 2)) == WorldOf(s3);
  }

  /** A thread that acquires without interruption does what acquire does. */
  lemma AcquireAlone(s: State, t: nat, a: Attempt) returns (n: nat)
    requires t < |s.threads| && s.threads[t].pc == Start && s.threads[t].role == Leaser && Unlocked(s)
    ensures var s', key := Alone(s, t, a, n), s.threads[t].key;
      && Unlocked(s') && t < |s'.threads|
      && s'.threads[t].pc == (if key in s.active || a.ok then Holding else Finished)
      && WorldOf(s') == Acquired(WorldOf(s), a, key)
  {
    LookAlone(s, t, a);
    n := 3;
    if s.threads[t].key !in s.active {
      MountAlone(Alone(s, t, a, 3), t, a);
      AloneMore(s, t, a, 3, 5);
      n := 8;
    }
  }

  lemma RemoveIsUmount(s: State, p: Path)
    ensures PathsOf(RemoveMount(s, p).table) == UmountIgnored(PathsOf(s.table), p)
  {
    var ps := PathsOf(s.table);
    var i := NewestOn(ps, p);
    if i >= 0 && !Busy(ps, i) {
      assert PathsOf(s.table[..i] + s.table[i + 1..]) == ps[..i] + ps[i + 1..];
    }
  }

  predicate Unmounting(s: State, t: nat) {
    t < |s.threads| && s.threads[t].pc.Closing? && s.threads[t].pc.left != []
  }

  predicate Unmounted(s: State, t: nat) {
    t < |s.threads| && s.threads[t].pc.Closing? && s.threads[t].pc.left == [] && s.inner == None
  }

  /** The next state of a closing thread: its newest mount is gone, and nothing else happened. */
  predicate OneLess(s: State, s': State, t: nat)
    requires Unmounting(s, t)
  {
    var left := s.threads[t].pc.left;
    && t < |s'.threads| && s'.inner == s.inner
    && s'.threads[t].pc.Closing? && s'.threads[t].pc.left == Front(left)
    && WorldOf(s') == World(WorldOf(s).active, UmountIgnored(PathsOf(s.table), Last(left)))
  }

  /** Thread t is through, both mutexes are free, and the world is w. */
  predicate Closed(s: State, t: nat, w: World) {
    Unlocked(s) && t < |s.threads| && s.threads[t].pc == Finished && WorldOf(s) == w
  }

  lemma UmountStep(s: State, t: nat, a: Attempt)
    requires Unmounting(s, t)
    ensures OneLess(s, StepWith(s, t, a), t)
  {
    RemoveIsUmount(s, Last(s.threads[t].pc.left));
  }

  lemma ClosedStep(s: State, t: nat, a: Attempt)
    requires Unmounted(s, t)
    ensures Closed(StepWith(s, t, a), t, WorldOf(s))
  {
  }

  /** What steps that unmount the newest mount, and close when none is left, come to. */
  lemma {:induction false} CloseIterate(step: State -> State, s: State, t: nat, left: seq<Path>)
    requires forall s :: Unmounting(s, t) ==> OneLess(s, step(s), t)
    requires forall s :: Unmounted(s, t) ==> Closed(step(s), t, WorldOf(s))
    requires t < |s.threads| && s.threads[t].pc.Closing? && s.threads[t].pc.left == left && s.inner == None
    ensures Closed(Iterate(step, s, |left| + 1), t, World(WorldOf(s).active, UnmountAll(PathsOf(s.table), left)))
    decreases |left|
  {
    if left == [] {
      assert Unmounted(s, t);
      assert Iterate(step, s, 1) == Iterate(step, step(s), 0);
    } else {
      assert Unmounting(s, t);
      CloseIterate(step, step(s), t, Front(left));
    }
  }

  /** Taking a session down, newest mount first. */
  lemma CloseAlone(s: State, t: nat, a: Attempt)
    requires t < |s.threads| && s.threads[t].pc.Closing? && s.inner == None
    ensures var left := s.threads[t].pc.left;
      Closed(Alone(s, t, a, |left| + 1), t, World(WorldOf(s).active, UnmountAll(PathsOf(s.table), left)))
  {
    var step := Stepper(t, a);
    forall s | Unmounting(s, t)
      ensures OneLess(s, step(s), t)
    {
      UmountStep(s, t, a);
    }
    forall s | Unmounted(s, t)
      ensures Closed(step(s), t, WorldOf(s))
    {
      ClosedStep(s, t, a);
    }
    CloseIterate(step, s, t, s.threads[t].pc.left);
  }

  /** The first half of a release: one holder less, and what is left to unmount. */
  lemma DropAlone(s: State, t: nat, a: Attempt)
    requires t < |s.threads| && s.threads[t].pc == Holding && Unlocked(s)
    ensures var s' := Alone(s, t, a, 4);
      && t < |s'.threads| && s'.threads[t].pc.Closing? && s'.outer == Some(t) && s'.inner == None
      && World(WorldOf(s').active, UnmountAll(PathsOf(s'.table), s'.threads[t].pc.left))
         == Released(WorldOf(s), s.threads[t].key)
  {
    var s2 := Both(s, t, RelBoth);
    var s3 := DropRef(s2, t);
    LockAlone(s, t, a);
    AloneThen(s, t, a, 2, s2);
    DropWorld(s2, t);
    AloneThen(s, t, a, 3, s3);
    assert WorldOf(s2) == WorldOf(s) && WorldOf(StepWith(s3, t, a)) == WorldOf(s3);
  }

  /** A thread that releases without interruption does what release does. */
  lemma ReleaseAlone(s: State, t: nat, a: Attempt) returns (n: nat)
    requires t < |s.threads| && s.threads[t].pc == Holding && Unlocked(s)
    ensures var s' := Alone(s, t, a, n);
      && Unlocked(s') && t < |s'.threads| && s'.threads[t].pc == Finished
      && WorldOf(s') == Released(WorldOf(s), s.threads[t].key)
  {
    DropAlone(s, t, a);
    var s4 := Alone(s, t, a, 4);
    var m := |s4.threads[t].pc.left| + 1;
    CloseAlone(s4, t, a);
    AloneMore(s, t, a, 4, m);
    n := 4 + m;
  }

  lemma DropWorld(s: State, t: nat)
    requires t < |s.threads|
    ensures var s', key := DropRef(s, t), s.threads[t].key;
      && t < |s'.threads| && s'.outer == s.outer && s'.threads[t].pc.RelDone?
      && World(WorldOf(s').active, UnmountAll(PathsOf(s'.table), s'.threads[t].pc.left)) == Released(WorldOf(s), key)
  {
  }
}
