/** The mount table under leases: whose each mount is, and that every umount hits its own. */
module LeaseMounts {
  import opened Basics
  import opened Paths
  import opened MountSession
  import opened Leases

  /** What the session with this number has in the table, oldest first. */
  function Owned(table: seq<Entry>, session: nat): seq<Path>
    decreases |table|
  {
    if table == [] then []
    else
      var e := table[|table| - 1];
      Owned(table[..|table| - 1], session) + (if e.owner == session then [e.path] else [])
  }

  lemma {:induction false} OwnedConcat(a: seq<Entry>, b: seq<Entry>, session: nat)
    ensures Owned(a + b, session) == Owned(a, session) + Owned(b, session)
    decreases |b|
  {
    if b == [] {
      assert a + b == a;
    } else {
      var b' := b[..|b| - 1];
      assert (a + b)[..|a + b| - 1] == a + b';
      OwnedConcat(a, b', session);
    }
  }

  lemma {:induction false} OwnedTag(made: seq<Path>, owner: nat, key: string, session: nat)
    ensures Owned(Tag(made, owner, key), session) == if owner == session then made else []
    decreases |made|
  {
    if made != [] {
      OwnedTag(Front(made), owner, key, session);
      assert Tag(made, owner, key)[..|made| - 1] == Tag(Front(made), owner, key);
      assert made == Front(made) + [Last(made)];
    }
  }

  lemma {:induction false} OwnedAbsent(table: seq<Entry>, session: nat)
    requires forall i :: 0 <= i < |table| ==> table[i].owner != session
    ensures Owned(table, session) == []
    decreases |table|
  {
    if table != [] {
      OwnedAbsent(table[..|table| - 1], session);
    }
  }

  lemma {:induction false} OwnedMember(table: seq<Entry>, i: nat)
    requires i < |table|
    ensures table[i].path in Owned(table, table[i].owner)
    decreases |table|
  {
    if i < |table| - 1 {
      OwnedMember(table[..|table| - 1], i);
    }
  }

  /** The newest mount of a session is the last one it has in the table. */
  lemma {:induction false} NewestOwned(table: seq<Entry>, session: nat) returns (i: nat)
    requires Owned(table, session) != []
    ensures i < |table| && table[i].owner == session && table[i].path == Last(Owned(table, session))
    ensures forall j :: i < j < |table| ==> table[j].owner != session
    decreases |table|
  {
    if table[|table| - 1].owner == session {
      i := |table| - 1;
    } else {
      i := NewestOwned(table[..|table| - 1], session);
    }
  }

  function Without(table: seq<Entry>, i: nat): seq<Entry>
    requires i < |table|
  {
    table[..i] + table[i + 1..]
  }

  /** Taking a session's newest mount out shortens its own list by one and no other. */
  lemma WithoutNewest(table: seq<Entry>, i: nat, session: nat)
    requires i < |table| && forall j :: i < j < |table| ==> table[j].owner != table[i].owner
    ensures Owned(table, table[i].owner) != []
    ensures Owned(Without(table, i), session)
         == if session == table[i].owner then Front(Owned(table, session)) else Owned(table, session)
  {
    var a, b := table[..i], table[i + 1..];
    var one := if table[i].owner == session then [table[i].path] else [];
    OwnedSplit(table, i, session);
    OwnedConcat(a, b, session);
    OwnedMember(table, i);
    if session == table[i].owner {
      OwnedAbsent(b, session);
      assert Owned(a, session) + one + [] == Owned(a, session) + one;
      assert Owned(a, session) + [] == Owned(a, session);
    } else {
      assert Owned(a, session) + one == Owned(a, session);
    }
  }

  lemma OwnedSplit(table: seq<Entry>, i: nat, session: nat)
    requires i < |table|
    ensures Owned(table, session)
         == Owned(table[..i], session) + (if table[i].owner == session then [table[i].path] else [])
            + Owned(table[i + 1..], session)
  {
    assert table == table[..i + 1] + table[i + 1..];
    OwnedConcat(table[..i + 1], table[i + 1..], session);
    assert table[..i + 1][..i] == table[..i] && table[..i + 1][i] == table[i];
  }

  lemma {:induction false} PairsConcat(a: seq<Entry>, b: seq<Entry>)
    ensures Pairs(a + b) == Pairs(a) + Pairs(b)
    decreases |b|
  {
    if b == [] {
      assert a + b == a;
    } else {
      assert (a + b)[..|a + b| - 1] == a + b[..|b| - 1];
      PairsConcat(a, b[..|b| - 1]);
    }
  }

  lemma PairsWithout(table: seq<Entry>, i: nat)
    requires i < |table| && table[i].owner != 0
    ensures Pairs(table) == Pairs(Without(table, i)) + multiset{(table[i].owner, table[i].path)}
  {
    var a, e, b := table[..i], [table[i]], table[i + 1..];
    assert table == a + (e + b);
    PairsConcat(a, e + b);
    PairsConcat(e, b);
    PairsConcat(a, b);
    assert e[..0] == [];
  }

  lemma {:induction false} PairsTag(made: seq<Path>, owner: nat, key: string)
    requires owner != 0 && Distinct(made)
    ensures forall x: (nat, Path) :: Pairs(Tag(made, owner, key))[x] == if x.0 == owner && x.1 in made then 1 else 0
    decreases |made|
  {
    if made != [] {
      PairsTag(Front(made), owner, key);
      assert Tag(made, owner, key)[..|made| - 1] == Tag(Front(made), owner, key);
      assert made == Front(made) + [Last(made)];
    }
  }

  lemma {:induction false} PairsEnv(env: Table)
    ensures Pairs(Tag(env, 0, "")) == multiset{}
    decreases |env|
  {
    if env != [] {
      PairsEnv(Front(env));
      assert Tag(env, 0, "")[..|env| - 1] == Tag(Front(env), 0, "");
    }
  }

  // ---------------------------------------------------------------- the table invariant

  /** The session the holder of outer is serving or taking down. */
  datatype Work = Work(key: string, role: Role, left: seq<Path>, session: nat, serving: bool)

  /** Mounts from before stay first, and no session ever mounts a point that is mounted. */
  ghost predicate Tidy(table: seq<Entry>) {
    && (forall i, j :: 0 <= i < j < |table| && table[j].owner == 0 ==> table[i].owner == 0)
    && (forall i, j :: 0 <= i < j < |table| && table[i].path == table[j].path
                       ==> table[i].owner == 0 && table[j].owner == 0)
  }

  /** Every mount of a session lies below its container, and its session is alive. */
  ghost predicate Accounted(s: State, w: Option<Work>) {
    forall i :: 0 <= i < |s.table| && s.table[i].owner != 0 ==>
      var e := s.table[i];
      && e.owner <= s.sessions && s.dir + [e.key] <= e.path
      && ((e.key in s.active && s.active[e.key].session == e.owner)
          || (w.Some? && w.value.session == e.owner && w.value.key == e.key))
  }

  ghost predicate LeaseOk(s: State, env: Table, k: string)
    requires k in s.active
  {
    var l := s.active[k];
    && 1 <= l.session <= s.sessions
    && Owned(s.table, l.session) == l.made
    && (Merged(s.dir + [k]) in l.made || Merged(s.dir + [k]) in env)
  }

  ghost predicate LeasesOk(s: State, env: Table) {
    forall k :: k in s.active ==> LeaseOk(s, env, k)
  }

  ghost predicate SessionsDiffer(s: State, w: Option<Work>) {
    && (forall k, k' :: k in s.active && k' in s.active && k != k' ==> s.active[k].session != s.active[k'].session)
    && (w.Some? && w.value.session != 0 ==> forall k :: k in s.active ==> s.active[k].session != w.value.session)
  }

  ghost predicate WorkOk(s: State, w: Work) {
    && w.session <= s.sessions
    && (w.session == 0 ==> w.left == [])
    && (w.session != 0 ==> Owned(s.table, w.session) == w.left)
    && (w.session != 0 && w.role == Leaser ==> w.key !in s.active)
    && (w.session != 0 && w.role == FileManager ==>
          forall i, j :: 0 <= i < j < |s.table| && s.table[i].owner == w.session ==> s.table[j].owner == w.session)
    && (w.serving ==> Merged(s.dir + [w.key]) in PathsOf(s.table))
  }

  /** Every mount a session ever made was made once, and is in the table or was unmounted once. */
  ghost predicate Balanced(s: State) {
    && s.mounts == s.umounts + Pairs(s.table)
    && (forall x: (nat, Path) :: s.mounts[x] <= 1 && (x in s.mounts ==> x.0 <= s.sessions))
  }

  ghost predicate Mounts(s: State, env: Table, w: Option<Work>) {
    && Tidy(s.table) && Owned(s.table, 0) == env && Accounted(s, w) && SessionsDiffer(s, w)
    && LeasesOk(s, env)
    && (w.Some? ==> WorkOk(s, w.value))
    && Balanced(s)
  }

  /** Only refs and threads changed. */
  ghost predicate SameMounts(s: State, s': State) {
    && s'.dir == s.dir && s'.table == s.table && s'.sessions == s.sessions
    && s'.mounts == s.mounts && s'.umounts == s.umounts
    && s'.active.Keys == s.active.Keys
    && (forall k :: k in s.active
                    ==> s'.active[k].made == s.active[k].made && s'.active[k].session == s.active[k].session)
  }

  lemma FrameKeeps(s: State, s': State, env: Table, w: Option<Work>)
    requires Mounts(s, env, w) && SameMounts(s, s')
    ensures Mounts(s', env, w)
  {
    forall k | k in s'.active
      ensures LeaseOk(s', env, k)
    {
      assert LeaseOk(s, env, k);
    }
  }

  /** Two containers have no path in common. */
  lemma OneContainer(dir: Path, k: string, k': string, p: Path)
    requires dir + [k] <= p && dir + [k'] <= p
    ensures k == k'
  {
    assert p[|dir|] == (dir + [k])[|dir|] == (dir + [k'])[|dir|];
  }

  /** Only session g has new mounts. */
  ghost predicate Grown(table: seq<Entry>, table': seq<Entry>, g: nat, made: seq<Path>) {
    forall h :: Owned(table', h) == if h == g then made else Owned(table, h)
  }

  lemma GrownByTag(table: seq<Entry>, made: seq<Path>, g: nat, key: string)
    requires forall i :: 0 <= i < |table| ==> table[i].owner != g
    ensures Grown(table, table + Tag(made, g, key), g, made)
  {
    OwnedAbsent(table, g);
    forall h
      ensures Owned(table + Tag(made, g, key), h) == if h == g then made else Owned(table, h)
    {
      OwnedConcat(table, Tag(made, g, key), h);
      OwnedTag(made, g, key, h);
    }
  }

  /** Adding a session's new mounts at the end. */
  lemma AddTable(s: State, env: Table, made: seq<Path>, key: string)
    requires Mounts(s, env, None) && FreshBelow(made, PathsOf(s.table), s.dir + [key])
    ensures var s' := AddMounts(s, made, key);
      Tidy(s'.table) && Balanced(s') && Grown(s.table, s'.table, s'.sessions, made) && Owned(s'.table, 0) == env
  {
    var g := s.sessions + 1;
    GrownByTag(s.table, made, g, key);
    ElseIsKept(s.table, s.table + Tag(made, g, key), g, made);
    TidyAppend(s.table, made, g, key);
    BalanceAppend(s, made, key);
  }

  lemma ElseIsKept(table: seq<Entry>, table': seq<Entry>, g: nat, made: seq<Path>)
    requires Grown(table, table', g, made) && g != 0
    ensures Owned(table', 0) == Owned(table, 0)
  {
  }

  lemma TidyAppend(table: seq<Entry>, made: seq<Path>, g: nat, key: string)
    requires Tidy(table) && g != 0 && Distinct(made)
    requires forall i :: 0 <= i < |made| ==> made[i] !in PathsOf(table)
    ensures Tidy(table + Tag(made, g, key))
  {
    var t' := table + Tag(made, g, key);
    forall i, j | 0 <= i < j < |t'|
      ensures t'[i].path == t'[j].path ==> t'[i].owner == 0 && t'[j].owner == 0
    {
      if i < |table| <= j {
        assert PathsOf(table)[i] == table[i].path;
        assert t'[i].path != made[j - |table|];
      }
    }
  }

  lemma BalanceAppend(s: State, made: seq<Path>, key: string)
    requires Balanced(s) && Distinct(made)
    ensures Balanced(AddMounts(s, made, key))
  {
    var g := s.sessions + 1;
    PairsConcat(s.table, Tag(made, g, key));
    PairsTag(made, g, key);
  }

  /** What is mounted of a container before a lease starts was there from the beginning. */
  lemma PointFromEnv(s: State, env: Table, key: string, p: Path)
    requires Mounts(s, env, None) && key !in s.active && s.dir + [key] <= p && p in PathsOf(s.table)
    ensures p in env
  {
    var i :| 0 <= i < |s.table| && PathsOf(s.table)[i] == p;
    var e := s.table[i];
    if e.owner != 0 {
      OneContainer(s.dir, key, e.key, p);
    }
    OwnedMember(s.table, i);
  }

  /** The mounts of a new session are accounted for by whoever is to close it. */
  lemma AddAccounted(s: State, s': State, made: seq<Path>, key: string, w: Option<Work>)
    requires Accounted(s, None) && s'.table == s.table + Tag(made, s.sessions + 1, key)
    requires s'.dir == s.dir && s'.sessions == s.sessions + 1
    requires forall i :: 0 <= i < |made| ==> s.dir + [key] <= made[i]
    requires forall k :: k in s.active ==> k in s'.active && s'.active[k] == s.active[k]
    requires (key in s'.active && s'.active[key].session == s'.sessions)
          || (w.Some? && w.value.session == s'.sessions && w.value.key == key)
    ensures Accounted(s', w)
  {
    forall i | 0 <= i < |s'.table| && s'.table[i].owner != 0
      ensures var e := s'.table[i];
        && e.owner <= s'.sessions && s'.dir + [e.key] <= e.path
        && ((e.key in s'.active && s'.active[e.key].session == e.owner)
            || (w.Some? && w.value.session == e.owner && w.value.key == e.key))
    {
      if i < |s.table| {
        assert s'.table[i] == s.table[i];
      } else {
        assert s'.table[i] == Entry(made[i - |s.table|], s.sessions + 1, key);
      }
    }
  }

  lemma OldLease(s: State, s': State, env: Table, k: string)
    requires k in s.active && LeaseOk(s, env, k) && k in s'.active && s'.active[k] == s.active[k]
    requires s'.dir == s.dir && s.sessions <= s'.sessions
    requires Owned(s'.table, s.active[k].session) == Owned(s.table, s.active[k].session)
    ensures LeaseOk(s', env, k)
  {
  }

  /** Other leases do not notice a new session. */
  lemma OldLeases(s: State, s': State, env: Table, made: seq<Path>)
    requires LeasesOk(s, env)
    requires forall k :: k in s.active ==> k in s'.active && s'.active[k] == s.active[k]
    requires s'.dir == s.dir && s'.sessions == s.sessions + 1
    requires Grown(s.table, s'.table, s'.sessions, made)
    ensures forall k :: k in s.active ==> LeaseOk(s', env, k) && s.active[k].session != s'.sessions
  {
    forall k | k in s.active
      ensures LeaseOk(s', env, k) && s.active[k].session != s'.sessions
    {
      assert LeaseOk(s, env, k);
      OldLease(s, s', env, k);
    }
  }

  /** acquire has mounted, and registers the lease with one reference. */
  function WithLease(s: State, made: seq<Path>, key: string): State {
    var s' := AddMounts(s, made, key);
    s'.(active := s'.active[key := Lease(made, s'.sessions, 1)])
  }

  /** The mounts of a fresh setup for a lease that does not exist yet. */
  ghost predicate LeaseSetup(s: State, env: Table, made: seq<Path>, key: string) {
    && Mounts(s, env, None) && key !in s.active
    && FreshBelow(made, PathsOf(s.table), s.dir + [key])
    && Merged(s.dir + [key]) in PathsOf(s.table) + made
  }

  lemma LeaseTable(s: State, env: Table, made: seq<Path>, key: string)
    requires LeaseSetup(s, env, made, key)
    ensures var s' := WithLease(s, made, key); Tidy(s'.table) && Balanced(s') && Owned(s'.table, 0) == env
  {
    AddTable(s, env, made, key);
  }

  lemma LeaseAccounted(s: State, env: Table, made: seq<Path>, key: string)
    requires LeaseSetup(s, env, made, key)
    ensures Accounted(WithLease(s, made, key), None)
  {
    AddAccounted(s, WithLease(s, made, key), made, key, None);
  }

  lemma LeaseRegistered(s: State, env: Table, made: seq<Path>, key: string)
    requires LeaseSetup(s, env, made, key)
    ensures var s' := WithLease(s, made, key); LeasesOk(s', env) && SessionsDiffer(s', None)
  {
    assert Grown(s.table, WithLease(s, made, key).table, s.sessions + 1, made) by {
      AddTable(s, env, made, key);
    }
    if Merged(s.dir + [key]) !in made {
      PointFromEnv(s, env, key, Merged(s.dir + [key]));
    }
    LeaseAdded(s, WithLease(s, made, key), env, made, key);
  }

  lemma AddLease(s: State, env: Table, made: seq<Path>, key: string)
    requires LeaseSetup(s, env, made, key)
    ensures Mounts(WithLease(s, made, key), env, None)
  {
    LeaseTable(s, env, made, key);
    LeaseAccounted(s, env, made, key);
    LeaseRegistered(s, env, made, key);
  }

  lemma LeaseAdded(s: State, s': State, env: Table, made: seq<Path>, key: string)
    requires SessionsDiffer(s, None) && LeasesOk(s, env) && key !in s.active
    requires s'.active == s.active[key := Lease(made, s'.sessions, 1)]
    requires s'.dir == s.dir && s'.sessions == s.sessions + 1
    requires Grown(s.table, s'.table, s'.sessions, made)
    requires Merged(s.dir + [key]) in made || Merged(s.dir + [key]) in env
    ensures SessionsDiffer(s', None) && LeasesOk(s', env)
  {
    OldLeases(s, s', env, made);
  }

  lemma FileWork(s: State, made: seq<Path>, key: string)
    requires Accounted(s, None) && Merged(s.dir + [key]) in PathsOf(s.table) + made
    requires Grown(s.table, AddMounts(s, made, key).table, s.sessions + 1, made)
    ensures WorkOk(AddMounts(s, made, key), Work(key, FileManager, made, s.sessions + 1, true))
  {
    var s' := AddMounts(s, made, key);
    assert PathsOf(s'.table) == PathsOf(s.table) + made;
    NewestGrouped(s, s', made, key);
  }

  lemma AddFile(s: State, env: Table, made: seq<Path>, key: string)
    requires Mounts(s, env, None)
    requires FreshBelow(made, PathsOf(s.table), s.dir + [key])
    requires Merged(s.dir + [key]) in PathsOf(s.table) + made
    ensures Mounts(AddMounts(s, made, key), env, Some(Work(key, FileManager, made, s.sessions + 1, true)))
  {
    var s' := AddMounts(s, made, key);
    var w := Work(key, FileManager, made, s.sessions + 1, true);
    AddTable(s, env, made, key);
    assert Accounted(s', Some(w)) by {
      AddAccounted(s, s', made, key, Some(w));
    }
    assert LeasesOk(s', env) && SessionsDiffer(s', Some(w)) by {
      OldLeases(s, s', env, made);
    }
    assert WorkOk(s', w) by {
      FileWork(s, made, key);
    }
  }

  /** What was mounted last stays last. */
  lemma NewestGrouped(s: State, s': State, made: seq<Path>, key: string)
    requires Accounted(s, None) && s'.table == s.table + Tag(made, s'.sessions, key) && s'.sessions == s.sessions + 1
    ensures forall i, j :: 0 <= i < j < |s'.table| && s'.table[i].owner == s'.sessions
                           ==> s'.table[j].owner == s'.sessions
  {
    forall i | 0 <= i < |s'.table|
      ensures s'.table[i].owner == s'.sessions <==> i >= |s.table|
    {
      if i < |s.table| {
        assert s'.table[i] == s.table[i];
      } else {
        assert s'.table[i] == Tag(made, s'.sessions, key)[i - |s.table|];
      }
    }
  }

  lemma DropLease(s: State, env: Table, key: string)
    requires Mounts(s, env, None) && key in s.active
    ensures Mounts(s.(active := s.active - {key}), env,
                   Some(Work(key, Leaser, s.active[key].made, s.active[key].session, false)))
  {
    var s' := s.(active := s.active - {key});
    assert LeaseOk(s, env, key);
    forall k | k in s'.active
      ensures LeaseOk(s', env, k)
    {
      assert LeaseOk(s, env, k);
    }
  }

  lemma FinishWork(s: State, env: Table, w: Work)
    requires Mounts(s, env, Some(w)) && w.left == []
    ensures Mounts(s, env, None)
  {
    forall i | 0 <= i < |s.table| && s.table[i].owner != 0
      ensures s.table[i].owner != w.session
    {
      OwnedMember(s.table, i);
    }
    forall k | k in s.active
      ensures LeaseOk(s, env, k)
    {
    }
  }

  /** The next umount of a session finds its own newest mount, with nothing on top of it. */
  lemma UmountHitsOwn(s: State, env: Table, w: Work) returns (i: nat)
    requires Mounts(s, env, Some(w)) && w.left != []
    ensures i < |s.table| && s.table[i].owner == w.session && s.table[i].path == Last(w.left)
    ensures forall j :: i < j < |s.table| ==> s.table[j].owner != w.session
    ensures NewestOn(PathsOf(s.table), Last(w.left)) == i && !Busy(PathsOf(s.table), i)
  {
    var p := Last(w.left);
    var ps := PathsOf(s.table);
    i := NewestOwned(s.table, w.session);
    var n := NewestOn(ps, p);
    assert ps[i] == p;
    assert n >= i;
    assert s.table[n].path == p;
    forall j | i < j < |ps|
      ensures !(ps[i] < ps[j])
    {
      NothingOnTop(s, env, w, i, j);
    }
  }

  lemma NothingOnTop(s: State, env: Table, w: Work, i: nat, j: nat)
    requires Mounts(s, env, Some(w)) && w.left != []
    requires i < j < |s.table| && s.table[i].owner == w.session && s.table[j].owner != w.session
    ensures !(s.table[i].path < s.table[j].path)
  {
    var e, f := s.table[i], s.table[j];
    assert w.role == Leaser && f.owner != 0;
    assert f.key in s.active && e.key == w.key;
    if e.path < f.path {
      assert s.dir + [e.key] <= f.path;
      OneContainer(s.dir, e.key, f.key, f.path);
    }
  }

  /** One umount of a session being taken down. */
  lemma UmountKeeps(s: State, env: Table, w: Work)
    requires Mounts(s, env, Some(w)) && w.left != []
    ensures var s' := RemoveMount(s, Last(w.left));
      && Mounts(s', env, Some(w.(left := Front(w.left), serving := false)))
      && s'.umounts == s.umounts + multiset{(w.session, Last(w.left))}
  {
    var i := UmountHitsOwn(s, env, w);
    var s' := RemoveMount(s, Last(w.left));
    var w' := w.(left := Front(w.left), serving := false);
    assert s'.table == Without(s.table, i);
    forall g
      ensures Owned(s'.table, g) == if g == w.session then Front(w.left) else Owned(s.table, g)
    {
      WithoutNewest(s.table, i, g);
    }
    forall k | k in s'.active
      ensures LeaseOk(s', env, k)
    {
      assert LeaseOk(s, env, k);
    }
    PairsWithout(s.table, i);
    WithoutTidy(s.table, i);
    WithoutAccounted(s, s', w, w', i);
  }

  lemma WithoutTidy(table: seq<Entry>, i: nat)
    requires i < |table| && Tidy(table)
    ensures Tidy(Without(table, i))
  {
    var t' := Without(table, i);
    assert forall a :: 0 <= a < |t'| ==> t'[a] == table[if a < i then a else a + 1];
  }

  lemma WithoutAccounted(s: State, s': State, w: Work, w': Work, i: nat)
    requires i < |s.table| && s' == s.(table := Without(s.table, i), umounts := s'.umounts)
    requires w'.session == w.session && w'.key == w.key
    requires Accounted(s, Some(w))
    ensures Accounted(s', Some(w'))
  {
    assert forall a :: 0 <= a < |s'.table| ==> s'.table[a] == s.table[if a < i then a else a + 1];
  }
}
