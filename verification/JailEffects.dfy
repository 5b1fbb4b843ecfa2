/** What a write or mkdir does after its path was accepted: it stays inside the real root. */
module JailEffects {
  import opened Basics
  import opened Strings
  import opened Paths
  import opened Filesystem
  import opened Jail
  import opened Archive
  import opened ArchiveSafety
  import opened Containment

  /** handleFmWrite, once its path is accepted. */
  function WriteRequest(fs: Fs, full: Path, data: string, limit: nat): Effect {
    var made := MkdirAll(fs, Parent(full), limit);
    if made.ok then WriteFile(made.fs, full, data, limit) else made
  }

  /** handleFmMkdir, once its path is accepted. */
  function MkdirRequest(fs: Fs, full: Path, limit: nat): Effect {
    MkdirAll(fs, full, limit)
  }

  // ---------------------------------------------------------------- walks

  /** The second filesystem has all that the first has. */
  ghost predicate Grows(fs: Fs, after: Fs) {
    forall p :: p in fs ==> p in after && after[p] == fs[p]
  }

  lemma {:induction false} FollowGrows(fs: Fs, after: Fs, cur: Path, todo: seq<string>, n: nat)
    requires Grows(fs, after) && Follow(fs, cur, todo, n).Found?
    ensures Follow(after, cur, todo, n) == Follow(fs, cur, todo, n)
    decreases n, |todo|
  {
    if todo != [] {
      var c, rest := todo[0], todo[1..];
      var next := cur + [c];
      if c == "" || c == "." {
        FollowGrows(fs, after, cur, rest, n);
      } else if c == ".." {
        FollowGrows(fs, after, Parent(cur), rest, n);
      } else if !fs[next].Link? {
        FollowGrows(fs, after, next, rest, n);
      } else {
        var t := fs[next].target;
        FollowGrows(fs, after, if "/" <= t then [] else cur, Split(t, '/') + rest, n - 1);
      }
    }
  }

  /** Nothing is below what is not there. */
  lemma {:induction false} NoOrphans(fs: Fs, x: Path, p: Path)
    requires Tree(fs) && x !in fs && x <= p
    ensures p !in fs
    decreases |p|
  {
    if p != x {
      NoOrphans(fs, x, Parent(p));
    }
  }

  // ---------------------------------------------------------------- making directories

  /** Only new directories below x were added. */
  ghost predicate GrowsBelow(fs: Fs, after: Fs, x: Path) {
    Grows(fs, after) && forall p :: p in after && p !in fs ==> x <= p && after[p] == Dir
  }

  /** Below a found place whose next name is free, names lead where they say, before and after. */
  lemma FreeNames(fs: Fs, after: Fs, base: Path, names: Path, q: Path, n: nat)
    requires Tree(fs) && Canonical(names) && names != []
    requires Follow(fs, [], base, n) == Found(q) && q + [names[0]] !in fs
    requires GrowsBelow(fs, after, q + [names[0]])
    ensures var w := Follow(after, [], base + names, n); !w.Nowhere? ==> w.path == q + names
  {
    FollowGrows(fs, after, [], base, n);
    var m := FollowOnward(after, [], base, names, n);
    forall i | 1 <= i <= |names|
      ensures !IsLink(after, q + names[..i])
    {
      assert q + [names[0]] <= q + names[..i];
      NoOrphans(fs, q + [names[0]], q + names[..i]);
    }
    FollowByName(after, q, names, m);
  }

  lemma SameEnd(base: Path, names: Path)
    requires names != []
    ensures var p, front := base + names, names[..|names| - 1];
      && Parent(p) == base + front && p[|p| - 1] == names[|names| - 1]
      && base + front + [names[|names| - 1]] == p && base + [names[0]] <= p
  {
    assert names[..|names| - 1] + [names[|names| - 1]] == names;
  }

  lemma GrowsOnce(fs: Fs, mid: Fs, after: Fs, x: Path, y: Path)
    requires GrowsBelow(fs, mid, x) && x <= y
    requires after == mid || (y !in mid && after == mid[y := Dir])
    ensures GrowsBelow(fs, after, x)
  {
  }

  /** MkdirAll from a found place makes directories below its first free name, and nothing else. */
  lemma {:induction false} MkdirAllBelow(fs: Fs, base: Path, names: Path, q: Path, n: nat)
    requires Tree(fs) && Canonical(base) && Canonical(names) && names != []
    requires Follow(fs, [], base, n) == Found(q) && q + [names[0]] !in fs
    ensures GrowsBelow(fs, MkdirAll(fs, base + names, n).fs, q + [names[0]])
    decreases |names|
  {
    var front := names[..|names| - 1];
    SameEnd(base, names);
    var up := MkdirAllStep(fs, base + names, base + front, n);
    if front == [] {
      assert base + front == base;
    } else {
      MkdirAllBelow(fs, base, front, q, n);
    }
    MkdirNext(fs, up, base, names, q, n);
  }

  /** MkdirAll of what cannot be found goes on from where MkdirAll of its parent ends. */
  lemma MkdirAllStep(fs: Fs, p: Path, parent: Path, n: nat) returns (up: Fs)
    requires p != [] && parent == Parent(p)
    ensures up == MkdirAll(fs, parent, n).fs && (Follow(fs, [], parent, n).Found? ==> up == fs)
    ensures MkdirAll(fs, p, n).fs in {fs, up, Mkdir(up, p, n).fs}
  {
    up := MkdirAll(fs, parent, n).fs;
  }

  /** The last step of it. */
  lemma MkdirNext(fs: Fs, up: Fs, base: Path, names: Path, q: Path, n: nat)
    requires Tree(fs) && Canonical(base) && Canonical(names) && names != []
    requires Follow(fs, [], base, n) == Found(q) && q + [names[0]] !in fs
    requires GrowsBelow(fs, up, q + [names[0]])
    ensures GrowsBelow(fs, Mkdir(up, base + names, n).fs, q + [names[0]])
  {
    var front := names[..|names| - 1];
    SameEnd(base, names);
    SameEnd(q, names);
    if front == [] {
      FollowGrows(fs, up, [], base, n);
      assert base + front == base && q + front == q;
    } else {
      FreeNames(fs, up, base, front, q, n);
    }
    MadeAt(up, base + names, q + front, n);
    GrowsOnce(fs, up, Mkdir(up, base + names, n).fs, q + [names[0]], q + names);
  }

  /** Mkdir, when its directory is where the path says. */
  lemma MadeAt(fs: Fs, p: Path, dir: Path, n: nat)
    requires p != [] && var d := Follow(fs, [], Parent(p), n); d.Found? ==> d.path == dir
    ensures var after := Mkdir(fs, p, n).fs;
      after == fs || (dir + [p[|p| - 1]] !in fs && after == fs[dir + [p[|p| - 1]] := Dir])
  {
  }

  /** What lstat sees but a walk cannot enter stops MkdirAll before it does anything. */
  lemma BlockedHere(fs: Fs, p: Path, n: nat)
    requires Canonical(p) && p != [] && Lstat(fs, p, n) && !Follow(fs, [], p, n).Found?
    ensures MkdirAll(fs, p, n) == Effect(fs, false)
  {
    var c := p[|p| - 1];
    assert p == Parent(p) + [c];
    var m := FollowOnward(fs, [], Parent(p), [c], n);
    assert Follow(fs, Follow(fs, [], Parent(p), n).path, [c], m) == Follow(fs, [], p, n);
  }

  lemma {:induction false} BlockedBelow(fs: Fs, base: Path, names: Path, n: nat)
    requires Canonical(base + names) && !Follow(fs, [], base, n).Found? && MkdirAll(fs, base, n) == Effect(fs, false)
    ensures MkdirAll(fs, base + names, n) == Effect(fs, false)
    decreases |names|
  {
    var p := base + names;
    if names == [] {
      assert p == base;
    } else {
      var front := names[..|names| - 1];
      assert Parent(p) == base + front;
      BlockedBelow(fs, base, front, n);
      if Follow(fs, [], p, n).Found? {
        var d, m := FollowThrough(fs, [], base, names, n);
      }
    }
  }

  // ---------------------------------------------------------------- requests

  /** Where a request was accepted: the nearest existing parent, and the names that are missing. */
  lemma AcceptedMissing(fs: Fs, root: Path, request: string, limit: nat) returns (near: Path, names: Path)
    requires IsDir(fs, []) && Canonical(root)
    requires ResolveClean(fs, root, CleanFileManager(request), true, limit).Allowed?
    ensures var full := ResolveClean(fs, root, CleanFileManager(request), true, limit).full;
      && full == near + names && Canonical(near) && Canonical(names) && Lstat(fs, near, limit)
      && (names != [] ==> !Lstat(fs, near + names[..1], limit))
    ensures EvalSymlinks(fs, near).Some? && EvalSymlinks(fs, root).value <= EvalSymlinks(fs, near).value
  {
    var clean := CleanFileManager(request);
    RequestStaysBelowRoot(root, request);
    near := AcceptedNear(fs, root, clean, limit);
    ClimbStops(fs, root + clean, limit);
    names := TailOf(near, root + clean);
    AcceptedParent(fs, root, clean, limit, near);
  }

  lemma AcceptedNear(fs: Fs, root: Path, clean: Path, limit: nat) returns (near: Path)
    requires JoinPath(root, Text(clean)) == root + clean && ResolveClean(fs, root, clean, true, limit).Allowed?
    ensures ResolveClean(fs, root, clean, true, limit).full == root + clean
    ensures NearestExisting(fs, root + clean, limit) == Some(near)
  {
    near := NearestExisting(fs, root + clean, limit).value;
  }

  lemma TailOf(near: Path, full: Path) returns (names: Path)
    requires near <= full && Canonical(full)
    ensures full == near + names && Canonical(near) && Canonical(names)
    ensures names != [] ==> near != full && near + names[..1] == full[..|near| + 1]
  {
    names := full[|near|..];
  }

  lemma AcceptedParent(fs: Fs, root: Path, clean: Path, limit: nat, near: Path)
    requires Canonical(root) && Canonical(clean) && JoinPath(root, Text(clean)) == root + clean
    requires ResolveClean(fs, root, clean, true, limit).Allowed?
    requires NearestExisting(fs, root + clean, limit) == Some(near) && Canonical(near)
    ensures EvalSymlinks(fs, near).Some? && EvalSymlinks(fs, root).value <= EvalSymlinks(fs, near).value
  {
    FollowCanonical(fs, [], near, EVAL_LINKS);
    RelEscapes(EvalSymlinks(fs, root).value, EvalSymlinks(fs, near).value);
  }

  /** The next name below a found directory is free when lstat does not see it. */
  lemma UnseenIsFree(fs: Fs, near: Path, names: Path, q: Path, limit: nat)
    requires Tree(fs) && names != [] && Follow(fs, [], near, limit) == Found(q)
    requires !Lstat(fs, near + names[..1], limit)
    ensures q + [names[0]] !in fs
  {
    assert Parent(near + names[..1]) == near;
    assert Parent(q + [names[0]]) == q;
  }

  /** What an accepted mkdir or write does to a prefix of its path. */
  lemma MakesBelow(fs: Fs, near: Path, names: Path, limit: nat, inside: Path)
    requires Tree(fs) && IsDir(fs, []) && Canonical(near) && Canonical(names) && Lstat(fs, near, limit)
    requires names != [] ==> !Lstat(fs, near + names[..1], limit)
    requires EvalSymlinks(fs, near).Some? && inside <= EvalSymlinks(fs, near).value
    ensures SameOutside(fs, MkdirAll(fs, near + names, limit).fs, inside)
  {
    var w := Follow(fs, [], near, limit);
    if w.Found? {
      FollowAgrees(fs, [], near, limit, EVAL_LINKS);
      if names == [] {
        assert near + names == near;
      } else {
        UnseenIsFree(fs, near, names, w.path, limit);
        MkdirAllBelow(fs, near, names, w.path, limit);
      }
    } else {
      BlockedHere(fs, near, limit);
      BlockedBelow(fs, near, names, limit);
    }
  }

  /** An accepted mkdir changes nothing outside the real root, whatever links there are. */
  lemma MkdirStaysInside(fs: Fs, root: Path, request: string, limit: nat)
    requires Tree(fs) && IsDir(fs, []) && Canonical(root)
    requires ResolveClean(fs, root, CleanFileManager(request), true, limit).Allowed?
    ensures var full := ResolveClean(fs, root, CleanFileManager(request), true, limit).full;
      SameOutside(fs, MkdirRequest(fs, full, limit).fs, EvalSymlinks(fs, root).value)
  {
    var near, names := AcceptedMissing(fs, root, request, limit);
    MakesBelow(fs, near, names, limit, EvalSymlinks(fs, root).value);
  }

  /** The parent of an existing path is there already. */
  lemma ParentIsThere(fs: Fs, p: Path, limit: nat)
    requires IsDir(fs, []) && Lstat(fs, p, limit)
    ensures MkdirAll(fs, Parent(p), limit).fs == fs
  {
  }

  /** A path that leads anywhere leads to inside or below. */
  predicate LeadsBelow(fs: Fs, p: Path, limit: nat, inside: Path) {
    var w := Follow(fs, [], p, limit);
    !w.Nowhere? ==> inside <= w.path
  }

  lemma WriteLands(fs: Fs, p: Path, made: Effect, data: string, limit: nat, inside: Path)
    requires made == MkdirAll(fs, Parent(p), limit) && SameOutside(fs, made.fs, inside)
    requires made.ok ==> LeadsBelow(made.fs, p, limit, inside)
    ensures SameOutside(fs, WriteRequest(fs, p, data, limit).fs, inside)
  {
  }

  /** Once its directories are made, the path of a write leads inside. */
  lemma WrittenBelow(fs: Fs, near: Path, names: Path, limit: nat, inside: Path)
    requires Tree(fs) && IsDir(fs, []) && Canonical(near) && Canonical(names) && Lstat(fs, near, limit)
    requires names != [] && !Lstat(fs, near + names[..1], limit)
    requires EvalSymlinks(fs, near).Some? && inside <= EvalSymlinks(fs, near).value
    ensures var made := MkdirAll(fs, near + names[..|names| - 1], limit);
      made.ok ==> LeadsBelow(made.fs, near + names, limit, inside)
  {
    var w := Follow(fs, [], near, limit);
    if w.Found? {
      FollowAgrees(fs, [], near, limit, EVAL_LINKS);
      UnseenIsFree(fs, near, names, w.path, limit);
      WrittenWhere(fs, near, names, w.path, limit);
    } else {
      BlockedHere(fs, near, limit);
      BlockedBelow(fs, near, names[..|names| - 1], limit);
    }
  }

  /** Where a write lands once the directories of its path are made. */
  lemma WrittenWhere(fs: Fs, near: Path, names: Path, q: Path, limit: nat)
    requires Tree(fs) && Canonical(near) && Canonical(names) && names != []
    requires Follow(fs, [], near, limit) == Found(q) && q + [names[0]] !in fs
    ensures var made := MkdirAll(fs, near + names[..|names| - 1], limit).fs;
      var w := Follow(made, [], near + names, limit);
      !w.Nowhere? ==> w.path == q + names
  {
    var front := names[..|names| - 1];
    if front == [] {
      assert near + front == near;
    } else {
      MkdirAllBelow(fs, near, front, q, limit);
    }
    FreeNames(fs, MkdirAll(fs, near + front, limit).fs, near, names, q, limit);
  }

  /** A write into a missing path, once its directories are made. */
  lemma WritesBelow(fs: Fs, near: Path, names: Path, data: string, limit: nat, inside: Path)
    requires Tree(fs) && IsDir(fs, []) && Canonical(near) && Canonical(names) && Lstat(fs, near, limit)
    requires names != [] && !Lstat(fs, near + names[..1], limit)
    requires EvalSymlinks(fs, near).Some? && inside <= EvalSymlinks(fs, near).value
    ensures SameOutside(fs, WriteRequest(fs, near + names, data, limit).fs, inside)
  {
    var front := names[..|names| - 1];
    assert Parent(near + names) == near + front;
    assert front != [] ==> front[..1] == names[..1];
    MakesBelow(fs, near, front, limit, inside);
    WrittenBelow(fs, near, names, limit, inside);
    WriteLands(fs, near + names, MkdirAll(fs, near + front, limit), data, limit, inside);
  }

  /** An accepted write changes nothing outside the real root, whatever links there are. */
  lemma WriteStaysInside(fs: Fs, root: Path, request: string, data: string, limit: nat)
    requires Tree(fs) && IsDir(fs, []) && Canonical(root)
    requires ResolveClean(fs, root, CleanFileManager(request), true, limit).Allowed?
    ensures var full := ResolveClean(fs, root, CleanFileManager(request), true, limit).full;
      SameOutside(fs, WriteRequest(fs, full, data, limit).fs, EvalSymlinks(fs, root).value)
  {
    var near, names := AcceptedMissing(fs, root, request, limit);
    if names == [] {
      assert near + names == near;
      ParentIsThere(fs, near, limit);
      AcceptedStaysInside(fs, root, request, true, limit);
    } else {
      WritesBelow(fs, near, names, data, limit, EvalSymlinks(fs, root).value);
    }
  }
}
