/** A filesystem with symbolic links and the kernel's walk over it. */
module Filesystem {
  import opened Strings
  import opened Paths

  datatype Node = Dir | File(data: string) | Link(target: string)

  type Fs = map<Path, Node>

  predicate IsDir(fs: Fs, p: Path) {
    p in fs && fs[p].Dir?
  }

  /** Everything but the top is in a directory. */
  ghost predicate Tree(fs: Fs) {
    forall p :: p in fs && p != [] ==> IsDir(fs, Parent(p))
  }

  predicate IsLink(fs: Fs, p: Path) {
    p in fs && fs[p].Link?
  }

  /** Where a walk ends: an existing node, a free name in an existing directory, or an error. */
  datatype Landing = Found(path: Path) | Fresh(path: Path) | Nowhere

  /**
   * The kernel's walk from directory cur through the parts of todo, following every link,
   * also a last one. left bounds the number of links followed (ELOOP).
   */
  function Follow(fs: Fs, cur: Path, todo: seq<string>, left: nat): Landing
    decreases left, |todo|
  {
    if todo == [] then Found(cur)
    else if !IsDir(fs, cur) then Nowhere
    else
      var c, rest := todo[0], todo[1..];
      if c == "" || c == "." then Follow(fs, cur, rest, left)
      else if c == ".." then Follow(fs, Parent(cur), rest, left)
      else
        var next := cur + [c];
        if next !in fs then (if rest == [] then Fresh(next) else Nowhere)
        else if !fs[next].Link? then Follow(fs, next, rest, left)
        else if left == 0 then Nowhere
        else
          var t := fs[next].target;
          Follow(fs, if "/" <= t then [] else cur, Split(t, '/') + rest, left - 1)
  }

  /** lstat succeeds: the parent resolves to a directory holding the last name. */
  predicate Lstat(fs: Fs, p: Path, limit: nat) {
    if p == [] then [] in fs
    else
      var d := Follow(fs, [], Parent(p), limit);
      d.Found? && IsDir(fs, d.path) && d.path + [p[|p| - 1]] in fs
  }

  /** A larger link budget never changes where a walk that succeeds ends. */
  lemma {:induction false} FollowBudget(fs: Fs, cur: Path, todo: seq<string>, n: nat, m: nat)
    requires n <= m
    requires !Follow(fs, cur, todo, n).Nowhere?
    ensures Follow(fs, cur, todo, m) == Follow(fs, cur, todo, n)
    decreases n, |todo|
  {
    if todo != [] {
      var c, rest := todo[0], todo[1..];
      var next := cur + [c];
      if c == "" || c == "." {
        FollowBudget(fs, cur, rest, n, m);
      } else if c == ".." {
        FollowBudget(fs, Parent(cur), rest, n, m);
      } else if next in fs {
        if fs[next].Link? {
          var t := fs[next].target;
          FollowBudget(fs, if "/" <= t then [] else cur, Split(t, '/') + rest, n - 1, m - 1);
        } else {
          FollowBudget(fs, next, rest, n, m);
        }
      }
    }
  }

  /** Two walks of one path that both succeed end at the same place, whatever their budgets. */
  lemma FollowAgrees(fs: Fs, cur: Path, todo: seq<string>, n: nat, m: nat)
    requires !Follow(fs, cur, todo, n).Nowhere? && !Follow(fs, cur, todo, m).Nowhere?
    ensures Follow(fs, cur, todo, n) == Follow(fs, cur, todo, m)
  {
    if n <= m {
      FollowBudget(fs, cur, todo, n, m);
    } else {
      FollowBudget(fs, cur, todo, m, n);
    }
  }

  /** A walk of a + b that succeeds first finds a directory along a, then continues with b. */
  lemma {:induction false} FollowThrough(fs: Fs, cur: Path, a: seq<string>, b: seq<string>, n: nat)
    returns (d: Path, m: nat)
    requires b != []
    requires !Follow(fs, cur, a + b, n).Nowhere?
    ensures m <= n && Follow(fs, cur, a, n) == Found(d) && IsDir(fs, d)
    ensures Follow(fs, d, b, m) == Follow(fs, cur, a + b, n)
    decreases n, |a|
  {
    if a == [] {
      assert a + b == b;
      d, m := cur, n;
    } else {
      var c, rest := a[0], a[1..];
      assert (a + b)[1..] == rest + b;
      var next := cur + [c];
      if c == "" || c == "." {
        d, m := FollowThrough(fs, cur, rest, b, n);
      } else if c == ".." {
        d, m := FollowThrough(fs, Parent(cur), rest, b, n);
      } else if !fs[next].Link? {
        d, m := FollowThrough(fs, next, rest, b, n);
      } else {
        var t := fs[next].target;
        assert Split(t, '/') + (rest + b) == (Split(t, '/') + rest) + b;
        d, m := FollowThrough(fs, if "/" <= t then [] else cur, Split(t, '/') + rest, b, n - 1);
      }
    }
  }

  /** A walk that ends at a node goes on from there. */
  lemma {:induction false} FollowOnward(fs: Fs, cur: Path, a: seq<string>, b: seq<string>, n: nat) returns (m: nat)
    requires Follow(fs, cur, a, n).Found?
    ensures Follow(fs, cur, a + b, n) == Follow(fs, Follow(fs, cur, a, n).path, b, m)
    decreases n, |a|
  {
    if a == [] {
      assert a + b == b;
      m := n;
    } else {
      var c, rest := a[0], a[1..];
      assert (a + b)[1..] == rest + b;
      var next := cur + [c];
      if c == "" || c == "." {
        m := FollowOnward(fs, cur, rest, b, n);
      } else if c == ".." {
        m := FollowOnward(fs, Parent(cur), rest, b, n);
      } else if !fs[next].Link? {
        m := FollowOnward(fs, next, rest, b, n);
      } else {
        var t := fs[next].target;
        assert Split(t, '/') + (rest + b) == (Split(t, '/') + rest) + b;
        m := FollowOnward(fs, if "/" <= t then [] else cur, Split(t, '/') + rest, b, n - 1);
      }
    }
  }

  /** Walking real directories only: each name is one step down. */
  lemma {:induction false} FollowDirs(fs: Fs, cur: Path, names: Path, rest: seq<string>, n: nat)
    requires Canonical(names)
    requires forall i :: 0 <= i <= |names| ==> IsDir(fs, cur + names[..i])
    ensures Follow(fs, cur, names + rest, n) == Follow(fs, cur + names, rest, n)
    decreases |names|
  {
    if names == [] {
      assert names + rest == rest && cur + names == cur;
    } else {
      var next := cur + [names[0]];
      assert (names + rest)[1..] == names[1..] + rest;
      assert names[..1] == [names[0]];
      assert cur + names[..0] == cur;
      assert next + names[1..] == cur + names;
      forall i | 0 <= i <= |names| - 1
        ensures IsDir(fs, next + names[1..][..i])
      {
        assert next + names[1..][..i] == cur + names[..i + 1];
      }
      FollowDirs(fs, next, names[1..], rest, n);
    }
  }

  /** Above what is there are real directories. */
  lemma {:induction false} AboveAreDirs(fs: Fs, p: Path, i: nat)
    requires Tree(fs) && p in fs && i < |p|
    ensures IsDir(fs, p[..i])
    decreases |p|
  {
    if i < |p| - 1 {
      AboveAreDirs(fs, Parent(p), i);
      assert Parent(p)[..i] == p[..i];
    }
  }

  /** From "/" what is there is reached through its directories. */
  lemma UpWalk(fs: Fs, p: Path, rest: seq<string>, n: nat)
    requires Tree(fs) && p in fs && p != [] && Canonical(p)
    ensures Follow(fs, [], Parent(p) + rest, n) == Follow(fs, Parent(p), rest, n) && IsDir(fs, Parent(p))
  {
    var up := Parent(p);
    forall i | 0 <= i <= |up|
      ensures IsDir(fs, [] + up[..i])
    {
      AboveAreDirs(fs, p, i);
      assert [] + up[..i] == p[..i];
    }
    FollowDirs(fs, [], up, rest, n);
    assert [] + up == up && [] + up[..|up|] == up;
  }

  /** What a walk finds is there. */
  lemma {:induction false} FoundIsThere(fs: Fs, cur: Path, todo: seq<string>, n: nat)
    requires Tree(fs) && IsDir(fs, []) && cur in fs && !fs[cur].Link?
    ensures var w := Follow(fs, cur, todo, n); w.Found? ==> w.path in fs && !fs[w.path].Link?
    decreases n, |todo|
  {
    if todo != [] && IsDir(fs, cur) {
      var c, rest := todo[0], todo[1..];
      var next := cur + [c];
      if c == "" || c == "." {
        FoundIsThere(fs, cur, rest, n);
      } else if c == ".." {
        FoundIsThere(fs, Parent(cur), rest, n);
      } else if next in fs {
        if !fs[next].Link? {
          FoundIsThere(fs, next, rest, n);
        } else if n > 0 {
          FoundIsThere(fs, if "/" <= fs[next].target then [] else cur, Split(fs[next].target, '/') + rest, n - 1);
        }
      }
    }
  }

  /** The end of a successful walk is a canonical path. */
  lemma {:induction false} FollowCanonical(fs: Fs, cur: Path, todo: seq<string>, n: nat)
    requires Canonical(cur)
    requires forall i :: 0 <= i < |todo| ==> '/' !in todo[i]
    requires !Follow(fs, cur, todo, n).Nowhere?
    ensures Canonical(Follow(fs, cur, todo, n).path)
    decreases n, |todo|
  {
    if todo != [] {
      var c, rest := todo[0], todo[1..];
      var next := cur + [c];
      if c == "" || c == "." {
        FollowCanonical(fs, cur, rest, n);
      } else if c == ".." {
        FollowCanonical(fs, Parent(cur), rest, n);
      } else if next in fs {
        if fs[next].Link? {
          var t := fs[next].target;
          SplitParts(t, '/');
          FollowCanonical(fs, if "/" <= t then [] else cur, Split(t, '/') + rest, n - 1);
        } else {
          FollowCanonical(fs, next, rest, n);
        }
      }
    }
  }
}
