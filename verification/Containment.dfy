/**
 * When walks that start inside a directory end inside it: the links below it are held in, whatever
 * else comes and goes there.
 */
module Containment {
  import opened Basics
  import opened Strings
  import opened Paths
  import opened Filesystem

  predicate ClimbFree(parts: seq<string>) {
    forall i :: 0 <= i < |parts| ==> parts[i] != ".."
  }

  predicate SafeTarget(t: string) {
    !("/" <= t) && ClimbFree(Split(t, '/'))
  }

  ghost predicate SameOutside(a: Fs, b: Fs, dest: Path) {
    forall p :: !(dest <= p) ==> (p in a <==> p in b) && (p in a && p in b ==> a[p] == b[p])
  }

  /** Everything above dest is a real directory. */
  ghost predicate Trunk(fs: Fs, dest: Path) {
    forall i :: 0 <= i < |dest| ==> IsDir(fs, dest[..i])
  }

  /** dest is a real directory, reached without links. */
  ghost predicate RealDirectory(fs: Fs, dest: Path) {
    Canonical(dest) && dest != [] && forall i :: 0 <= i <= |dest| ==> IsDir(fs, dest[..i])
  }

  /** Where the walk of a link's target starts. */
  function Origin(p: Path, target: string): Path {
    if "/" <= target then [] else Parent(p)
  }

  /**
   * A walk from cur through todo, and then through any names without "..", never ends outside dest.
   * What is below dest may change: there the walk may climb first, and only go down from then on.
   */
  predicate Held(fs: Fs, dest: Path, cur: Path, todo: seq<string>, n: nat)
    decreases n, |todo|
  {
    if dest <= cur && ClimbFree(todo) then true
    else if todo == [] then false
    else
      var c, rest := todo[0], todo[1..];
      if dest <= cur && c != "" && c != "." && c != ".." then false
      else if !(dest <= cur) && !IsDir(fs, cur) then true
      else if c == "" || c == "." then Held(fs, dest, cur, rest, n)
      else if c == ".." then Held(fs, dest, Parent(cur), rest, n)
      else
        var next := cur + [c];
        if next == dest then Held(fs, dest, next, rest, n)
        else if next !in fs then rest != []
        else if !fs[next].Link? then Held(fs, dest, next, rest, n)
        else
          var t := fs[next].target;
          n == 0 || Held(fs, dest, Origin(next, t), Split(t, '/') + rest, n - 1)
  }

  predicate HeldLink(fs: Fs, dest: Path, p: Path, n: nat) {
    IsLink(fs, p) && n > 0 ==> Held(fs, dest, Origin(p, fs[p].target), Split(fs[p].target, '/'), n - 1)
  }

  /** No link below dest leads out of it. */
  ghost predicate HeldLinks(fs: Fs, dest: Path, n: nat) {
    forall p :: dest < p ==> HeldLink(fs, dest, p, n)
  }

  /** The first part that does not vanish is name. */
  predicate Leads(parts: seq<string>, name: string)
    decreases |parts|
  {
    parts != [] && (if parts[0] == "" || parts[0] == "." then Leads(parts[1..], name) else parts[0] == name)
  }

  /** dest has become a link that leads back to itself. */
  ghost predicate SelfLoop(fs: Fs, dest: Path)
    requires dest != []
  {
    dest in fs && fs[dest].Link? && SafeTarget(fs[dest].target) && Leads(Split(fs[dest].target, '/'), Last(dest))
  }

  /** dest is where its path says, or leads nowhere, and its links are held in. */
  ghost predicate Sealed(fs: Fs, dest: Path, n: nat) {
    && dest != [] && Canonical(dest) && Trunk(fs, dest)
    && (IsDir(fs, dest) || SelfLoop(fs, dest))
    && HeldLinks(fs, dest, n)
  }

  // ---------------------------------------------------------------- held targets

  /** More names without ".." at the end, and a smaller budget, change nothing. */
  lemma {:induction false} HeldMore(fs: Fs, dest: Path, cur: Path, a: seq<string>, rest: seq<string>, m: nat, n: nat)
    requires Held(fs, dest, cur, a, m) && ClimbFree(rest) && n <= m
    ensures Held(fs, dest, cur, a + rest, n)
    decreases n, |a|
  {
    if dest <= cur && ClimbFree(a) {
      assert ClimbFree(a + rest);
    } else {
      var c, more := a[0], a[1..];
      assert (a + rest)[0] == c && (a + rest)[1..] == more + rest;
      var next := cur + [c];
      if !(dest <= cur) && !IsDir(fs, cur) {
      } else if c == "" || c == "." {
        HeldMore(fs, dest, cur, more, rest, m, n);
      } else if c == ".." {
        HeldMore(fs, dest, Parent(cur), more, rest, m, n);
      } else if next == dest || (next in fs && !fs[next].Link?) {
        HeldMore(fs, dest, next, more, rest, m, n);
      } else if next in fs && n > 0 {
        var t := fs[next].target;
        HeldMore(fs, dest, Origin(next, t), Split(t, '/') + more, rest, m - 1, n - 1);
        assert Split(t, '/') + more + rest == Split(t, '/') + (more + rest);
      }
    }
  }

  /** Only the outside decides. */
  lemma {:induction false} HeldSame(fs: Fs, after: Fs, dest: Path, cur: Path, todo: seq<string>, n: nat)
    requires SameOutside(fs, after, dest)
    ensures Held(fs, dest, cur, todo, n) <==> Held(after, dest, cur, todo, n)
    decreases n, |todo|
  {
    if !(dest <= cur && ClimbFree(todo)) && todo != [] {
      var c, rest := todo[0], todo[1..];
      var next := cur + [c];
      if c == "" || c == "." {
        HeldSame(fs, after, dest, cur, rest, n);
      } else if c == ".." {
        HeldSame(fs, after, dest, Parent(cur), rest, n);
      } else if !(dest <= cur) {
        assert dest <= next ==> next == dest;
        HeldSame(fs, after, dest, next, rest, n);
        if IsLink(fs, next) && next != dest && n > 0 {
          var t := fs[next].target;
          HeldSame(fs, after, dest, Origin(next, t), Split(t, '/') + rest, n - 1);
        }
      }
    }
  }

  /** A link that was there before is as held as it was. */
  lemma HeldLinkSame(fs: Fs, after: Fs, dest: Path, p: Path, n: nat)
    requires SameOutside(fs, after, dest) && HeldLink(fs, dest, p, n)
    requires IsLink(after, p) ==> p in fs && fs[p] == after[p]
    ensures HeldLink(after, dest, p, n)
  {
    if IsLink(after, p) && n > 0 {
      HeldSame(fs, after, dest, Origin(p, fs[p].target), Split(fs[p].target, '/'), n - 1);
    }
  }

  /** A safe target below dest is held. */
  lemma SafeIsHeld(fs: Fs, dest: Path, p: Path, n: nat)
    requires dest < p && (IsLink(fs, p) ==> SafeTarget(fs[p].target))
    ensures HeldLink(fs, dest, p, n)
  {
    assert dest <= Parent(p);
  }

  // ---------------------------------------------------------------- walks

  lemma {:induction false} LeadsPrefix(parts: seq<string>, rest: seq<string>, name: string)
    requires Leads(parts, name)
    ensures Leads(parts + rest, name)
    decreases |parts|
  {
    if parts[0] == "" || parts[0] == "." {
      LeadsPrefix(parts[1..], rest, name);
      assert (parts + rest)[1..] == parts[1..] + rest;
    }
  }

  /** A root that leads back to itself can never be walked through. */
  lemma {:induction false} LoopGoesNowhere(fs: Fs, dest: Path, todo: seq<string>, n: nat)
    requires dest != [] && SelfLoop(fs, dest) && IsDir(fs, Parent(dest))
    requires Leads(todo, Last(dest)) && Name(Last(dest))
    ensures Follow(fs, Parent(dest), todo, n).Nowhere?
    decreases n, |todo|
  {
    var c, rest := todo[0], todo[1..];
    if c == "" || c == "." {
      LoopGoesNowhere(fs, dest, rest, n);
    } else {
      assert Parent(dest) + [c] == dest;
      if n > 0 {
        var t := Split(fs[dest].target, '/');
        LeadsPrefix(t, rest, Last(dest));
        LoopGoesNowhere(fs, dest, t + rest, n - 1);
      }
    }
  }

  /** A free end of a walk is free. */
  lemma {:induction false} FreshIsFree(fs: Fs, cur: Path, todo: seq<string>, n: nat)
    ensures var w := Follow(fs, cur, todo, n); w.Fresh? ==> w.path !in fs
    decreases n, |todo|
  {
    if todo != [] && IsDir(fs, cur) {
      var c, rest := todo[0], todo[1..];
      var next := cur + [c];
      if c == "" || c == "." {
        FreshIsFree(fs, cur, rest, n);
      } else if c == ".." {
        FreshIsFree(fs, Parent(cur), rest, n);
      } else if next in fs {
        if !fs[next].Link? {
          FreshIsFree(fs, next, rest, n);
        } else if n > 0 {
          FreshIsFree(fs, Origin(next, fs[next].target), Split(fs[next].target, '/') + rest, n - 1);
        }
      }
    }
  }

  /** A held link, followed from inside with names to come, is held. */
  lemma HeldOnward(fs: Fs, dest: Path, p: Path, rest: seq<string>, limit: nat, n: nat)
    requires HeldLink(fs, dest, p, limit) && IsLink(fs, p) && ClimbFree(rest) && 0 < n <= limit
    ensures Held(fs, dest, Origin(p, fs[p].target), Split(fs[p].target, '/') + rest, n - 1)
  {
    var t := fs[p].target;
    HeldMore(fs, dest, Origin(p, t), Split(t, '/'), rest, limit - 1, n - 1);
  }

  /** Whatever is below dest, a held walk ends below dest or nowhere. */
  lemma {:induction false} FollowHeld(fs: Fs, dest: Path, cur: Path, todo: seq<string>, n: nat, limit: nat)
    requires Sealed(fs, dest, limit) && n <= limit && Held(fs, dest, cur, todo, n)
    ensures var w := Follow(fs, cur, todo, n); !w.Nowhere? ==> dest <= w.path
    decreases n, |todo|
  {
    if todo != [] && IsDir(fs, cur) {
      var c, rest := todo[0], todo[1..];
      var next := cur + [c];
      if c == "" || c == "." {
        FollowHeld(fs, dest, cur, rest, n, limit);
      } else if c == ".." {
        FollowHeld(fs, dest, Parent(cur), rest, n, limit);
      } else if next == dest && !IsDir(fs, dest) {
        assert Parent(dest) == cur;
        LoopGoesNowhere(fs, dest, todo, n);
      } else if next in fs && !fs[next].Link? {
        FollowHeld(fs, dest, next, rest, n, limit);
      } else if next in fs && n > 0 {
        if dest <= cur {
          assert HeldLink(fs, dest, next, limit);
          HeldOnward(fs, dest, next, rest, limit, n);
        }
        FollowHeld(fs, dest, Origin(next, fs[next].target), Split(fs[next].target, '/') + rest, n - 1, limit);
      }
    }
  }

  lemma FollowToParent(fs: Fs, dest: Path, rest: seq<string>, n: nat)
    requires dest != [] && Canonical(dest) && Trunk(fs, dest)
    ensures Follow(fs, [], Parent(dest) + rest, n) == Follow(fs, Parent(dest), rest, n)
    ensures IsDir(fs, Parent(dest))
  {
    var up := Parent(dest);
    forall i | 0 <= i <= |up|
      ensures IsDir(fs, [] + up[..i])
    {
      assert [] + up[..i] == dest[..i];
    }
    assert up == dest[..|dest| - 1];
    FollowDirs(fs, [], up, rest, n);
    assert [] + up == up;
  }

  /** From "/" a path into a real directory goes on from there. */
  lemma FollowInto(fs: Fs, dest: Path, todo: seq<string>, n: nat)
    requires dest != [] && Canonical(dest) && Trunk(fs, dest) && IsDir(fs, dest)
    ensures Follow(fs, [], dest + todo, n) == Follow(fs, dest, todo, n)
  {
    assert dest + todo == Parent(dest) + ([Last(dest)] + todo);
    FollowToParent(fs, dest, [Last(dest)] + todo, n);
    assert Parent(dest) + [Last(dest)] == dest;
    assert ([Last(dest)] + todo)[1..] == todo;
  }

  /** From "/" as well, a path through dest without ".." ends below dest or nowhere. */
  lemma FollowFromTop(fs: Fs, dest: Path, todo: seq<string>, n: nat, limit: nat)
    requires Sealed(fs, dest, limit) && ClimbFree(todo) && n <= limit
    ensures var w := Follow(fs, [], dest + todo, n);
      && (!w.Nowhere? ==> dest <= w.path)
      && (w.Fresh? ==> w.path !in fs)
    ensures SelfLoop(fs, dest) ==> Follow(fs, [], dest + todo, n).Nowhere?
    ensures IsDir(fs, dest) ==> Follow(fs, [], dest + todo, n) == Follow(fs, dest, todo, n)
  {
    FreshIsFree(fs, [], dest + todo, n);
    if IsDir(fs, dest) {
      FollowInto(fs, dest, todo, n);
      FollowHeld(fs, dest, dest, todo, n, limit);
    } else {
      assert dest + todo == Parent(dest) + ([Last(dest)] + todo);
      FollowToParent(fs, dest, [Last(dest)] + todo, n);
      LoopGoesNowhere(fs, dest, [Last(dest)] + todo, n);
    }
  }
}
