/** Lexical path operations: filepath.Clean, filepath.Join and filepath.Rel over name sequences. */
module Paths {
  import opened Strings

  /** An absolute path as the names below "/"; [] is "/" itself. */
  type Path = seq<string>

  /** A name a directory entry can have. */
  predicate Name(c: string) {
    c != "" && c != "." && c != ".." && '/' !in c
  }

  predicate Canonical(p: Path) {
    forall i :: 0 <= i < |p| ==> Name(p[i])
  }

  function Parent(p: Path): Path {
    if p == [] then [] else p[..|p| - 1]
  }

  /** One step of Clean on a rooted path: "" and "." vanish, ".." pops and stops at "/". */
  function Push(stack: Path, c: string): Path {
    if c == "" || c == "." then stack
    else if c == ".." then Parent(stack)
    else stack + [c]
  }

  /** Clean as a stack machine, started on an already clean path. */
  function Squash(stack: Path, parts: seq<string>): Path
    decreases |parts|
  {
    if parts == [] then stack else Squash(Push(stack, parts[0]), parts[1..])
  }

  /** filepath.Clean of a string that starts with "/". */
  function CleanRooted(s: string): Path {
    Squash([], Split(s, '/'))
  }

  /** The text of an absolute path. */
  function Text(p: Path): string {
    "/" + Join(p, '/')
  }

  /** filepath.Join(base, s) for an absolute clean base. */
  function JoinPath(base: Path, s: string): Path {
    Squash(base, Split(s, '/'))
  }

  function Dots(n: nat): (d: seq<string>)
    ensures |d| == n && forall i :: 0 <= i < n ==> d[i] == ".."
  {
    seq(n, _ => "..")
  }

  /** filepath.Rel of two absolute clean paths; [] stands for ".". */
  function Rel(base: Path, target: Path): seq<string>
    decreases |base|
  {
    if base == [] then target
    else if target != [] && base[0] == target[0] then Rel(base[1..], target[1..])
    else Dots(|base|) + target
  }

  /** rel == ".." or rel starts with "../". */
  predicate Escapes(rel: seq<string>) {
    rel != [] && rel[0] == ".."
  }

  lemma {:induction false} SquashCanonical(stack: Path, parts: seq<string>)
    requires Canonical(stack)
    requires forall i :: 0 <= i < |parts| ==> '/' !in parts[i]
    ensures Canonical(Squash(stack, parts))
    decreases |parts|
  {
    if parts != [] {
      SquashCanonical(Push(stack, parts[0]), parts[1..]);
    }
  }

  lemma {:induction false} SquashConcat(stack: Path, a: seq<string>, b: seq<string>)
    ensures Squash(stack, a + b) == Squash(Squash(stack, a), b)
    decreases |a|
  {
    if a == [] {
      assert a + b == b;
    } else {
      assert (a + b)[1..] == a[1..] + b;
      SquashConcat(Push(stack, a[0]), a[1..], b);
    }
  }

  /** A name and the ".." behind it vanish together. */
  lemma SquashUp(stack: Path, a: seq<string>, c: string, b: seq<string>)
    requires Name(c)
    ensures Squash(stack, a + [c, ".."] + b) == Squash(stack, a + b)
  {
    var s := Squash(stack, a);
    SquashConcat(stack, a, [c, ".."] + b);
    SquashConcat(stack, a, b);
    assert a + [c, ".."] + b == a + ([c, ".."] + b);
    assert ([c, ".."] + b)[1..] == [".."] + b && ([".."] + b)[1..] == b;
    assert Parent(s + [c]) == s;
  }

  /** At "/" there is no way up. */
  lemma SquashTop(b: seq<string>)
    ensures Squash([], [".."] + b) == Squash([], b)
  {
    assert ([".."] + b)[1..] == b;
  }

  /** Clean leaves a canonical path alone. */
  lemma {:induction false} SquashNames(stack: Path, names: Path)
    requires Canonical(names)
    ensures Squash(stack, names) == stack + names
    decreases |names|
  {
    if names != [] {
      SquashNames(stack + [names[0]], names[1..]);
      assert stack + [names[0]] + names[1..] == stack + names;
    }
  }

  /** Re-reading the text of a canonical path below a base gives base followed by the path. */
  lemma JoinText(base: Path, p: Path)
    requires Canonical(p)
    ensures JoinPath(base, Text(p)) == base + p
  {
    var parts := Split(Text(p), '/');
    SplitConcat("", Join(p, '/'), '/');
    assert Text(p) == "" + ['/'] + Join(p, '/');
    if p == [] {
      assert parts == ["", ""];
      assert Squash(base, parts) == Squash(base, parts[1..]) == base;
    } else {
      SplitJoin(p, '/');
      assert parts == [""] + p;
      assert parts[1..] == p;
      SquashNames(base, p);
    }
  }

  /** Without ".." parts, cleaning only appends: it never leaves the base. */
  lemma {:induction false} SquashBelow(base: Path, parts: seq<string>)
    requires forall i :: 0 <= i < |parts| ==> parts[i] != ".."
    ensures base <= Squash(base, parts)
    ensures Squash(base, parts) == base + Squash([], parts)
    decreases |parts|
  {
    if parts != [] {
      var c, rest := parts[0], parts[1..];
      var tail := Squash([], rest);
      SquashBelow(Push(base, c), rest);
      SquashBelow(Push([], c), rest);
      if c == "" || c == "." {
        assert Push(base, c) == base && Push([], c) == [];
      } else {
        assert Push(base, c) == base + [c] && Push([], c) == [c];
        Regroup(base, c, tail);
      }
    }
  }

  lemma Regroup(base: Path, c: string, tail: Path)
    ensures base + [c] + tail == base + ([c] + tail) && base <= base + [c] + tail
  {
  }

  /** The containment test by Rel is exactly the prefix test. */
  lemma {:induction false} RelEscapes(base: Path, target: Path)
    requires Canonical(target)
    ensures Escapes(Rel(base, target)) <==> !(base <= target)
    decreases |base|
  {
    if base != [] && target != [] && base[0] == target[0] {
      RelEscapes(base[1..], target[1..]);
      assert base <= target <==> base[1..] <= target[1..] by {
        assert base == [base[0]] + base[1..];
        assert target == [target[0]] + target[1..];
        if base[1..] <= target[1..] {
          assert target[..|base|] == [target[0]] + target[1..][..|base| - 1];
        }
      }
    }
  }

  lemma CleanRootedCanonical(s: string)
    ensures Canonical(CleanRooted(s))
  {
    SplitParts(s, '/');
    SquashCanonical([], Split(s, '/'));
  }

  lemma JoinPathCanonical(base: Path, s: string)
    requires Canonical(base)
    ensures Canonical(JoinPath(base, s))
  {
    SplitParts(s, '/');
    SquashCanonical(base, Split(s, '/'));
  }

  // ---------------------------------------------------------------- Rel leads there

  lemma {:induction false} DotsClimb(up: Path, base: Path)
    ensures Squash(up + base, Dots(|base|)) == up
    decreases |base|
  {
    if base == [] {
      assert up + base == up;
    } else {
      var front := base[..|base| - 1];
      assert Parent(up + base) == up + front && Dots(|base|)[1..] == Dots(|front|);
      DotsClimb(up, front);
    }
  }

  lemma {:induction false} RelLeadsFrom(up: Path, base: Path, target: Path)
    requires Canonical(base) && Canonical(target)
    ensures Squash(up + base, Rel(base, target)) == up + target
    decreases |base|
  {
    if base == [] {
      assert up + base == up;
      SquashNames(up, target);
    } else if target != [] && base[0] == target[0] {
      RelLeadsFrom(up + [base[0]], base[1..], target[1..]);
      assert up + base == up + [base[0]] + base[1..] && up + target == up + [base[0]] + target[1..];
    } else {
      SquashConcat(up + base, Dots(|base|), target);
      DotsClimb(up, base);
      SquashNames(up, target);
    }
  }

  /** What Rel gives leads from the base to the target. */
  lemma RelLeads(base: Path, target: Path)
    requires Canonical(base) && Canonical(target)
    ensures Squash(base, Rel(base, target)) == target
  {
    assert [] + base == base && [] + target == target;
    RelLeadsFrom([], base, target);
  }
}
