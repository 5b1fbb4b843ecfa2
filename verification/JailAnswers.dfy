/** What the resolvers answer, in terms of where a walk of the request itself leads. */
module JailAnswers {
  import opened Basics
  import opened Strings
  import opened Paths
  import opened Filesystem
  import opened Containment
  import opened Jail

  ghost predicate NoLinks(fs: Fs) {
    forall p :: !IsLink(fs, p)
  }

  /** The filesystem as one sees it who is locked into root. */
  ghost predicate Below(inner: Fs, fs: Fs, root: Path) {
    forall p :: (p in inner <==> root + p in fs) && (p in inner ==> inner[p] == fs[root + p])
  }

  // ---------------------------------------------------------------- Clean against the kernel

  /** Without links, a walk that arrives anywhere arrives where Clean says. */
  lemma {:induction false} WalkIsClean(fs: Fs, cur: Path, parts: seq<string>, n: nat)
    requires NoLinks(fs) && !Follow(fs, cur, parts, n).Nowhere?
    ensures Follow(fs, cur, parts, n).path == Squash(cur, parts)
    decreases |parts|
  {
    if parts != [] {
      var c, rest := parts[0], parts[1..];
      if c == "" || c == "." {
        WalkIsClean(fs, cur, rest, n);
      } else if c == ".." {
        WalkIsClean(fs, Parent(cur), rest, n);
      } else {
        var next := cur + [c];
        assert !IsLink(fs, next);
        if next in fs {
          WalkIsClean(fs, next, rest, n);
        } else {
          assert Squash(next, []) == next;
        }
      }
    }
  }

  lemma CleanIsSquash(request: string)
    ensures CleanFileManager(request) == Squash([], Split(request, '/'))
  {
    CleanersAgree(request);
    var p := if request == "" then "/" else request;
    SplitConcat("", p, '/');
    assert "/" + p == "" + ['/'] + p && Split("", '/') == [""];
    assert ([""] + Split(p, '/'))[1..] == Split(p, '/');
    if request == "" {
      SplitConcat("", "", '/');
      assert "/" == "" + ['/'] + "" && Split("/", '/') == ["", ""];
      assert ["", ""][1..] == [""] && [""][1..] == [];
      assert Squash([], ["", ""]) == Squash([], [""]) == Squash([], []);
    }
  }

  /** So in a tree without links the cleaned request is where a walk of the request itself leads. */
  lemma RequestLeadsToClean(fs: Fs, request: string, n: nat)
    requires NoLinks(fs) && !Follow(fs, [], Split(request, '/'), n).Nowhere?
    ensures Follow(fs, [], Split(request, '/'), n).path == CleanFileManager(request)
  {
    WalkIsClean(fs, [], Split(request, '/'), n);
    CleanIsSquash(request);
  }

  // ---------------------------------------------------------------- answers without links

  /** Without links what is there is found where its path says. */
  lemma FoundByName(fs: Fs, p: Path, n: nat)
    requires Tree(fs) && NoLinks(fs) && Canonical(p) && p in fs && IsDir(fs, [])
    ensures Follow(fs, [], p, n) == Found(p)
  {
    if p != [] {
      var c := p[|p| - 1];
      assert p == Parent(p) + [c] && [c][1..] == [];
      assert !IsLink(fs, p);
      UpWalk(fs, p, [c], n);
    }
  }

  /** A free name in a directory is free where its path says. */
  lemma FreeByName(fs: Fs, up: Path, c: string, n: nat)
    requires Tree(fs) && NoLinks(fs) && Canonical(up) && Name(c) && IsDir(fs, up) && up + [c] !in fs && IsDir(fs, [])
    ensures Follow(fs, [], up + [c], n) == Fresh(up + [c]) && !Lstat(fs, up + [c], n) && Lstat(fs, up, n)
  {
    FoundByName(fs, up, n);
    var m := FollowOnward(fs, [], up, [c], n);
    assert Parent(up + [c]) == up && [c][1..] == [];
    FoundIsVisible(fs, up, n);
  }

  /** Both resolvers, as one answer. */
  predicate Answers(fs: Fs, root: Path, request: string, missing: bool, n: nat, r: Resolved) {
    && ResolveClean(fs, root, CleanFileManager(request), missing, n) == r
    && ResolveClean(fs, root, CleanSftp(request), missing, n) == r
  }

  /**
   * Without links: what a process locked into root finds under a request, the resolvers allow, at that very
   * place below root.
   */
  lemma FoundIsAllowed(fs: Fs, inner: Fs, root: Path, request: string, missing: bool, n: nat)
    requires Tree(fs) && NoLinks(fs) && IsDir(fs, []) && Canonical(root) && Below(inner, fs, root)
    requires IsDir(fs, root) && n <= EVAL_LINKS
    requires Follow(inner, [], Split(request, '/'), n).Found? && Follow(inner, [], Split(request, '/'), n).path in inner
    ensures Answers(fs, root, request, missing, n, Allowed(root + Follow(inner, [], Split(request, '/'), n).path))
  {
    InnerHasNoLinks(inner, fs, root);
    RequestLeadsToClean(inner, request, n);
    CleanersAgree(request);
    RequestStaysBelowRoot(root, request);
    var full := root + CleanFileManager(request);
    FoundByName(fs, root, EVAL_LINKS);
    FoundByName(fs, full, n);
    InsideIsAccepted(fs, root, request, missing, n);
  }

  /** And what it finds free is allowed exactly when missing paths are, and else reported missing. */
  lemma FreeIsAllowed(fs: Fs, inner: Fs, root: Path, request: string, missing: bool, n: nat)
    requires Tree(fs) && NoLinks(fs) && IsDir(fs, []) && Canonical(root) && Below(inner, fs, root)
    requires IsDir(fs, root) && n <= EVAL_LINKS
    requires Follow(inner, [], Split(request, '/'), n).Fresh?
    ensures var at := root + Follow(inner, [], Split(request, '/'), n).path;
      Answers(fs, root, request, missing, n, if missing then Allowed(at) else Refused(NotExist))
  {
    FreePlace(fs, inner, root, request, n, n);
    FreePlace(fs, inner, root, request, n, EVAL_LINKS);
    CleanersAgree(request);
    if missing {
      FoundByName(fs, root, EVAL_LINKS);
      MissingInsideIsAccepted(fs, root, request, n);
    } else {
      NotFoundIsMissing(fs, root, request, n);
    }
  }

  lemma FreePlace(fs: Fs, inner: Fs, root: Path, request: string, n: nat, m: nat)
    requires Tree(fs) && NoLinks(fs) && IsDir(fs, []) && Canonical(root) && Below(inner, fs, root)
    requires Follow(inner, [], Split(request, '/'), n).Fresh?
    ensures var clean := CleanFileManager(request);
      && clean == Follow(inner, [], Split(request, '/'), n).path && clean != []
      && Follow(fs, [], root + clean, m) == Fresh(root + clean) && !Lstat(fs, root + clean, m)
      && root < root + clean
  {
    InnerHasNoLinks(inner, fs, root);
    var up, c := FreeInDir(inner, request, n);
    FreeBelow(fs, inner, root, up, c, m);
  }

  lemma FreeBelow(fs: Fs, inner: Fs, root: Path, up: Path, c: string, m: nat)
    requires Tree(fs) && NoLinks(fs) && IsDir(fs, []) && Canonical(root) && Below(inner, fs, root)
    requires up + [c] !in inner && IsDir(inner, up) && Canonical(up) && Name(c)
    ensures var p := root + (up + [c]);
      Follow(fs, [], p, m) == Fresh(p) && !Lstat(fs, p, m) && root < p
  {
    assert root + (up + [c]) == root + up + [c];
    assert IsDir(fs, root + up) && root + (up + [c]) !in fs;
    FreeByName(fs, root + up, c, m);
  }

  lemma InnerHasNoLinks(inner: Fs, fs: Fs, root: Path)
    requires NoLinks(fs) && Below(inner, fs, root)
    ensures NoLinks(inner)
  {
    assert forall p :: p in inner ==> !IsLink(fs, root + p);
  }

  lemma FreeInDir(fs: Fs, request: string, n: nat) returns (up: Path, c: string)
    requires NoLinks(fs) && Follow(fs, [], Split(request, '/'), n).Fresh?
    ensures CleanFileManager(request) == Follow(fs, [], Split(request, '/'), n).path == up + [c]
    ensures up + [c] !in fs && IsDir(fs, up) && Canonical(up) && Name(c)
  {
    RequestLeadsToClean(fs, request, n);
    RequestStaysBelowRoot([], request);
    FreshInDir(fs, [], Split(request, '/'), n);
    var clean := CleanFileManager(request);
    up, c := Parent(clean), clean[|clean| - 1];
  }

  /** A free end of a walk is a name in a directory. */
  lemma {:induction false} FreshInDir(fs: Fs, cur: Path, parts: seq<string>, n: nat)
    requires NoLinks(fs) && Follow(fs, cur, parts, n).Fresh?
    ensures var p := Follow(fs, cur, parts, n).path; p != [] && p !in fs && IsDir(fs, Parent(p))
    decreases |parts|
  {
    if parts != [] {
      var c, rest := parts[0], parts[1..];
      if c == "" || c == "." {
        FreshInDir(fs, cur, rest, n);
      } else if c == ".." {
        FreshInDir(fs, Parent(cur), rest, n);
      } else {
        var next := cur + [c];
        assert !IsLink(fs, next) && Parent(next) == cur;
        if next in fs {
          FreshInDir(fs, next, rest, n);
        }
      }
    }
  }

  // ---------------------------------------------------------------- dots

  /** A name followed by ".." may be left out of a request, wherever it stands. */
  lemma UpIsUndone(a: string, c: string, b: string)
    requires Name(c)
    ensures CleanFileManager(a + "/" + c + "/../" + b) == CleanFileManager(a + "/" + b)
    ensures CleanSftp(a + "/" + c + "/../" + b) == CleanSftp(a + "/" + b)
  {
    var long, short := a + "/" + c + "/../" + b, a + "/" + b;
    UpSplits(a, c, b);
    CleanIsSquash(long);
    CleanIsSquash(short);
    CleanersAgree(long);
    CleanersAgree(short);
    SquashUp([], Split(a, '/'), c, Split(b, '/'));
  }

  lemma UpSplits(a: string, c: string, b: string)
    requires '/' !in c
    ensures Split(a + "/" + c + "/../" + b, '/') == Split(a, '/') + [c, ".."] + Split(b, '/')
    ensures Split(a + "/" + b, '/') == Split(a, '/') + Split(b, '/')
  {
    var up := ".." + ['/'] + b;
    var named := c + ['/'] + up;
    SplitOne("..", b);
    SplitOne(c, up);
    SplitConcat(a, named, '/');
    SplitConcat(a, b, '/');
    assert a + "/" + c + "/../" + b == a + ['/'] + named;
    ThreeParts(Split(a, '/'), c, Split(b, '/'));
  }

  lemma SplitOne(c: string, b: string)
    requires '/' !in c
    ensures Split(c + ['/'] + b, '/') == [c] + Split(b, '/')
  {
    SplitSeparatorFree(c, '/');
    SplitConcat(c, b, '/');
  }

  lemma ThreeParts(a: seq<string>, c: string, b: seq<string>)
    ensures a + ([c] + ([".."] + b)) == a + [c, ".."] + b
  {
  }

  /** A request that starts with ".." asks for the same as without it. */
  lemma TopIsTop(b: string)
    ensures CleanFileManager("../" + b) == CleanFileManager(b)
  {
    CleanIsSquash("../" + b);
    CleanIsSquash(b);
    SplitSeparatorFree("..", '/');
    SplitConcat("..", b, '/');
    assert "../" + b == ".." + ['/'] + b;
    SquashTop(Split(b, '/'));
  }

  // ---------------------------------------------------------------- refusals

  /** What a request leads to outside the real root is refused as forbidden. */
  lemma OutsideIsForbidden(fs: Fs, root: Path, request: string, missing: bool, n: nat)
    requires IsDir(fs, []) && Canonical(root) && n <= EVAL_LINKS && EvalSymlinks(fs, root).Some?
    requires var w := Follow(fs, [], root + CleanFileManager(request), n);
      w.Found? && !(EvalSymlinks(fs, root).value <= w.path)
    ensures Answers(fs, root, request, missing, n, Refused(Permission))
  {
    CleanersAgree(request);
    RequestStaysBelowRoot(root, request);
    var full := root + CleanFileManager(request);
    FollowBudget(fs, [], full, n, EVAL_LINKS);
    FoundIsVisible(fs, full, n);
    FollowCanonical(fs, [], full, EVAL_LINKS);
    RelEscapes(EvalSymlinks(fs, root).value, EvalSymlinks(fs, full).value);
  }

  /** What cannot be found is reported missing, unless missing paths are allowed. */
  lemma NotFoundIsMissing(fs: Fs, root: Path, request: string, n: nat)
    requires Canonical(root) && !Follow(fs, [], root + CleanFileManager(request), EVAL_LINKS).Found?
    ensures Answers(fs, root, request, false, n, Refused(NotExist))
  {
    CleanersAgree(request);
    RequestStaysBelowRoot(root, request);
  }
}
