/**
 * The path jail shared by the file manager (fmSession.resolve) and SFTP (jailFS.resolveAllowMissing).
 * fs is the filesystem at the time of the call; limit is the kernel's own bound on followed links.
 */
module Jail {
  import opened Basics
  import opened Strings
  import opened Paths
  import opened Filesystem

  datatype Refusal = NotExist | Permission
  datatype Resolved = Allowed(full: Path) | Refused(why: Refusal)
  /** filepath.EvalSymlinks gives up after this many links. */
  const EVAL_LINKS: nat := 255

  function EvalSymlinks(fs: Fs, p: Path): Option<Path> {
    var w := Follow(fs, [], p, EVAL_LINKS);
    if w.Found? then Some(w.path) else None
  }

  /** Clean of "/" joined with the request, as the file manager writes it. */
  function CleanFileManager(request: string): Path {
    var p := if request == "" then "/" else request;
    CleanRooted(Text(CleanRooted("/" + "/" + p)))
  }

  /** path.Clean("/" + p), as the SFTP jail writes it. */
  function CleanSftp(request: string): Path {
    CleanRooted("/" + (if request == "" then "/" else request))
  }

  /** The climb to the nearest path that lstat can see. */
  function NearestExisting(fs: Fs, check: Path, limit: nat): Option<Path>
    decreases |check|
  {
    if Lstat(fs, check, limit) then Some(check)
    else if check == [] then None
    else NearestExisting(fs, Parent(check), limit)
  }

  /** Both resolvers, once the request is cleaned. */
  function ResolveClean(fs: Fs, root: Path, clean: Path, allowMissing: bool, limit: nat): Resolved {
    var full := JoinPath(root, Text(clean));
    if Escapes(Rel(root, full)) then Refused(Permission)
    else
      var check := if allowMissing then NearestExisting(fs, full, limit) else Some(full);
      if check.None? then Refused(NotExist)
      else
        var resolved := EvalSymlinks(fs, check.value);
        var rootReal := EvalSymlinks(fs, root);
        if resolved.None? || rootReal.None? then Refused(NotExist)
        else if Escapes(Rel(rootReal.value, resolved.value)) then Refused(Permission)
        else Allowed(full)
  }

  /** fmSession.resolve. */
  method ResolveFileManager(fs: Fs, root: Path, request: string, allowMissing: bool, limit: nat) returns (r: Resolved)
    ensures r == ResolveClean(fs, root, CleanFileManager(request), allowMissing, limit)
  {
    var p := request;
    if p == "" {
      p := "/";
    }
    var clean := CleanRooted(Text(CleanRooted("/" + "/" + p)));
    var full := JoinPath(root, Text(clean));
    var rel := Rel(root, full);
    if Escapes(rel) {
      return Refused(Permission);
    }
    var check := full;
    if allowMissing {
      while !Lstat(fs, check, limit)
        invariant NearestExisting(fs, check, limit) == NearestExisting(fs, full, limit)
        decreases |check|
      {
        var next := Parent(check);
        if next == check {
          return Refused(NotExist);
        }
        check := next;
      }
    }
    var resolved := EvalSymlinks(fs, check);
    if resolved.None? {
      return Refused(NotExist);
    }
    var rootReal := EvalSymlinks(fs, root);
    if rootReal.None? {
      return Refused(NotExist);
    }
    rel := Rel(rootReal.value, resolved.value);
    if Escapes(rel) {
      return Refused(Permission);
    }
    return Allowed(full);
  }

  /** jailFS.resolveAllowMissing. */
  method ResolveSftp(fs: Fs, root: Path, request: string, allowMissing: bool, limit: nat) returns (r: Resolved)
    ensures r == ResolveClean(fs, root, CleanSftp(request), allowMissing, limit)
    ensures r == ResolveClean(fs, root, CleanFileManager(request), allowMissing, limit)
  {
    CleanersAgree(request);
    var p := request;
    if p == "" {
      p := "/";
    }
    var clean := CleanRooted("/" + p);
    var full := JoinPath(root, Text(clean));
    var rel := Rel(root, full);
    if Escapes(rel) {
      return Refused(Permission);
    }
    var check := full;
    if allowMissing {
      while !Lstat(fs, check, limit)
        invariant NearestExisting(fs, check, limit) == NearestExisting(fs, full, limit)
        decreases |check|
      {
        var next := Parent(check);
        if next == check {
          return Refused(NotExist);
        }
        check := next;
      }
    }
    var resolved := EvalSymlinks(fs, check);
    if resolved.None? {
      return Refused(NotExist);
    }
    var rootReal := EvalSymlinks(fs, root);
    if rootReal.None? {
      return Refused(NotExist);
    }
    rel := Rel(rootReal.value, resolved.value);
    if Escapes(rel) {
      return Refused(Permission);
    }
    return Allowed(full);
  }

  /** The two resolvers read every request the same way. */
  lemma CleanersAgree(request: string)
    ensures CleanFileManager(request) == CleanSftp(request)
  {
    var p := if request == "" then "/" else request;
    var twice := "/" + "/" + p;
    CleanRootedCanonical(twice);
    JoinText([], CleanRooted(twice));
    SplitConcat("", "/" + p, '/');
    assert twice == "" + ['/'] + ("/" + p);
    assert Split(twice, '/') == [""] + Split("/" + p, '/');
    assert Split(twice, '/')[1..] == Split("/" + p, '/');
  }

  /** The first Rel test never fires: whatever the request, the joined path is root plus clean names. */
  lemma RequestStaysBelowRoot(root: Path, request: string)
    requires Canonical(root)
    ensures var clean := CleanFileManager(request);
      && Canonical(clean)
      && JoinPath(root, Text(clean)) == root + clean
      && !Escapes(Rel(root, JoinPath(root, Text(clean))))
  {
    var clean := CleanFileManager(request);
    CleanRootedCanonical(Text(CleanRooted("/" + "/" + (if request == "" then "/" else request))));
    JoinText(root, clean);
    RelEscapes(root, root + clean);
  }

  /** The climb stops on a visible prefix, and the next longer prefix is not visible. */
  lemma {:induction false} ClimbStops(fs: Fs, check: Path, limit: nat)
    requires IsDir(fs, [])
    ensures var near := NearestExisting(fs, check, limit);
      && near.Some? && near.value <= check && Lstat(fs, near.value, limit)
      && (near.value != check ==> !Lstat(fs, check[..|near.value| + 1], limit))
    decreases |check|
  {
    if !Lstat(fs, check, limit) {
      ClimbStops(fs, Parent(check), limit);
      var near := NearestExisting(fs, Parent(check), limit).value;
      if near == Parent(check) {
        assert check[..|near| + 1] == check;
      } else {
        assert Parent(check)[..|near| + 1] == check[..|near| + 1];
      }
    }
  }

  /** A directory that a walk can enter is visible to lstat. */
  lemma FoundIsVisible(fs: Fs, p: Path, limit: nat)
    requires IsDir(fs, [])
    requires Follow(fs, [], p, limit).Found?
    requires Canonical(p)
    ensures Lstat(fs, p, limit)
  {
    if p != [] {
      var c := p[|p| - 1];
      assert p == Parent(p) + [c];
      var d, m := FollowThrough(fs, [], Parent(p), [c], limit);
    }
  }

  /** A path lstat cannot see either cannot be followed, or is one free name in its directory. */
  lemma UnseenIsFresh(fs: Fs, p: Path, limit: nat)
    requires IsDir(fs, []) && Canonical(p) && p != []
    requires !Lstat(fs, p, limit)
    requires !Follow(fs, [], p, limit).Nowhere?
    ensures var d := Follow(fs, [], Parent(p), limit);
      && d.Found? && IsDir(fs, d.path)
      && Follow(fs, [], p, limit) == Fresh(d.path + [p[|p| - 1]])
  {
    var c := p[|p| - 1];
    assert p == Parent(p) + [c];
    var d, m := FollowThrough(fs, [], Parent(p), [c], limit);
    assert Follow(fs, d, [c], m) == Fresh(d + [c]);
  }

  /**
   * Containment. If a request is accepted, following the returned path to the end, through every
   * link, reaches a place at or below the real root; and when the path is missing, the place where
   * its nearest existing parent really is, extended by the missing names, is below the real root.
   */
  lemma AcceptedStaysInside(fs: Fs, root: Path, request: string, allowMissing: bool, limit: nat)
    requires IsDir(fs, []) && Canonical(root)
    requires ResolveClean(fs, root, CleanFileManager(request), allowMissing, limit).Allowed?
    ensures var full := ResolveClean(fs, root, CleanFileManager(request), allowMissing, limit).full;
      var rootReal := EvalSymlinks(fs, root);
      var end := Follow(fs, [], full, limit);
      && rootReal.Some? && root <= full
      && (!end.Nowhere? ==> rootReal.value <= end.path)
      && (!allowMissing ==> !end.Fresh?)
      && (allowMissing ==>
            var near := NearestExisting(fs, full, limit);
            && near.Some? && near.value <= full && EvalSymlinks(fs, near.value).Some?
            && rootReal.value <= EvalSymlinks(fs, near.value).value + full[|near.value|..])
  {
    var clean := CleanFileManager(request);
    RequestStaysBelowRoot(root, request);
    var full := root + clean;
    var rootReal := EvalSymlinks(fs, root).value;
    var check := if allowMissing then NearestExisting(fs, full, limit).value else full;
    ClimbStops(fs, full, limit);
    var resolved := EvalSymlinks(fs, check).value;
    FollowCanonical(fs, [], check, EVAL_LINKS);
    RelEscapes(rootReal, resolved);
    assert rootReal <= resolved;
    var end := Follow(fs, [], full, limit);
    if !end.Nowhere? {
      if check == full {
        FollowAgrees(fs, [], full, limit, EVAL_LINKS);
      } else {
        MissingLandsBelow(fs, full, check, limit);
        FollowAgrees(fs, [], check, limit, EVAL_LINKS);
        assert end == Fresh(resolved + [full[|full| - 1]]);
      }
    }
  }

  /** A missing path that can be created sits directly below its nearest existing parent. */
  lemma MissingLandsBelow(fs: Fs, full: Path, check: Path, limit: nat)
    requires IsDir(fs, []) && Canonical(full)
    requires NearestExisting(fs, full, limit) == Some(check) && check != full
    requires !Follow(fs, [], full, limit).Nowhere?
    ensures check == Parent(full)
    ensures var d := Follow(fs, [], check, limit);
      d.Found? && Follow(fs, [], full, limit) == Fresh(d.path + [full[|full| - 1]])
  {
    UnseenIsFresh(fs, full, limit);
    FoundIsVisible(fs, Parent(full), limit);
  }

  /** No false refusal: a request that the kernel can follow to a place inside the root is accepted. */
  lemma InsideIsAccepted(fs: Fs, root: Path, request: string, allowMissing: bool, limit: nat)
    requires IsDir(fs, []) && Canonical(root) && limit <= EVAL_LINKS
    requires EvalSymlinks(fs, root).Some?
    requires var end := Follow(fs, [], root + CleanFileManager(request), limit);
      end.Found? && EvalSymlinks(fs, root).value <= end.path
    ensures ResolveClean(fs, root, CleanFileManager(request), allowMissing, limit)
         == Allowed(root + CleanFileManager(request))
  {
    RequestStaysBelowRoot(root, request);
    var full := root + CleanFileManager(request);
    FollowBudget(fs, [], full, limit, EVAL_LINKS);
    FoundIsVisible(fs, full, limit);
    FollowCanonical(fs, [], full, EVAL_LINKS);
    RelEscapes(EvalSymlinks(fs, root).value, EvalSymlinks(fs, full).value);
  }

  /**
   * Nor a false refusal of a missing path: one that can be created strictly below the real root is
   * accepted, exactly unless its last name is there as a dangling link.
   */
  lemma MissingInsideIsAccepted(fs: Fs, root: Path, request: string, limit: nat)
    requires IsDir(fs, []) && Canonical(root) && limit <= EVAL_LINKS
    requires EvalSymlinks(fs, root).Some?
    requires var end := Follow(fs, [], root + CleanFileManager(request), limit);
      end.Fresh? && EvalSymlinks(fs, root).value < end.path
    ensures var full := root + CleanFileManager(request);
      ResolveClean(fs, root, CleanFileManager(request), true, limit)
      == if Lstat(fs, full, limit) then Refused(NotExist) else Allowed(full)
  {
    RequestStaysBelowRoot(root, request);
    var full := root + CleanFileManager(request);
    var rootReal := EvalSymlinks(fs, root).value;
    FollowBudget(fs, [], full, limit, EVAL_LINKS);
    if !Lstat(fs, full, limit) {
      UnseenIsFresh(fs, full, limit);
      var up := Parent(full);
      FoundIsVisible(fs, up, limit);
      assert NearestExisting(fs, full, limit) == Some(up);
      FollowBudget(fs, [], up, limit, EVAL_LINKS);
      FollowCanonical(fs, [], up, EVAL_LINKS);
      var d := EvalSymlinks(fs, up).value;
      assert rootReal <= d;
      RelEscapes(rootReal, d);
    }
  }
}
