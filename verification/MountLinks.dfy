/**
 * Where mounts and roots really are: mount and stat follow the links a container has left on the way,
 * so what is below the overlay by name may be elsewhere. Exactly when it is not.
 */
module MountLinks {
  import opened Basics
  import opened Strings
  import opened Paths
  import opened Filesystem
  import opened Containment
  import opened Jail
  import opened Archive
  import ArchiveSafety
  import opened ArchiveOutside
  import opened JailEffects
  import opened MountSession

  // ---------------------------------------------------------------- volumes

  /** The names lead to a directory outside base. */
  predicate DirOutside(fs: Fs, base: Path, names: Path, n: nat) {
    var w := Follow(fs, [], base + names, n);
    w.Found? && IsDir(fs, w.path) && !(base <= w.path)
  }

  /** Once MkdirAll has made the place, a mount on it lands below base. */
  predicate LandsInside(fs: Fs, base: Path, names: Path, n: nat) {
    var after := MkdirAll(fs, base + names, n).fs;
    var w := Follow(after, [], base + names, n);
    w.Found? && IsDir(after, w.path) && base <= w.path
  }

  /** A directory made in a place that was found inside is inside. */
  lemma MkdirLands(fs: Fs, base: Path, p: Path, n: nat)
    requires p != [] && Canonical(p) && Mkdir(fs, p, n).ok
    requires var d := Follow(fs, [], Parent(p), n); d.Found? && base <= d.path
    ensures var after := Mkdir(fs, p, n).fs;
      var w := Follow(after, [], p, n); w.Found? && IsDir(after, w.path) && base <= w.path
  {
    var d, after := Follow(fs, [], Parent(p), n).path, Mkdir(fs, p, n).fs;
    var c := Last(p);
    assert p == Parent(p) + [c];
    FollowGrows(fs, after, [], Parent(p), n);
    var m := FollowOnward(after, [], Parent(p), [c], n);
    assert d + [c] in after && after[d + [c]].Dir? && [c][1..] == [];
  }

  /** MkdirAll of a place whose prefixes lead to no directory outside makes it inside. */
  lemma {:induction false} MadeInside(fs: Fs, base: Path, names: Path, n: nat)
    requires RealDirectory(fs, base) && Canonical(names) && MkdirAll(fs, base + names, n).ok
    requires forall i :: 0 <= i <= |names| ==> !DirOutside(fs, base, names[..i], n)
    ensures LandsInside(fs, base, names, n)
    decreases |names|
  {
    var p := base + names;
    assert names[..|names|] == names && base[..|base|] == base;
    if !Follow(fs, [], p, n).Found? {
      FollowInto(fs, base, names, n);
      assert names != [];
      var front := names[..|names| - 1];
      assert Parent(p) == base + front;
      forall i | 0 <= i <= |front|
        ensures !DirOutside(fs, base, front[..i], n)
      {
        assert front[..i] == names[..i];
      }
      MadeInside(fs, base, front, n);
      assert Canonical(p);
      MkdirLands(MkdirAll(fs, Parent(p), n).fs, base, p, n);
    }
  }

  ghost predicate AllLandInside(fs: Fs, base: Path, n: nat) {
    forall names :: Canonical(names) && MkdirAll(fs, base + names, n).ok ==> LandsInside(fs, base, names, n)
  }

  ghost predicate NoDirOutside(fs: Fs, base: Path, n: nat) {
    forall names :: Canonical(names) ==> !DirOutside(fs, base, names, n)
  }

  /** Every place below base that can be made is really there, exactly when no name leads to a directory outside. */
  lemma PlacesLandInside(fs: Fs, base: Path, n: nat)
    requires RealDirectory(fs, base)
    ensures AllLandInside(fs, base, n) <==> NoDirOutside(fs, base, n)
  {
    if NoDirOutside(fs, base, n) {
      forall names | Canonical(names) && MkdirAll(fs, base + names, n).ok
        ensures LandsInside(fs, base, names, n)
      {
        MadeInside(fs, base, names, n);
      }
    }
    if names :| Canonical(names) && DirOutside(fs, base, names, n) {
      assert MkdirAll(fs, base + names, n) == Effect(fs, true);
      assert !LandsInside(fs, base, names, n);
    }
  }

  /** Where no directory outside can be reached, a volume is mounted below the overlay, not only by name. */
  lemma VolumeLandsInside(fs: Fs, mounted: bool, merged: Path, v: Volume, a: VolumeAnswers, n: nat)
    returns (names: Path)
    requires RealDirectory(fs, merged) && NoDirOutside(fs, merged, n)
    requires TryVolume(mounted, merged, v, a).Mounted? && MkdirAll(fs, VolumeTarget(merged, v.target), n).ok
    ensures VolumeTarget(merged, v.target) == merged + names && names != []
    ensures LandsInside(fs, merged, names, n)
  {
    names := VolumeNames(mounted, merged, v, a);
    PlacesLandInside(fs, merged, n);
  }

  /** The names of a volume's place below the overlay. */
  lemma VolumeNames(mounted: bool, merged: Path, v: Volume, a: VolumeAnswers) returns (names: Path)
    requires Canonical(merged) && TryVolume(mounted, merged, v, a).Mounted?
    ensures VolumeTarget(merged, v.target) == merged + names && names != [] && Canonical(names)
  {
    VolumeInside(mounted, merged, v, a);
    JoinPathCanonical(merged, TrimPrefix(CleanText(v.target), "/"));
    names := VolumeTarget(merged, v.target)[|merged|..];
  }

  /** Held links lead to no directory outside. */
  lemma HeldReachesNothing(fs: Fs, base: Path, n: nat)
    requires RealDirectory(fs, base) && HeldLinks(fs, base, n)
    ensures NoDirOutside(fs, base, n)
  {
    assert base[..|base|] == base;
    forall names | Canonical(names)
      ensures !DirOutside(fs, base, names, n)
    {
      FollowFromTop(fs, base, names, n, n);
    }
  }

  /** With a link "/r/l" to "/etc", the place "/r/l" is "/etc". */
  lemma PlaceIsElsewhere(fs: Fs)
    requires fs == map[[] := Dir, ["r"] := Dir, ["r", "l"] := Link("/etc"), ["etc"] := Dir]
    ensures MkdirAll(fs, ["r"] + ["l"], 40) == Effect(fs, true) && DirOutside(fs, ["r"], ["l"], 40)
  {
    OldLinkTree(fs);
    assert ["r"] + ["l"] == ["r", "l"] && [] + ["etc"] == ["etc"];
    ToEtc(fs);
  }

  lemma ToEtc(fs: Fs)
    requires IsDir(fs, []) && IsDir(fs, [] + ["etc"]) && RealDirectory(fs, ["r"])
    requires ["r"] + ["l"] in fs && fs[["r"] + ["l"]] == Link("/etc")
    ensures MkdirAll(fs, ["r"] + ["l"], 40) == Effect(fs, true) && DirOutside(fs, ["r"], ["l"], 40)
  {
    assert ["r"][..1] == ["r"];
    FollowInto(fs, ["r"], ["l"], 40);
    EtcSplits();
    var todo := ["", "etc"] + [];
    assert todo[1..] == ["etc"] && ["etc"][1..] == [] && ["l"][1..] == [];
    assert Follow(fs, [], ["etc"], 39) == Found([] + ["etc"]);
    assert Follow(fs, [], todo, 39) == Found([] + ["etc"]);
    assert ([] + ["etc"])[0] == "etc";
  }

  // ---------------------------------------------------------------- the root of a session

  predicate LeadsToDir(fs: Fs, p: Path, n: nat) {
    var w := Follow(fs, [], p, n);
    w.Found? && IsDir(fs, w.path)
  }

  /** What stat answers about the candidates. */
  predicate Stats(fs: Fs, merged: Path, s: Setup, n: nat) {
    && s.dataDir == LeadsToDir(fs, merged + ["data"], n)
    && s.homeDir == LeadsToDir(fs, merged + ["home", "container"], n)
    && s.mergedDir == LeadsToDir(fs, merged, n)
  }

  /** The names of the root below the overlay. */
  function RootNames(s: Setup): Path {
    if s.dataDir then ["data"] else if s.homeDir then ["home", "container"] else []
  }

  /** The real root is below the overlay, exactly unless the names of the root lead out of it. */
  lemma RealRoot(fs: Fs, merged: Path, s: Setup, n: nat)
    requires Stats(fs, merged, s, n) && HasRoot(s) && n <= EVAL_LINKS
    ensures var root := RootFor(merged, s);
      && root == merged + RootNames(s) && EvalSymlinks(fs, root).Some?
      && (merged <= EvalSymlinks(fs, root).value <==> !DirOutside(fs, merged, RootNames(s), n))
  {
    assert merged + [] == merged;
    FollowBudget(fs, [], RootFor(merged, s), n, EVAL_LINKS);
  }

  /** A root that is no link, and not below one, is where its name says. */
  lemma RootByName(fs: Fs, merged: Path, s: Setup, n: nat)
    requires RealDirectory(fs, merged) && Stats(fs, merged, s, n) && HasRoot(s) && n <= EVAL_LINKS
    requires forall i :: 1 <= i <= |RootNames(s)| ==> !IsLink(fs, merged + RootNames(s)[..i])
    ensures EvalSymlinks(fs, RootFor(merged, s)) == Some(RootFor(merged, s))
  {
    var names := RootNames(s);
    assert merged + [] == merged && merged[..|merged|] == merged;
    FollowInto(fs, merged, names, n);
    ArchiveSafety.FollowByName(fs, merged, names, n);
    FollowBudget(fs, [], merged + names, n, EVAL_LINKS);
  }

  /** Every accepted request ends below the overlay or nowhere. */
  ghost predicate ServesInside(fs: Fs, merged: Path, root: Path, n: nat) {
    forall request, missing ::
      var r := ResolveClean(fs, root, CleanFileManager(request), missing, n);
      r.Allowed? ==> EndsBelow(fs, merged, r.full, n)
  }

  predicate EndsBelow(fs: Fs, base: Path, p: Path, n: nat) {
    var w := Follow(fs, [], p, n);
    !w.Nowhere? ==> base <= w.path
  }

  lemma TopIsRoot(root: Path)
    ensures CleanFileManager("/") == []
    ensures Canonical(root) ==> JoinPath(root, Text(CleanFileManager("/"))) == root
  {
    var parts := ["", "", "", ""];
    SplitJoin(parts, '/');
    assert Split("///", '/') == parts by {
      assert parts[1..][1..] == ["", ""] && Join(["", ""], '/') == "/";
      assert parts[1..] == ["", "", ""] && Join(["", "", ""], '/') == "//";
      assert Join(parts, '/') == "///";
    }
    assert "/" + "/" + "/" == "///";
    assert parts[1..][1..][1..][1..] == [];
    assert Squash([], parts) == [];
    JoinText([], []);
    if Canonical(root) {
      JoinText(root, []);
      assert root + [] == root;
    }
  }

  /** The file manager serves nothing outside the overlay, exactly unless the names of the root lead out of it. */
  lemma ServesInsideExactly(fs: Fs, merged: Path, s: Setup, n: nat)
    requires IsDir(fs, []) && Canonical(merged) && Stats(fs, merged, s, n) && HasRoot(s) && n <= EVAL_LINKS
    ensures ServesInside(fs, merged, RootFor(merged, s), n) <==> !DirOutside(fs, merged, RootNames(s), n)
  {
    var root := RootFor(merged, s);
    RealRoot(fs, merged, s, n);
    assert Canonical(root) by {
      assert Name("data") && Name("home") && Name("container");
    }
    if DirOutside(fs, merged, RootNames(s), n) {
      TopIsServed(fs, merged, root, n);
    } else {
      forall request, missing: bool | ResolveClean(fs, root, CleanFileManager(request), missing, n).Allowed?
        ensures EndsBelow(fs, merged, ResolveClean(fs, root, CleanFileManager(request), missing, n).full, n)
      {
        AcceptedStaysInside(fs, root, request, missing, n);
      }
    }
  }

  lemma TopIsServed(fs: Fs, merged: Path, root: Path, n: nat)
    requires IsDir(fs, []) && Canonical(root) && n <= EVAL_LINKS
    requires var w := Follow(fs, [], root, n); w.Found? && !(merged <= w.path)
    ensures !ServesInside(fs, merged, root, n)
  {
    TopIsRoot(root);
    FollowBudget(fs, [], root, n, EVAL_LINKS);
    assert root + [] == root;
    InsideIsAccepted(fs, root, "/", false, n);
    var r := ResolveClean(fs, root, CleanFileManager("/"), false, n);
    assert r.Allowed? && !EndsBelow(fs, merged, r.full, n);
  }
}
