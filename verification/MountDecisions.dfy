/** What a setup decides, in terms of its configuration and the answers it got. */
module MountDecisions {
  import opened Basics
  import opened Strings
  import opened Paths
  import opened MountSession

  // ---------------------------------------------------------------- the place of a volume

  /** A relative path, cleaned, leads where it led. */
  lemma {:induction false} CleanKeepsPlace(base: Path, stack: seq<string>, parts: seq<string>)
    requires forall i :: 0 <= i < |stack| ==> stack[i] != "" && stack[i] != "."
    ensures Squash(base, SquashRelative(stack, parts)) == Squash(Squash(base, stack), parts)
    ensures forall i :: 0 <= i < |SquashRelative(stack, parts)| ==>
      SquashRelative(stack, parts)[i] != "" && SquashRelative(stack, parts)[i] != "."
    decreases |parts|
  {
    if parts != [] {
      var c, rest := parts[0], parts[1..];
      if c == "" || c == "." {
        CleanKeepsPlace(base, stack, rest);
      } else if c == ".." && stack != [] && stack[|stack| - 1] != ".." {
        var front := stack[..|stack| - 1];
        CleanKeepsPlace(base, front, rest);
        LastStep(base, front, stack[|stack| - 1]);
        assert stack == front + [stack[|stack| - 1]];
      } else {
        CleanKeepsPlace(base, stack + [c], rest);
        LastStep(base, stack, c);
      }
    }
  }

  lemma LastStep(base: Path, stack: seq<string>, c: string)
    ensures Squash(base, stack + [c]) == Push(Squash(base, stack), c)
  {
    SquashConcat(base, stack, [c]);
    assert [c][1..] == [];
  }

  lemma {:induction false} PartsStay(stack: seq<string>, parts: seq<string>)
    requires (forall i :: 0 <= i < |stack| ==> '/' !in stack[i]) && forall i :: 0 <= i < |parts| ==> '/' !in parts[i]
    ensures forall i :: 0 <= i < |SquashRelative(stack, parts)| ==> '/' !in SquashRelative(stack, parts)[i]
    decreases |parts|
  {
    if parts != [] {
      if parts[0] == "" || parts[0] == "." {
        PartsStay(stack, parts[1..]);
      } else if parts[0] == ".." && stack != [] && stack[|stack| - 1] != ".." {
        PartsStay(stack[..|stack| - 1], parts[1..]);
      } else {
        PartsStay(stack + [parts[0]], parts[1..]);
      }
    }
  }

  /** The place of a volume: the cleaned target below the overlay, or the target joined to it as it is. */
  lemma VolumePlace(merged: Path, target: string)
    ensures "/" <= target ==> VolumeTarget(merged, target) == merged + CleanRooted(target)
    ensures !("/" <= target) ==> VolumeTarget(merged, target) == JoinPath(merged, target)
  {
    if "/" <= target {
      AbsolutePlace(merged, target);
    } else {
      RelativePlace(merged, target);
    }
  }

  lemma AbsolutePlace(merged: Path, target: string)
    requires "/" <= target
    ensures VolumeTarget(merged, target) == merged + CleanRooted(target)
  {
    var names := CleanRooted(target);
    CleanRootedCanonical(target);
    var text := TrimPrefix(Text(names), "/");
    assert text == Join(names, '/');
    if names == [] {
      assert Split("", '/') == [""] && [""][1..] == [] && merged + [] == merged;
      assert JoinPath(merged, "") == Squash(merged, []);
    } else {
      SplitJoin(names, '/');
      SquashNames(merged, names);
    }
  }

  lemma RelativePlace(merged: Path, target: string)
    requires !("/" <= target)
    ensures VolumeTarget(merged, target) == JoinPath(merged, target)
  {
    var parts := SquashRelative([], Split(target, '/'));
    CleanKeepsPlace(merged, [], Split(target, '/'));
    SplitParts(target, '/');
    PartsStay([], Split(target, '/'));
    if parts == [] {
      SplitSeparatorFree(".", '/');
      assert ["."][1..] == [] && !("/" <= ".");
      assert CleanText(target) == ".";
    } else {
      SplitJoin(parts, '/');
      assert Join(parts, '/')[0] == parts[0][0] && parts[0][0] in parts[0];
    }
  }

  // ---------------------------------------------------------------- one volume

  /** The kinds as configured; a volume without a kind is named when its source is a bare word. */
  predicate Bare(source: string) {
    source != "" && '/' !in source && '\\' !in source
  }

  /** A name that can stand for a container or a volume. */
  predicate PlainName(id: string) {
    id != "" && id != "." && id != ".." && '/' !in id && '\\' !in id
  }

  predicate Named(v: Volume) {
    v.kind == "volume" || (v.kind == "" && Bare(v.source))
  }

  predicate Bound(v: Volume) {
    v.kind == "bind" || (v.kind == "" && !Bare(v.source))
  }

  predicate PlaceMade(v: Volume, a: VolumeAnswers) {
    v.target != "" && v.target[0] == '/' && '\\' !in v.target && a.mkdir
  }

  /** All that mounting a volume takes: a good place and source, and every answer, also that of the remount. */
  predicate Usable(v: Volume, a: VolumeAnswers) {
    PlaceMade(v, a) && a.mount &&
    if v.kind == "nfs" then v.source != ""
    else
      && (Named(v) || Bound(v)) && a.stat && (v.readOnly ==> a.remount)
      && (Named(v) ==> PlainName(v.source)) && (Bound(v) ==> v.source != "" && v.source[0] == '/')
  }

  lemma Slash(s: string)
    ensures "/" <= s <==> s != "" && s[0] == '/'
  {
  }

  /** Exactly when a volume is mounted, when it is passed over, and when the setup fails. */
  lemma VolumeExactly(mounted: bool, merged: Path, v: Volume, a: VolumeAnswers)
    requires Canonical(merged)
    ensures var r, inside := TryVolume(mounted, merged, v, a), merged < VolumeTarget(merged, v.target);
      && (r == Mounted <==> inside && !mounted && Usable(v, a))
      && (r == Skipped <==> inside && (mounted || (v.kind == "tmpfs" && PlaceMade(v, a))))
      && (r == Refused <==> !(inside && (mounted || Usable(v, a) || (v.kind == "tmpfs" && PlaceMade(v, a)))))
  {
    JoinPathCanonical(merged, TrimPrefix(CleanText(v.target), "/"));
    RelEscapes(merged, VolumeTarget(merged, v.target));
    Slash(v.target);
    Slash(v.source);
  }

  // ---------------------------------------------------------------- all volumes

  ghost predicate SomeUsable(merged: Path, vs: seq<(Volume, VolumeAnswers)>, p: Path) {
    exists i :: 0 <= i < |vs| && VolumeTarget(merged, vs[i].0.target) == p && Usable(vs[i].0, vs[i].1)
  }

  lemma SomeLater(merged: Path, vs: seq<(Volume, VolumeAnswers)>, p: Path)
    requires vs != [] && SomeUsable(merged, vs[1..], p)
    ensures SomeUsable(merged, vs, p)
  {
    var i :| 0 <= i < |vs| - 1 && VolumeTarget(merged, vs[1..][i].0.target) == p && Usable(vs[1..][i].0, vs[1..][i].1);
    assert vs[i + 1] == vs[1..][i];
  }

  /** Whatever isMounted answers and however it ends: each volume that a setup mounted had all it takes. */
  lemma {:induction false} MountedWasUsable(
      seen: Seen, table: Table, merged: Path, vs: seq<(Volume, VolumeAnswers)>, p: Path)
    requires Canonical(merged) && p in TryVolumes(seen, table, merged, vs).made
    ensures SomeUsable(merged, vs, p)
    decreases |vs|
  {
    var target := VolumeTarget(merged, vs[0].0.target);
    var r := TryVolume(seen(table, target), merged, vs[0].0, vs[0].1);
    VolumeExactly(seen(table, target), merged, vs[0].0, vs[0].1);
    if r == Mounted && p == target {
      assert SomeUsable(merged, vs, p);
    } else {
      MountedWasUsable(seen, if r == Mounted then table + [target] else table, merged, vs[1..], p);
      SomeLater(merged, vs, p);
    }
  }

  /** What is mounted when the turn of a volume comes. */
  function AtTurn(seen: Seen, table: Table, merged: Path, vs: seq<(Volume, VolumeAnswers)>, i: nat): Table
    requires i <= |vs|
  {
    table + TryVolumes(seen, table, merged, vs[..i]).made
  }

  lemma TurnAfterFirst(seen: Seen, table: Table, merged: Path, vs: seq<(Volume, VolumeAnswers)>, i: nat)
    requires 0 < i <= |vs|
    ensures var target := VolumeTarget(merged, vs[0].0.target);
      match TryVolume(seen(table, target), merged, vs[0].0, vs[0].1)
      case Refused => AtTurn(seen, table, merged, vs, i) == table
      case Skipped => AtTurn(seen, table, merged, vs, i) == AtTurn(seen, table, merged, vs[1..], i - 1)
      case Mounted => AtTurn(seen, table, merged, vs, i) == AtTurn(seen, table + [target], merged, vs[1..], i - 1)
  {
    assert vs[..i][0] == vs[0] && vs[..i][1..] == vs[1..][..i - 1];
    var target := VolumeTarget(merged, vs[0].0.target);
    var rest := TryVolumes(seen, table + [target], merged, vs[1..][..i - 1]).made;
    assert table + [target] + rest == table + ([target] + rest);
  }

  /** A volume that lacks anything it takes fails the setup, unless it is seen at its turn or is a tmpfs. */
  lemma {:induction false} UnusableFails(
      seen: Seen, table: Table, merged: Path, vs: seq<(Volume, VolumeAnswers)>, i: nat)
    requires Canonical(merged) && i < |vs| && vs[i].0.kind != "tmpfs" && !Usable(vs[i].0, vs[i].1)
    requires !seen(AtTurn(seen, table, merged, vs, i), VolumeTarget(merged, vs[i].0.target))
    ensures !TryVolumes(seen, table, merged, vs).ok
    decreases |vs|
  {
    var target := VolumeTarget(merged, vs[0].0.target);
    var r := TryVolume(seen(table, target), merged, vs[0].0, vs[0].1);
    if i == 0 {
      assert table + [] == table;
      VolumeExactly(seen(table, target), merged, vs[0].0, vs[0].1);
    } else if r != Refused {
      TurnAfterFirst(seen, table, merged, vs, i);
      UnusableFails(seen, if r == Mounted then table + [target] else table, merged, vs[1..], i - 1);
    }
  }

  /** No other volume has the place of this one. */
  predicate OwnPlace(merged: Path, vs: seq<(Volume, VolumeAnswers)>, i: nat)
    requires i < |vs|
  {
    forall j :: 0 <= j < |vs| && j != i ==> VolumeTarget(merged, vs[j].0.target) != VolumeTarget(merged, vs[i].0.target)
  }

  /**
   * A bind or named volume that is to be read-only, is not seen at its turn, and whose remount fails: the setup
   * fails, and no mount of it is left, unless another volume has the same place.
   */
  lemma ReadOnlyOrNothing(seen: Seen, table: Table, merged: Path, vs: seq<(Volume, VolumeAnswers)>, i: nat)
    requires Canonical(merged) && i < |vs| && (Named(vs[i].0) || Bound(vs[i].0))
    requires vs[i].0.readOnly && !vs[i].1.remount
    requires !seen(AtTurn(seen, table, merged, vs, i), VolumeTarget(merged, vs[i].0.target))
    ensures var a := TryVolumes(seen, table, merged, vs);
      !a.ok && (OwnPlace(merged, vs, i) ==> VolumeTarget(merged, vs[i].0.target) !in a.made)
  {
    UnusableFails(seen, table, merged, vs, i);
    var p := VolumeTarget(merged, vs[i].0.target);
    if p in TryVolumes(seen, table, merged, vs).made {
      MountedWasUsable(seen, table, merged, vs, p);
    }
  }

  /** With a mount test that tells the truth: it was not mounted before, and is not mounted afterwards. */
  lemma ReadOnlyStaysAway(seen: Seen, table: Table, merged: Path, vs: seq<(Volume, VolumeAnswers)>, i: nat)
    requires Canonical(merged) && i < |vs| && (Named(vs[i].0) || Bound(vs[i].0)) && OwnPlace(merged, vs, i)
    requires vs[i].0.readOnly && !vs[i].1.remount && VolumeTarget(merged, vs[i].0.target) !in table
    requires Truthful(seen, table, TargetsOf(merged, vs))
    ensures var a := TryVolumes(seen, table, merged, vs);
      !a.ok && VolumeTarget(merged, vs[i].0.target) !in table + a.made
  {
    var p, made := VolumeTarget(merged, vs[i].0.target), TryVolumes(seen, table, merged, vs[..i]).made;
    forall q | q in made
      ensures q in TargetsOf(merged, vs) && q != p
    {
      MountedWasUsable(seen, table, merged, vs[..i], q);
      var j :| 0 <= j < i && VolumeTarget(merged, vs[..i][j].0.target) == q;
      assert vs[..i][j] == vs[j];
    }
    assert Among(made, TargetsOf(merged, vs)) && p in TargetsOf(merged, vs);
    assert TellsTruth(seen, table + made, p);
    ReadOnlyOrNothing(seen, table, merged, vs, i);
  }

  /** Volumes that have all they take, in places inside the overlay, never fail a setup. */
  lemma {:induction false} UsableSucceeds(seen: Seen, table: Table, merged: Path, vs: seq<(Volume, VolumeAnswers)>)
    requires Canonical(merged) && forall i :: 0 <= i < |vs| ==>
      && merged < VolumeTarget(merged, vs[i].0.target)
      && (Usable(vs[i].0, vs[i].1) || (vs[i].0.kind == "tmpfs" && PlaceMade(vs[i].0, vs[i].1)))
    ensures TryVolumes(seen, table, merged, vs).ok
    decreases |vs|
  {
    if vs != [] {
      var target, rest := VolumeTarget(merged, vs[0].0.target), vs[1..];
      VolumeExactly(seen(table, target), merged, vs[0].0, vs[0].1);
      assert forall i :: 0 <= i < |rest| ==> rest[i] == vs[i + 1];
      UsableSucceeds(seen, table, merged, rest);
      UsableSucceeds(seen, table + [target], merged, rest);
    }
  }

  // ---------------------------------------------------------------- the whole setup

  /** The disk image that a setup mounts. */
  function ImageMount(seen: Seen, table: Table, base: Path, s: Setup): seq<Path> {
    if s.diskImage && !seen(table, base + ["data"]) && s.mkData && s.mountData then [base + ["data"]] else []
  }

  /** An image there is, is served from where it is mounted, or from the overlay where loop devices are missing. */
  predicate ImageReady(seen: Seen, table: Table, base: Path, s: Setup) {
    s.diskImage && !seen(table, base + ["data"]) ==> s.mkData && (s.mountData || !s.loopDevices)
  }

  predicate OverlayReady(seen: Seen, table: Table, base: Path, s: Setup) {
    seen(table, base + ["merged"])
    || (s.imageKnown && s.lower && s.mkUpper && s.mkWork && s.mkMerged && s.mountOverlay)
  }

  /** Image first, then the overlay whose directories may be in it, then the volumes below it. */
  lemma SetupExactly(seen: Seen, table: Table, dir: Path, id: string, s: Setup)
    ensures var base, a := dir + [id], TrySetupSeen(seen, table, dir, id, s);
      var image := ImageMount(seen, table, base, s);
      var overlay := if seen(table + image, base + ["merged"]) then [] else [base + ["merged"]];
      var volumes := if s.stateRead then TryVolumes(seen, table + image + overlay, base + ["merged"], s.volumes)
                     else Attempt([], true);
      && (a.ok <==>
            && PlainName(id) && (s.stateRead || seen(table, base + ["merged"]))
            && ImageReady(seen, table, base, s) && OverlayReady(seen, table + image, base, s)
            && volumes.ok && (s.dataDir || s.homeDir || s.mergedDir))
      && (a.ok ==> a.made == image + overlay + volumes.made)
  {
    var base := dir + [id];
    BaseExactly(seen, table, base, s);
    var image := ImageMount(seen, table, base, s);
    var overlay := if seen(table + image, base + ["merged"]) then [] else [base + ["merged"]];
    assert table + (image + overlay) == table + image + overlay;
    assert image + overlay + [] == image + overlay;
  }

  lemma BaseExactly(seen: Seen, table: Table, base: Path, s: Setup)
    ensures var a, image := TryBase(seen, table, base, s), ImageMount(seen, table, base, s);
      && (a.ok <==> ImageReady(seen, table, base, s) && OverlayReady(seen, table + image, base, s))
      && (a.ok ==> a.made == image + if seen(table + image, base + ["merged"]) then [] else [base + ["merged"]])
  {
  }
}
