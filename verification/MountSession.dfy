/**
 * The mount transaction of the file manager: mountOverlaySession, mountConfiguredVolumes and
 * cleanupMounts over the host's mount table. Every external answer (files, mount, umount, and what
 * isMounted reads) is a parameter, so all patterns of failures are covered.
 */
module MountSession {
  import opened Basics
  import opened Strings
  import opened Paths

  /** The mount points, oldest first. */
  type Table = seq<Path>

  /** What isMounted answers about a path, while these are the mounts. */
  type Seen = (Table, Path) -> bool

  /** The answers that are true. */
  function Truth(): Seen {
    (table: Table, p: Path) => p in table
  }

  // ---------------------------------------------------------------- umount

  /** The newest mount on p, or -1. */
  function NewestOn(table: Table, p: Path): (i: int)
    ensures -1 <= i < |table|
    ensures i >= 0 ==> table[i] == p
    ensures forall j :: i < j < |table| ==> table[j] != p
  {
    if table == [] then -1
    else if table[|table| - 1] == p then |table| - 1
    else
      var i := NewestOn(table[..|table| - 1], p);
      assert forall j :: 0 <= j < |table| - 1 ==> table[j] == table[..|table| - 1][j];
      i
  }

  /** Something mounted later sits below the mount at i. */
  predicate Busy(table: Table, i: nat)
    requires i < |table|
  {
    exists j :: i < j < |table| && table[i] < table[j]
  }

  /** umount takes the newest mount on p away, unless there is none or it is busy. */
  function Umount(table: Table, p: Path): Option<Table> {
    var i := NewestOn(table, p);
    if i < 0 || Busy(table, i) then None else Some(table[..i] + table[i + 1..])
  }

  // ---------------------------------------------------------------- one setup

  datatype Volume = Volume(kind: string, source: string, target: string, readOnly: bool)

  /** What mkdir, stat, mount and the read-only remount answer for a volume. */
  datatype VolumeAnswers = VolumeAnswers(mkdir: bool, stat: bool, mount: bool, remount: bool)

  datatype Setup = Setup(
    stateRead: bool, imageKnown: bool,
    diskImage: bool, mkData: bool, mountData: bool, loopDevices: bool,
    lower: bool, mkUpper: bool, mkWork: bool, mkMerged: bool, mountOverlay: bool,
    volumes: seq<(Volume, VolumeAnswers)>,
    dataDir: bool, homeDir: bool, mergedDir: bool)

  /** What a setup mounts, in order, and whether it succeeds. */
  datatype Attempt = Attempt(made: seq<Path>, ok: bool)

  predicate ValidContainerId(id: string) {
    Name(id) && '\\' !in id
  }

  function Merged(base: Path): Path {
    base + ["merged"]
  }

  function Data(base: Path): Path {
    base + ["data"]
  }

  /** filepath.Clean, also for relative paths: leading ".." parts stay. */
  function SquashRelative(stack: seq<string>, parts: seq<string>): seq<string>
    decreases |parts|
  {
    if parts == [] then stack
    else if parts[0] == "" || parts[0] == "." then SquashRelative(stack, parts[1..])
    else if parts[0] == ".." && stack != [] && stack[|stack| - 1] != ".." then
      SquashRelative(stack[..|stack| - 1], parts[1..])
    else SquashRelative(stack + [parts[0]], parts[1..])
  }

  function CleanText(s: string): string {
    if "/" <= s then Text(CleanRooted(s))
    else
      var parts := SquashRelative([], Split(s, '/'));
      if parts == [] then "." else Join(parts, '/')
  }

  function VolumeTarget(merged: Path, target: string): Path {
    JoinPath(merged, TrimPrefix(CleanText(target), "/"))
  }

  function VolumeKind(v: Volume): string {
    if v.kind != "" then v.kind
    else if v.source != "" && '/' !in v.source && '\\' !in v.source then "volume"
    else "bind"
  }

  datatype VolumeResult = Skipped | Mounted | Refused

  /** One turn of mountConfiguredVolumes. */
  function TryVolume(mounted: bool, merged: Path, v: Volume, a: VolumeAnswers): VolumeResult {
    var target := VolumeTarget(merged, v.target);
    var kind := VolumeKind(v);
    if target == merged || Escapes(Rel(merged, target)) then Refused
    else if mounted then Skipped
    else if v.target == "" || !("/" <= v.target) || '\\' in v.target then Refused
    else if !a.mkdir then Refused
    else if kind == "nfs" then (if v.source == "" || !a.mount then Refused else Mounted)
    else if kind == "tmpfs" then Skipped
    else if kind == "volume" && !ValidContainerId(v.source) then Refused
    else if kind == "bind" && !("/" <= v.source) then Refused
    else if kind != "volume" && kind != "bind" then Refused
    else if !a.stat || !a.mount || (v.readOnly && !a.remount) then Refused
    else Mounted
  }

  function TryVolumes(seen: Seen, table: Table, merged: Path, vs: seq<(Volume, VolumeAnswers)>): Attempt
    decreases |vs|
  {
    if vs == [] then Attempt([], true)
    else
      var target := VolumeTarget(merged, vs[0].0.target);
      match TryVolume(seen(table, target), merged, vs[0].0, vs[0].1)
      case Refused => Attempt([], false)
      case Skipped => TryVolumes(seen, table, merged, vs[1..])
      case Mounted =>
        var rest := TryVolumes(seen, table + [target], merged, vs[1..]);
        Attempt([target] + rest.made, rest.ok)
  }

  /** The disk image, if there is one and it is not mounted yet. */
  function TryData(seen: Seen, table: Table, base: Path, s: Setup): Attempt {
    if !s.diskImage || seen(table, Data(base)) then Attempt([], true)
    else if !s.mkData then Attempt([], false)
    else if !s.mountData then Attempt([], !s.loopDevices)
    else Attempt([Data(base)], true)
  }

  function TryOverlay(seen: Seen, table: Table, base: Path, s: Setup): Attempt {
    if seen(table, Merged(base)) then Attempt([], true)
    else if s.imageKnown && s.lower && s.mkUpper && s.mkWork && s.mkMerged && s.mountOverlay then
      Attempt([Merged(base)], true)
    else Attempt([], false)
  }

  function Then(a: Attempt, b: Attempt): Attempt {
    if a.ok then Attempt(a.made + b.made, b.ok) else a
  }

  predicate HasRoot(s: Setup) {
    s.dataDir || s.homeDir || s.mergedDir
  }

  /** The data image, then the overlay. */
  function TryBase(seen: Seen, table: Table, base: Path, s: Setup): Attempt {
    var data := TryData(seen, table, base, s);
    Then(data, TryOverlay(seen, table + data.made, base, s))
  }

  /** The mounts of mountOverlaySession: data image, overlay, volumes. */
  function TryMounts(seen: Seen, table: Table, base: Path, s: Setup): Attempt {
    if !s.stateRead && !seen(table, Merged(base)) then Attempt([], false)
    else
      var overlay := TryBase(seen, table, base, s);
      if s.stateRead then Then(overlay, TryVolumes(seen, table + overlay.made, Merged(base), s.volumes)) else overlay
  }

  /** mountOverlaySession, before its cleanup on failure. */
  function TrySetupSeen(seen: Seen, table: Table, dir: Path, id: string, s: Setup): Attempt {
    if !ValidContainerId(id) then Attempt([], false)
    else
      var a := TryMounts(seen, table, dir + [id], s);
      a.(ok := a.ok && HasRoot(s))
  }

  /** The same, where isMounted tells the truth. */
  function TrySetup(table: Table, dir: Path, id: string, s: Setup): Attempt {
    TrySetupSeen(Truth(), table, dir, id, s)
  }

  // ---------------------------------------------------------------- true answers

  predicate TellsTruth(seen: Seen, table: Table, p: Path) {
    seen(table, p) <==> p in table
  }

  predicate Among(made: seq<Path>, points: set<Path>) {
    forall i :: 0 <= i < |made| ==> made[i] in points
  }

  /** While nothing but these points is added to the table, the answers about them are true. */
  ghost predicate Truthful(seen: Seen, table: Table, points: set<Path>) {
    forall made: seq<Path>, p :: Among(made, points) && p in points ==> TellsTruth(seen, table + made, p)
  }

  /** The places of a setup. */
  function PointsOf(base: Path, s: Setup): set<Path> {
    {Data(base), Merged(base)} + TargetsOf(Merged(base), s.volumes)
  }

  function TargetsOf(merged: Path, vs: seq<(Volume, VolumeAnswers)>): set<Path> {
    set i | 0 <= i < |vs| :: VolumeTarget(merged, vs[i].0.target)
  }

  lemma TruthIsTruthful(table: Table, points: set<Path>)
    ensures Truthful(Truth(), table, points)
  {
  }

  lemma TruthNow(seen: Seen, table: Table, points: set<Path>, p: Path)
    requires Truthful(seen, table, points) && p in points
    ensures seen(table, p) <==> p in table
  {
    assert table + [] == table;
    assert Among([], points) && TellsTruth(seen, table + [], p);
  }

  lemma TruthAfter(seen: Seen, table: Table, points: set<Path>, made: seq<Path>)
    requires Truthful(seen, table, points) && Among(made, points)
    ensures Truthful(seen, table + made, points)
  {
    forall more: seq<Path>, p | Among(more, points) && p in points
      ensures TellsTruth(seen, table + made + more, p)
    {
      assert Among(made + more, points) && table + made + more == table + (made + more);
      assert TellsTruth(seen, table + (made + more), p);
    }
  }

  lemma TruthFewer(seen: Seen, table: Table, points: set<Path>, fewer: set<Path>)
    requires Truthful(seen, table, points) && fewer <= points
    ensures Truthful(seen, table, fewer)
  {
    forall made: seq<Path>, p | Among(made, fewer) && p in fewer
      ensures TellsTruth(seen, table + made, p)
    {
      assert Among(made, points);
    }
  }

  lemma TargetsOfRest(merged: Path, vs: seq<(Volume, VolumeAnswers)>)
    requires vs != []
    ensures TargetsOf(merged, vs[1..]) <= TargetsOf(merged, vs)
    ensures VolumeTarget(merged, vs[0].0.target) in TargetsOf(merged, vs)
  {
    assert forall i :: 0 <= i < |vs| - 1 ==> vs[1..][i] == vs[i + 1];
  }

  // ---------------------------------------------------------------- what a setup mounts

  predicate Distinct(ps: seq<Path>) {
    forall i, j :: 0 <= i < j < |ps| ==> ps[i] != ps[j]
  }

  /** New mount points, none twice, all below base. */
  ghost predicate FreshBelow(made: seq<Path>, table: Table, base: Path) {
    Distinct(made) && forall i :: 0 <= i < |made| ==> made[i] !in table && base <= made[i]
  }

  lemma FreshThen(a: seq<Path>, b: seq<Path>, table: Table, base: Path)
    requires FreshBelow(a, table, base) && FreshBelow(b, table + a, base)
    ensures FreshBelow(a + b, table, base)
  {
    var ab := a + b;
    forall i, j | 0 <= i < j < |ab|
      ensures ab[i] != ab[j]
    {
      if i < |a| <= j {
        assert a[i] in table + a;
        assert b[j - |a|] !in table + a;
      }
    }
  }

  /** A volume is only ever mounted strictly below the overlay, where isMounted saw nothing. */
  lemma VolumeInside(mounted: bool, merged: Path, v: Volume, a: VolumeAnswers)
    requires Canonical(merged) && TryVolume(mounted, merged, v, a).Mounted?
    ensures merged < VolumeTarget(merged, v.target) && !mounted
  {
    VolumeBelow(mounted, merged, v, a);
  }

  /** A volume that is not refused has its place strictly below the overlay. */
  lemma VolumeBelow(mounted: bool, merged: Path, v: Volume, a: VolumeAnswers)
    requires Canonical(merged) && !TryVolume(mounted, merged, v, a).Refused?
    ensures merged < VolumeTarget(merged, v.target)
  {
    JoinPathCanonical(merged, TrimPrefix(CleanText(v.target), "/"));
    RelEscapes(merged, VolumeTarget(merged, v.target));
  }

  lemma {:induction false} VolumesFresh(seen: Seen, table: Table, merged: Path, vs: seq<(Volume, VolumeAnswers)>)
    requires Canonical(merged) && Truthful(seen, table, TargetsOf(merged, vs))
    ensures var made := TryVolumes(seen, table, merged, vs).made;
      && FreshBelow(made, table, merged)
      && forall i :: 0 <= i < |made| ==> merged < made[i]
    decreases |vs|
  {
    if vs != [] {
      var target, rest := VolumeTarget(merged, vs[0].0.target), vs[1..];
      TargetsOfRest(merged, vs);
      TruthNow(seen, table, TargetsOf(merged, vs), target);
      match TryVolume(seen(table, target), merged, vs[0].0, vs[0].1)
      case Refused =>
      case Skipped =>
        TruthFewer(seen, table, TargetsOf(merged, vs), TargetsOf(merged, rest));
        VolumesFresh(seen, table, merged, rest);
      case Mounted =>
        VolumeInside(seen(table, target), merged, vs[0].0, vs[0].1);
        TruthAfter(seen, table, TargetsOf(merged, vs), [target]);
        TruthFewer(seen, table + [target], TargetsOf(merged, vs), TargetsOf(merged, rest));
        VolumesFresh(seen, table + [target], merged, rest);
        FreshThen([target], TryVolumes(seen, table + [target], merged, rest).made, table, merged);
    }
  }

  lemma FreshHigher(made: seq<Path>, table: Table, base: Path, lower: Path)
    requires FreshBelow(made, table, lower) && base <= lower
    ensures FreshBelow(made, table, base)
  {
  }

  /** Data image and overlay, asked about truly. */
  lemma BaseAsked(seen: Seen, table: Table, base: Path, s: Setup, points: set<Path>)
    requires Truthful(seen, table, points) && {Data(base), Merged(base)} <= points
    ensures seen(table, Data(base)) <==> Data(base) in table
    ensures var made := TryData(seen, table, base, s).made;
      && Among(made, points) && Among(TryOverlay(seen, table + made, base, s).made, points)
      && (seen(table + made, Merged(base)) <==> Merged(base) in table + made)
  {
    var made := TryData(seen, table, base, s).made;
    TruthNow(seen, table, points, Data(base));
    TruthAfter(seen, table, points, made);
    TruthNow(seen, table + made, points, Merged(base));
  }

  lemma OverlayFresh(seen: Seen, table: Table, base: Path, s: Setup, points: set<Path>)
    requires Truthful(seen, table, points) && {Data(base), Merged(base)} <= points
    ensures var overlay := TryBase(seen, table, base, s);
      && FreshBelow(overlay.made, table, base) && (overlay.ok ==> Merged(base) in table + overlay.made)
      && Among(overlay.made, points)
  {
    BaseAsked(seen, table, base, s, points);
    var data := TryData(seen, table, base, s);
    var second := TryOverlay(seen, table + data.made, base, s);
    FreshThen(data.made, second.made, table, base);
    assert table + data.made + second.made == table + (data.made + second.made);
  }

  lemma MountsFresh(seen: Seen, table: Table, base: Path, s: Setup)
    requires Canonical(base) && Truthful(seen, table, PointsOf(base, s))
    ensures var a := TryMounts(seen, table, base, s);
      FreshBelow(a.made, table, base) && (a.ok ==> Merged(base) in table + a.made)
  {
    OverlayFresh(seen, table, base, s, PointsOf(base, s));
    var overlay := TryBase(seen, table, base, s);
    if s.stateRead && overlay.ok {
      TruthAfter(seen, table, PointsOf(base, s), overlay.made);
      TruthFewer(seen, table + overlay.made, PointsOf(base, s), TargetsOf(Merged(base), s.volumes));
      VolumesExtend(seen, table, base, overlay.made, s.volumes);
    }
  }

  lemma VolumesExtend(seen: Seen, table: Table, base: Path, made: seq<Path>, vs: seq<(Volume, VolumeAnswers)>)
    requires Canonical(base) && FreshBelow(made, table, base)
    requires Truthful(seen, table + made, TargetsOf(Merged(base), vs))
    ensures FreshBelow(made + TryVolumes(seen, table + made, Merged(base), vs).made, table, base)
  {
    VolumesFresh(seen, table + made, Merged(base), vs);
    var more := TryVolumes(seen, table + made, Merged(base), vs).made;
    FreshHigher(more, table + made, base, Merged(base));
    FreshThen(made, more, table, base);
  }

  /**
   * Where the answers of isMounted about its places are true: whatever happens, a setup mounts new points
   * below its base only, none twice, and on success merged is mounted.
   */
  lemma SetupFresh(seen: Seen, table: Table, dir: Path, id: string, s: Setup)
    requires Canonical(dir) && Truthful(seen, table, PointsOf(dir + [id], s))
    ensures var a := TrySetupSeen(seen, table, dir, id, s);
      && FreshBelow(a.made, table, dir + [id])
      && (a.ok ==> Merged(dir + [id]) in table + a.made)
  {
    if ValidContainerId(id) {
      MountsFresh(seen, table, dir + [id], s);
    }
  }

  lemma Appended(table: Table, a: seq<Path>, b: seq<Path>)
    ensures table + a + b == table + (a + b)
  {
  }

  /** The volumes from the i-th on. */
  lemma VolumesAt(seen: Seen, table: Table, merged: Path, vs: seq<(Volume, VolumeAnswers)>, i: nat)
    requires i < |vs|
    ensures var target := VolumeTarget(merged, vs[i].0.target);
      TryVolumes(seen, table, merged, vs[i..])
      == match TryVolume(seen(table, target), merged, vs[i].0, vs[i].1)
         case Refused => Attempt([], false)
         case Skipped => TryVolumes(seen, table, merged, vs[i + 1..])
         case Mounted =>
           var rest := TryVolumes(seen, table + [target], merged, vs[i + 1..]);
           Attempt([target] + rest.made, rest.ok)
  {
    assert vs[i..][0] == vs[i] && vs[i..][1..] == vs[i + 1..];
  }

  lemma ThenOne(made: seq<Path>, target: Path, rest: Attempt)
    ensures Then(Attempt(made, true), Attempt([target] + rest.made, rest.ok))
         == Then(Attempt(made + [target], true), rest)
  {
    Appended(made, [target], rest.made);
  }

  /** A volume that is mounted already and not seen is mounted a second time, and a third. */
  lemma UnseenIsMountedAgain(seen: Seen, table: Table, merged: Path, v: Volume, a: VolumeAnswers)
    requires TryVolume(false, merged, v, a).Mounted?
    requires var t := VolumeTarget(merged, v.target); !seen(table, t) && !seen(table + [t], t)
    ensures var t := VolumeTarget(merged, v.target);
      TryVolumes(seen, table, merged, [(v, a), (v, a)]) == Attempt([t, t], true)
  {
    var vs, t := [(v, a), (v, a)], VolumeTarget(merged, v.target);
    assert vs[1..] == [(v, a)] && vs[1..][1..] == [];
    assert TryVolumes(seen, table + [t], merged, vs[1..]) == Attempt([t], true);
  }

  /** A volume that is not refused is mounted afterwards, unless it is a tmpfs. */
  lemma VolumeServed(mounted: bool, merged: Path, v: Volume, a: VolumeAnswers)
    requires TryVolume(mounted, merged, v, a).Skipped? && VolumeKind(v) != "tmpfs"
    ensures mounted
  {
  }

  /** The first volume of a list that succeeds, and the rest of it. */
  lemma VolumesHead(seen: Seen, table: Table, merged: Path, vs: seq<(Volume, VolumeAnswers)>) returns (table': Table)
    requires vs != [] && TryVolumes(seen, table, merged, vs).ok
    ensures table' == table || table' == table + [VolumeTarget(merged, vs[0].0.target)]
    ensures TryVolumes(seen, table', merged, vs[1..]).ok
    ensures table + TryVolumes(seen, table, merged, vs).made == table' + TryVolumes(seen, table', merged, vs[1..]).made
    ensures var t := VolumeTarget(merged, vs[0].0.target);
      VolumeKind(vs[0].0) != "tmpfs" && TellsTruth(seen, table, t) ==> t in table'
  {
    var (v, a) := vs[0];
    var target := VolumeTarget(merged, v.target);
    var result := TryVolume(seen(table, target), merged, v, a);
    table' := if result == Mounted then table + [target] else table;
    if result == Mounted {
      Appended(table, [target], TryVolumes(seen, table', merged, vs[1..]).made);
    } else if VolumeKind(v) != "tmpfs" {
      VolumeServed(seen(table, target), merged, v, a);
    }
  }

  lemma {:induction false} VolumesMounted(
      seen: Seen, table: Table, merged: Path, vs: seq<(Volume, VolumeAnswers)>, i: nat, all: Table)
    requires TryVolumes(seen, table, merged, vs).ok && all == table + TryVolumes(seen, table, merged, vs).made
    requires i < |vs| && VolumeKind(vs[i].0) != "tmpfs" && Truthful(seen, table, TargetsOf(merged, vs))
    ensures VolumeTarget(merged, vs[i].0.target) in all
    decreases |vs|
  {
    var table' := VolumesHead(seen, table, merged, vs);
    VolumesTruth(seen, table, table', merged, vs);
    if i > 0 {
      VolumesMounted(seen, table', merged, vs[1..], i - 1, all);
    }
  }

  /** True answers about a list of volumes are true about the rest of it. */
  lemma VolumesTruth(seen: Seen, table: Table, table': Table, merged: Path, vs: seq<(Volume, VolumeAnswers)>)
    requires vs != [] && Truthful(seen, table, TargetsOf(merged, vs))
    requires table' == table || table' == table + [VolumeTarget(merged, vs[0].0.target)]
    ensures Truthful(seen, table', TargetsOf(merged, vs[1..]))
    ensures TellsTruth(seen, table, VolumeTarget(merged, vs[0].0.target))
  {
    var points, target := TargetsOf(merged, vs), VolumeTarget(merged, vs[0].0.target);
    TargetsOfRest(merged, vs);
    TruthNow(seen, table, points, target);
    TruthAfter(seen, table, points, [target]);
    TruthFewer(seen, table', points, TargetsOf(merged, vs[1..]));
  }

  /** No volume of a list that succeeds was refused. */
  lemma FirstPasses(seen: Seen, table: Table, merged: Path, vs: seq<(Volume, VolumeAnswers)>)
    returns (mounted: bool, table': Table)
    requires vs != [] && TryVolumes(seen, table, merged, vs).ok
    ensures !TryVolume(mounted, merged, vs[0].0, vs[0].1).Refused?
    ensures TryVolumes(seen, table', merged, vs[1..]).ok
  {
    var target := VolumeTarget(merged, vs[0].0.target);
    mounted := seen(table, target);
    table' := if TryVolume(mounted, merged, vs[0].0, vs[0].1).Mounted? then table + [target] else table;
  }

  lemma {:induction false} VolumePasses(
      seen: Seen, table: Table, merged: Path, vs: seq<(Volume, VolumeAnswers)>, i: nat) returns (mounted: bool)
    requires TryVolumes(seen, table, merged, vs).ok && i < |vs|
    ensures !TryVolume(mounted, merged, vs[i].0, vs[i].1).Refused?
    decreases |vs|
  {
    var table';
    mounted, table' := FirstPasses(seen, table, merged, vs);
    if i > 0 {
      mounted := VolumePasses(seen, table', merged, vs[1..], i - 1);
      assert vs[1..][i - 1] == vs[i];
    }
  }

  lemma VolumesBelow(seen: Seen, table: Table, merged: Path, vs: seq<(Volume, VolumeAnswers)>, base: Path)
    requires Canonical(merged) && TryVolumes(seen, table, merged, vs).ok && base <= merged
    ensures forall i :: 0 <= i < |vs| ==> base <= VolumeTarget(merged, vs[i].0.target)
  {
    forall i | 0 <= i < |vs|
      ensures base <= VolumeTarget(merged, vs[i].0.target)
    {
      var mounted := VolumePasses(seen, table, merged, vs, i);
      VolumeBelow(mounted, merged, vs[i].0, vs[i].1);
    }
  }

  /** What a server needs to be mounted: its overlay, its disk image, and its volumes but for tmpfs. */
  ghost predicate Complete(table: Table, base: Path, s: Setup) {
    && Merged(base) in table
    && (s.diskImage && s.mountData ==> Data(base) in table)
    && (s.stateRead ==> forall i :: 0 <= i < |s.volumes| && VolumeKind(s.volumes[i].0) != "tmpfs" ==>
          VolumeTarget(Merged(base), s.volumes[i].0.target) in table)
  }

  /** All that a setup needs lies below its container. */
  ghost predicate NeedsBelow(base: Path, s: Setup) {
    s.stateRead ==> forall i :: 0 <= i < |s.volumes| ==> base <= VolumeTarget(Merged(base), s.volumes[i].0.target)
  }

  lemma SetupNeedsBelow(seen: Seen, table: Table, dir: Path, id: string, s: Setup)
    requires Canonical(dir) && TrySetupSeen(seen, table, dir, id, s).ok
    ensures NeedsBelow(dir + [id], s)
  {
    MountsNeedBelow(seen, table, dir + [id], s);
  }

  lemma MountsNeedBelow(seen: Seen, table: Table, base: Path, s: Setup)
    requires Canonical(base) && TryMounts(seen, table, base, s).ok
    ensures NeedsBelow(base, s)
  {
    if s.stateRead {
      assert Canonical(Merged(base)) && base <= Merged(base);
      VolumesBelow(seen, table + TryBase(seen, table, base, s).made, Merged(base), s.volumes, base);
    }
  }

  /** What stays mounted below a container keeps its server complete. */
  lemma CompleteStays(table: Table, table': Table, base: Path, s: Setup)
    requires Complete(table, base, s) && NeedsBelow(base, s)
    requires forall p :: base <= p && p in table ==> p in table'
    ensures Complete(table', base, s)
  {
  }

  lemma BaseComplete(seen: Seen, table: Table, base: Path, s: Setup, points: set<Path>)
    requires TryBase(seen, table, base, s).ok
    requires Truthful(seen, table, points) && {Data(base), Merged(base)} <= points
    ensures var t := table + TryBase(seen, table, base, s).made;
      Merged(base) in t && (s.diskImage && s.mountData ==> Data(base) in t)
  {
    BaseAsked(seen, table, base, s, points);
    var data := TryData(seen, table, base, s);
    var second := TryOverlay(seen, table + data.made, base, s);
    assert table + data.made + second.made == table + (data.made + second.made);
  }

  /** Where the answers of isMounted are true, a setup that succeeds leaves nothing out. */
  lemma SetupCompletes(seen: Seen, table: Table, dir: Path, id: string, s: Setup)
    requires TrySetupSeen(seen, table, dir, id, s).ok && Truthful(seen, table, PointsOf(dir + [id], s))
    ensures Complete(table + TrySetupSeen(seen, table, dir, id, s).made, dir + [id], s)
  {
    MountsComplete(seen, table, dir + [id], s);
  }

  lemma MountsComplete(seen: Seen, table: Table, base: Path, s: Setup)
    requires TryMounts(seen, table, base, s).ok && Truthful(seen, table, PointsOf(base, s))
    ensures Complete(table + TryMounts(seen, table, base, s).made, base, s)
  {
    var overlay := TryBase(seen, table, base, s);
    BaseComplete(seen, table, base, s, PointsOf(base, s));
    if s.stateRead {
      var t, merged := table + overlay.made, Merged(base);
      var more := TryVolumes(seen, t, merged, s.volumes);
      Appended(table, overlay.made, more.made);
      BaseAsked(seen, table, base, s, PointsOf(base, s));
      TruthAfter(seen, table, PointsOf(base, s), overlay.made);
      TruthFewer(seen, t, PointsOf(base, s), TargetsOf(merged, s.volumes));
      forall i | 0 <= i < |s.volumes| && VolumeKind(s.volumes[i].0) != "tmpfs"
        ensures VolumeTarget(merged, s.volumes[i].0.target) in t + more.made
      {
        VolumesMounted(seen, t, merged, s.volumes, i, t + more.made);
      }
    }
  }

  // ---------------------------------------------------------------- taking it down again

  /** An umount whose failure is ignored. */
  function UmountIgnored(table: Table, p: Path): Table {
    match Umount(table, p)
    case Some(t) => t
    case None => table
  }

  /** cleanupMounts: the newest of the session's mounts first. */
  function UnmountAll(table: Table, made: seq<Path>): Table
    decreases |made|
  {
    if made == [] then table else UnmountAll(UmountIgnored(table, Last(made)), Front(made))
  }

  lemma UnmountLast(table: Table, first: seq<Path>, p: Path)
    ensures UnmountAll(table, first + [p]) == UnmountAll(UmountIgnored(table, p), first)
  {
    assert Front(first + [p]) == first;
  }

  lemma UnmountNext(table: Table, head: seq<Path>, volumes: seq<Path>, i: nat)
    requires i < |volumes|
    ensures UnmountAll(table, head + volumes[..i + 1])
         == UnmountAll(UmountIgnored(table, volumes[i]), head + volumes[..i])
  {
    assert head + volumes[..i + 1] == (head + volumes[..i]) + [volumes[i]];
    UnmountLast(table, head + volumes[..i], volumes[i]);
  }

  /** While a session's mounts are the newest, each umount succeeds and takes the newest mount of all. */
  lemma UmountNewest(before: Table, made: seq<Path>)
    requires made != []
    ensures NewestOn(before + made, Last(made)) == |before + made| - 1
    ensures Umount(before + made, Last(made)) == Some(before + Front(made))
  {
    var table := before + made;
    assert table[|table| - 1] == Last(made);
    assert table[..|table| - 1] == before + Front(made);
    assert table[..|table| - 1] + table[|table| - 1 + 1..] == before + Front(made);
  }

  /** Taking a session's mounts down gives back the table from before it, exactly. */
  lemma {:induction false} CleanupRestores(before: Table, made: seq<Path>)
    ensures UnmountAll(before + made, made) == before
    decreases |made|
  {
    if made == [] {
      assert before + made == before;
    } else {
      UmountNewest(before, made);
      CleanupRestores(before, Front(made));
    }
  }

  /**
   * Opening a session and closing it restores the table, whatever isMounted answers; so does a setup that
   * fails at any step.
   */
  lemma OpenCloseRestores(seen: Seen, table: Table, dir: Path, id: string, s: Setup)
    ensures var a := TrySetupSeen(seen, table, dir, id, s); UnmountAll(table + a.made, a.made) == table
  {
    CleanupRestores(table, TrySetupSeen(seen, table, dir, id, s).made);
  }

  // ---------------------------------------------------------------- the code

  /** The host: its mount table, what isMounted reads of it, and fmMountMu. */
  class Host {
    const seen: Seen
    var table: Table
    var locked: bool

    constructor (seen: Seen, table: Table)
      ensures this.seen == seen && this.table == table && !locked
    {
      this.seen, this.table, locked := seen, table, false;
    }

    method IsMounted(p: Path) returns (mounted: bool)
      ensures mounted == seen(table, p)
    {
      return seen(table, p);
    }

    method Mount(p: Path)
      modifies this`table
      ensures table == old(table) + [p]
    {
      table := table + [p];
    }

    method UmountPath(p: Path)
      modifies this`table
      ensures table == UmountIgnored(old(table), p)
    {
      match Umount(table, p)
      case Some(t) => table := t;
      case None =>
    }
  }

  class FmSession {
    const merged: Path
    const data: Path
    var root: Path
    var temporaryData: bool
    var temporaryFS: bool
    var temporaryVolumes: seq<Path>
    var unlocks: bool

    constructor (merged: Path, data: Path)
      ensures this.merged == merged && this.data == data && Made() == [] && !unlocks
    {
      this.merged, this.data, root := merged, data, [];
      temporaryData, temporaryFS, temporaryVolumes, unlocks := false, false, [], false;
    }

    /** The data image and the overlay, as far as the session mounted them. */
    function Head(): seq<Path>
      reads this
    {
      if temporaryData && temporaryFS then [data, merged]
      else if temporaryData then [data]
      else if temporaryFS then [merged]
      else []
    }

    /** The session's own mounts, in the order they were made. */
    function Made(): seq<Path>
      reads this
    {
      Head() + temporaryVolumes
    }

    /** Volume mounts live below the overlay and go first. */
    method UmountVolumes(host: Host)
      modifies this`temporaryVolumes, host`table
      ensures UnmountAll(host.table, Head()) == UnmountAll(old(host.table), old(Made()))
      ensures temporaryVolumes == []
    {
      ghost var head := Head();
      var i := |temporaryVolumes|;
      assert temporaryVolumes[..i] == temporaryVolumes;
      while i > 0
        invariant 0 <= i <= |temporaryVolumes| && temporaryVolumes == old(temporaryVolumes)
        invariant UnmountAll(host.table, head + temporaryVolumes[..i])
               == UnmountAll(old(host.table), head + temporaryVolumes)
      {
        i := i - 1;
        UnmountNext(host.table, head, temporaryVolumes, i);
        host.UmountPath(temporaryVolumes[i]);
      }
      assert head + temporaryVolumes[..0] == head;
      temporaryVolumes := [];
    }

    method UmountHead(host: Host)
      requires temporaryVolumes == []
      modifies this`temporaryFS, this`temporaryData, host`table
      ensures host.table == UnmountAll(old(host.table), old(Head())) && Head() == []
    {
      if temporaryFS {
        ghost var below := if temporaryData then [data] else [];
        assert Head() == below + [merged];
        UnmountLast(host.table, below, merged);
        host.UmountPath(merged);
        temporaryFS := false;
      }
      if temporaryData {
        assert [data] == [] + [data];
        UnmountLast(host.table, [], data);
        host.UmountPath(data);
        temporaryData := false;
      }
    }

    method CleanupMounts(host: Host)
      modifies this`temporaryVolumes, this`temporaryFS, this`temporaryData, host`table
      ensures host.table == UnmountAll(old(host.table), old(Made())) && Made() == []
    {
      UmountVolumes(host);
      UmountHead(host);
    }

    /** The unlocking happens once, however often Close is called. */
    method Close(host: Host)
      modifies this, host
      ensures host.table == UnmountAll(old(host.table), old(Made())) && Made() == [] && !unlocks
      ensures host.locked == (old(host.locked) && !old(unlocks))
    {
      CleanupMounts(host);
      if unlocks {
        host.locked := false;
        unlocks := false;
      }
    }

    method MountConfiguredVolumes(host: Host, volumes: seq<(Volume, VolumeAnswers)>) returns (ok: bool)
      requires temporaryVolumes == []
      modifies this`temporaryVolumes, host`table
      ensures var a := TryVolumes(host.seen, old(host.table), merged, volumes);
        ok == a.ok && temporaryVolumes == a.made && host.table == old(host.table) + a.made
    {
      ghost var start := host.table;
      for i := 0 to |volumes|
        invariant host.table == start + temporaryVolumes
        invariant Then(Attempt(temporaryVolumes, true), TryVolumes(host.seen, host.table, merged, volumes[i..]))
               == TryVolumes(host.seen, start, merged, volumes)
      {
        VolumesAt(host.seen, host.table, merged, volumes, i);
        var (v, a) := volumes[i];
        var target := VolumeTarget(merged, v.target);
        var mounted := host.IsMounted(target);
        var result := TryVolume(mounted, merged, v, a);
        if result == Refused {
          if RemountFails(mounted, merged, v, a) {
            RemountUndone(host.table, target);
            host.Mount(target);
            host.UmountPath(target);
          }
          return false;
        }
        if result == Mounted {
          host.Mount(target);
          ThenOne(temporaryVolumes, target, TryVolumes(host.seen, host.table, merged, volumes[i + 1..]));
          Appended(start, temporaryVolumes, [target]);
          temporaryVolumes := temporaryVolumes + [target];
        }
      }
      return true;
    }
  }

  /** The one refusal after a mount: the read-only remount fails, and the mount is taken back. */
  predicate RemountFails(mounted: bool, merged: Path, v: Volume, a: VolumeAnswers) {
    TryVolume(mounted, merged, v, a).Refused? && TryVolume(mounted, merged, v, a.(remount := true)).Mounted?
  }

  /** The mount is taken back, also where something was mounted before. */
  lemma RemountUndone(table: Table, t: Path)
    ensures UmountIgnored(table + [t], t) == table
  {
    UmountNewest(table, [t]);
    assert table + Front([t]) == table;
  }

  /** Everything mountOverlaySession does up to its cleanup, and before the choice of the root. */
  method Prepare(host: Host, session: FmSession, base: Path, s: Setup) returns (ok: bool)
    requires session.Made() == [] && session.merged == Merged(base) && session.data == Data(base)
    modifies session`temporaryData, session`temporaryFS, session`temporaryVolumes, host`table
    ensures var a := TryMounts(host.seen, old(host.table), base, s);
      ok == a.ok && session.Made() == a.made && host.table == old(host.table) + a.made
  {
    if !s.stateRead {
      var mounted := host.IsMounted(session.merged);
      if !mounted {
        return false;
      }
    }
    ok := MountBase(host, session, base, s);
    if ok && s.stateRead {
      ghost var overlay := TryBase(host.seen, old(host.table), base, s);
      ghost var a := TryVolumes(host.seen, host.table, session.merged, s.volumes);
      ok := MountVolumes(host, session, s.volumes, a);
      Appended(old(host.table), overlay.made, a.made);
    }
  }

  method MountVolumes(host: Host, session: FmSession, volumes: seq<(Volume, VolumeAnswers)>, ghost a: Attempt)
    returns (ok: bool)
    requires session.temporaryVolumes == []
    requires a == TryVolumes(host.seen, host.table, session.merged, volumes)
    modifies session`temporaryVolumes, host`table
    ensures ok == a.ok && session.Made() == old(session.Made()) + a.made && host.table == old(host.table) + a.made
  {
    ok := session.MountConfiguredVolumes(host, volumes);
  }

  /** The first candidate that stat finds to be a directory. */
  function RootFor(merged: Path, s: Setup): Path {
    if s.dataDir then merged + ["data"] else if s.homeDir then merged + ["home", "container"] else merged
  }

  /** The first candidate that is a directory becomes the root. */
  method ChooseRoot(session: FmSession, s: Setup) returns (ok: bool)
    modifies session`root
    ensures ok == HasRoot(s) && (ok ==> session.root == RootFor(session.merged, s))
  {
    if s.dataDir {
      session.root := session.merged + ["data"];
    } else if s.homeDir {
      session.root := session.merged + ["home", "container"];
    } else if s.mergedDir {
      session.root := session.merged;
    } else {
      return false;
    }
    return true;
  }

  /** mountOverlaySession: a session on success, the old table on failure. */
  method MountOverlaySession(host: Host, dir: Path, id: string, s: Setup) returns (session: FmSession?)
    modifies host`table
    ensures (session != null) == TrySetupSeen(host.seen, old(host.table), dir, id, s).ok
    ensures session == null ==> host.table == old(host.table)
    ensures session != null ==> fresh(session) && !session.unlocks
    ensures session != null ==> session.Made() == TrySetupSeen(host.seen, old(host.table), dir, id, s).made
    ensures session != null ==> host.table == old(host.table) + session.Made()
    ensures session != null ==> session.merged == Merged(dir + [id]) && session.root == RootFor(session.merged, s)
  {
    if !ValidContainerId(id) {
      return null;
    }
    var base := dir + [id];
    ghost var a := TryMounts(host.seen, host.table, base, s);
    CleanupRestores(host.table, a.made);
    session := MountOrUndo(host, base, s, a);
  }

  method PrepareAndChoose(host: Host, session: FmSession, base: Path, s: Setup, ghost a: Attempt) returns (ok: bool)
    requires a == TryMounts(host.seen, host.table, base, s)
    requires session.Made() == [] && session.merged == Merged(base) && session.data == Data(base)
    modifies session`temporaryData, session`temporaryFS, session`temporaryVolumes, session`root, host`table
    ensures ok == (a.ok && HasRoot(s)) && (ok ==> session.root == RootFor(session.merged, s))
    ensures session.Made() == a.made && host.table == old(host.table) + a.made
  {
    ok := Prepare(host, session, base, s);
    if ok {
      ok := ChooseRoot(session, s);
    }
  }

  method MountOrUndo(host: Host, base: Path, s: Setup, ghost a: Attempt) returns (session: FmSession?)
    requires a == TryMounts(host.seen, host.table, base, s)
    requires UnmountAll(host.table + a.made, a.made) == host.table
    modifies host`table
    ensures (session != null) == (a.ok && HasRoot(s))
    ensures session == null ==> host.table == old(host.table)
    ensures session != null ==> fresh(session) && !session.unlocks && session.Made() == a.made
    ensures session != null ==> host.table == old(host.table) + a.made
    ensures session != null ==> session.merged == Merged(base) && session.root == RootFor(session.merged, s)
  {
    var started := new FmSession(Merged(base), Data(base));
    var ok := PrepareAndChoose(host, started, base, s, a);
    if !ok {
      started.CleanupMounts(host);
      return null;
    }
    return started;
  }

  /** The data image and the overlay. */
  method MountBase(host: Host, session: FmSession, base: Path, s: Setup) returns (ok: bool)
    requires session.Made() == [] && session.merged == Merged(base) && session.data == Data(base)
    modifies session`temporaryData, session`temporaryFS, host`table
    ensures var a := TryBase(host.seen, old(host.table), base, s);
      ok == a.ok && session.Made() == a.made && host.table == old(host.table) + a.made
    ensures session.temporaryVolumes == []
  {
    var dataMounted := host.IsMounted(session.data);
    if s.diskImage && !dataMounted {
      if !s.mkData {
        return false;
      }
      if !s.mountData {
        if s.loopDevices {
          return false;
        }
      } else {
        host.Mount(session.data);
        session.temporaryData := true;
      }
    }
    assert host.table == old(host.table) + TryData(host.seen, old(host.table), base, s).made;
    var mounted := host.IsMounted(session.merged);
    if !mounted {
      if !(s.imageKnown && s.lower && s.mkUpper && s.mkWork && s.mkMerged && s.mountOverlay) {
        return false;
      }
      host.Mount(session.merged);
      session.temporaryFS := true;
    }
    return true;
  }

  /** beginFMSession: on success the lock stays taken until Close, on failure it is free again. */
  method BeginFmSession(host: Host, dir: Path, id: string, s: Setup) returns (session: FmSession?)
    requires !host.locked
    modifies host
    ensures (session != null) == TrySetupSeen(host.seen, old(host.table), dir, id, s).ok == host.locked
    ensures session == null ==> host.table == old(host.table)
    ensures session != null ==> fresh(session) && session.unlocks
    ensures session != null ==> session.Made() == TrySetupSeen(host.seen, old(host.table), dir, id, s).made
    ensures session != null ==> host.table == old(host.table) + session.Made()
  {
    host.locked := true;
    session := MountOverlaySession(host, dir, id, s);
    if session == null {
      host.locked := false;
    } else {
      session.unlocks := true;
    }
  }

  /** A whole file-manager request leaves table and lock as it found them. */
  method Request(host: Host, dir: Path, id: string, s: Setup) returns (served: bool)
    requires !host.locked
    modifies host
    ensures host.table == old(host.table) && !host.locked
    ensures served == TrySetupSeen(host.seen, old(host.table), dir, id, s).ok
  {
    OpenCloseRestores(host.seen, host.table, dir, id, s);
    var session := BeginFmSession(host, dir, id, s);
    served := session != null;
    if session != null {
      session.Close(host);
    }
  }
}
