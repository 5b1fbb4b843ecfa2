/**
 * What extraction does where an old link leads out of the destination, and exactly when no archive can
 * change anything outside.
 */
module ArchiveOutside {
  import opened Basics
  import opened Strings
  import opened Paths
  import opened Filesystem
  import opened Archive
  import opened ArchiveSafety
  import opened Containment

  /** Names as an archive can spell them. */
  predicate Plain(names: Path) {
    Canonical(names) && forall i :: 0 <= i < |names| ==> '\\' !in names[i]
  }

  /** The names lead somewhere outside dest, or to a free name there. */
  predicate LeadsOut(fs: Fs, dest: Path, names: Path, n: nat) {
    var w := Follow(fs, [], dest + names, n);
    !w.Nowhere? && !(dest <= w.path)
  }

  // ---------------------------------------------------------------- archives of one file

  lemma PlainAccepted(dest: Path, names: Path)
    requires Plain(names) && names != []
    ensures ValidEntry(Join(names, '/')) && JoinPath(dest, Join(names, '/')) == dest + names
  {
    var name := Join(names, '/');
    SplitJoin(names, '/');
    BackslashFree(name);
    CleanParts(name);
    assert Split(name, '/')[0] == names[0] != ".";
    EntryAccepted(name);
    SquashNames(dest, names);
  }

  function OneFile(names: Path, body: string): Stream {
    Stream([Entry(Join(names, '/'), Regular, "", body, false)], false)
  }

  /** An entry of one file is written wherever its name leads. */
  lemma EntryWrites(s: Pass, dest: Path, names: Path, body: string, q: Path, n: nat)
    requires RealDirectory(s.fs, dest) && Plain(names) && names != []
    requires s.total + |body| <= MAX_BYTES && s.count < MAX_ENTRIES
    requires Follow(s.fs, [], dest + names, n) == Fresh(q)
      || (Follow(s.fs, [], dest + names, n) == Found(q) && q in s.fs && s.fs[q].File?)
    ensures ExtractEntry(s, dest, Entry(Join(names, '/'), Regular, "", body, false), n)
         == Pass(s.fs[q := File(body)], s.total + |body|, s.count + 1, s.links, true)
  {
    var e, target := OneFile(names, body).entries[0], dest + names;
    PlainAccepted(dest, names);
    assert !Escapes(Rel(dest, target)) by {
      var c := TargetBelow(dest, e.name);
    }
    ParentIsMade(s.fs, target, n);
    RegularCopies(s, dest, e, target, n);
    CopiesWhole(s.(count := s.count + 1), target, e, q, n);
  }

  /** What can be followed has its directory already. */
  lemma ParentIsMade(fs: Fs, p: Path, n: nat)
    requires p != [] && !Follow(fs, [], p, n).Nowhere?
    ensures MkdirAll(fs, Parent(p), n) == Effect(fs, true)
  {
    assert p == Parent(p) + [Last(p)];
    var d, m := FollowThrough(fs, [], Parent(p), [Last(p)], n);
  }

  lemma CopiesWhole(s: Pass, target: Path, e: Entry, q: Path, n: nat)
    requires s.total + |e.body| <= MAX_BYTES && !e.fault
    requires Follow(s.fs, [], target, n) == Fresh(q)
      || (Follow(s.fs, [], target, n) == Found(q) && q in s.fs && s.fs[q].File?)
    ensures CopyFile(s, target, e, n) == Pass(s.fs[q := File(e.body)], s.total + |e.body|, s.count, s.links, true)
  {
    assert e.body[..|e.body|] == e.body;
  }

  /** An archive of one file writes wherever its name leads. */
  lemma WritesWhere(fs: Fs, dest: Path, names: Path, body: string, q: Path, n: nat)
    requires RealDirectory(fs, dest) && Plain(names) && names != [] && |body| <= MAX_BYTES
    requires Follow(fs, [], dest + names, n) == Fresh(q)
      || (Follow(fs, [], dest + names, n) == Found(q) && q in fs && fs[q].File?)
    ensures Extract(fs, dest, OneFile(names, body), n) == Effect(fs[q := File(body)], true)
  {
    var e := OneFile(names, body).entries[0];
    var after := ExtractEntry(Start(fs), dest, e, n);
    EntryWrites(Start(fs), dest, names, body, q, n);
    assert [e][1..] == [];
    assert ExtractEntries(Start(fs), dest, [e], n) == ExtractEntries(after, dest, [], n) == after;
  }

  // ---------------------------------------------------------------- free names

  /** Longer than every last name. */
  lemma LongerThanAll(ps: set<Path>) returns (n: nat)
    ensures forall p :: p in ps && p != [] ==> |Last(p)| < n
    decreases |ps|
  {
    n := 0;
    if p :| p in ps {
      var m := LongerThanAll(ps - {p});
      n := if p != [] && |Last(p)| >= m then |Last(p)| + 1 else m;
      forall q | q in ps && q != []
        ensures |Last(q)| < n
      {
        assert q == p || q in ps - {p};
      }
    }
  }

  lemma FreeName(fs: Fs, q: Path) returns (x: string)
    ensures Name(x) && '\\' !in x && q + [x] !in fs
  {
    var n := LongerThanAll(fs.Keys);
    x := seq(n + 3, _ => 'x');
    assert x[0] == 'x';
    assert Last(q + [x]) == x && q + [x] != [];
  }

  // ---------------------------------------------------------------- names that lead out

  /** A free name in a directory that is found outside. */
  lemma FreeNameOutside(fs: Fs, dest: Path, names: Path, n: nat) returns (x: string, q: Path)
    requires RealDirectory(fs, dest) && Follow(fs, [], dest + names, n).Found?
    requires LeadsOut(fs, dest, names, n) && IsDir(fs, Follow(fs, [], dest + names, n).path)
    ensures Name(x) && '\\' !in x && Follow(fs, [], dest + (names + [x]), n) == Fresh(q) && !(dest <= q)
  {
    var d := Follow(fs, [], dest + names, n).path;
    x := FreeName(fs, d);
    q := d + [x];
    var m := FollowOnward(fs, [], dest + names, [x], n);
    assert dest + names + [x] == dest + (names + [x]);
    assert IsDir(fs, dest[..|dest|]) && dest[..|dest|] == dest;
    assert [x][1..] == [] && Follow(fs, d, [x], m) == Fresh(q);
    assert dest <= q ==> dest == q;
  }

  /** Wherever a plain name leads out, some archive of one file changes the outside. */
  lemma LedOutIsWritten(fs: Fs, dest: Path, names: Path, n: nat) returns (src: Stream)
    requires RealDirectory(fs, dest) && Tree(fs) && Plain(names) && LeadsOut(fs, dest, names, n)
    ensures |src.entries| == 1 && !SameOutside(fs, Extract(fs, dest, src, n).fs, dest)
  {
    assert dest[..0] == [] && dest[..|dest|] == dest;
    FollowInto(fs, dest, names, n);
    FoundIsThere(fs, [], dest + names, n);
    FreshIsFree(fs, [], dest + names, n);
    var w := Follow(fs, [], dest + names, n);
    if w.Found? && IsDir(fs, w.path) {
      var x, q := FreeNameOutside(fs, dest, names, n);
      FreshIsFree(fs, [], dest + (names + [x]), n);
      src := OneFile(names + [x], "");
      WritesWhere(fs, dest, names + [x], "", q, n);
    } else {
      var body := if w.Found? && fs[w.path] == File("") then "x" else "";
      src := OneFile(names, body);
      WritesWhere(fs, dest, names, body, w.path, n);
    }
  }

  /** Walking the link "/r/l" to "/etc" on to the name x. */
  lemma ThroughOldLink(fs: Fs, x: string)
    requires fs == map[[] := Dir, ["r"] := Dir, ["r", "l"] := Link("/etc"), ["etc"] := Dir] && Name(x)
    ensures Follow(fs, ["r"], ["l", x], 40) == Fresh(["etc", x])
  {
    EtcSplits();
    var todo := ["", "etc"] + [x];
    assert todo[1..] == ["etc", x] && ["etc", x][1..] == [x] && [x][1..] == [];
    assert [] + ["etc"] == ["etc"] && ["etc"] + [x] == ["etc", x];
    assert Follow(fs, ["etc"], [x], 39) == Fresh(["etc", x]);
    assert Follow(fs, [], ["etc", x], 39) == Fresh(["etc", x]);
    assert Follow(fs, [], todo, 39) == Fresh(["etc", x]);
    assert ["r"] + ["l"] == ["r", "l"] && ["l", x][1..] == [x];
  }

  lemma OldLinkTree(fs: Fs)
    requires fs == map[[] := Dir, ["r"] := Dir, ["r", "l"] := Link("/etc"), ["etc"] := Dir]
    ensures RealDirectory(fs, ["r"]) && Tree(fs) && !EmptyBelow(fs, ["r"])
  {
    assert ["r"][..0] == [] && ["r"][..1] == ["r"];
    assert Parent(["r", "l"]) == ["r"] && Parent(["r"]) == [] && Parent(["etc"]) == [];
    assert ["r", "l"] in fs && ["r"] < ["r", "l"];
  }

  /** A file whose name leads to a free place outside is written there. */
  lemma WrittenOutside(fs: Fs, dest: Path, names: Path, body: string, q: Path, n: nat)
    requires RealDirectory(fs, dest) && Plain(names) && names != [] && |body| <= MAX_BYTES
    requires Follow(fs, [], dest + names, n) == Fresh(q) && !(dest <= q)
    ensures var after := Extract(fs, dest, OneFile(names, body), n);
      after == Effect(fs[q := File(body)], true) && !SameOutside(fs, after.fs, dest)
  {
    FreshIsFree(fs, [], dest + names, n);
    WritesWhere(fs, dest, names, body, q, n);
    assert q in fs[q := File(body)];
  }

  /** Onto "/r/l", an old link to "/etc", the entry "l/x" writes "/etc/x". */
  lemma OldLinkIsFollowed(fs: Fs, dest: Path)
    requires dest == ["r"]
    requires fs == map[[] := Dir, ["r"] := Dir, ["r", "l"] := Link("/etc"), ["etc"] := Dir]
    ensures var after := Extract(fs, dest, OneFile(["l", "x"], "data"), 40);
      && RealDirectory(fs, dest) && Tree(fs) && !EmptyBelow(fs, dest)
      && after == Effect(fs[["etc", "x"] := File("data")], true) && !SameOutside(fs, after.fs, dest)
  {
    OldLinkTree(fs);
    OldLinkLeads(fs, dest);
    WrittenOutside(fs, dest, ["l", "x"], "data", ["etc", "x"], 40);
  }

  lemma OldLinkLeads(fs: Fs, dest: Path)
    requires dest == ["r"]
    requires fs == map[[] := Dir, ["r"] := Dir, ["r", "l"] := Link("/etc"), ["etc"] := Dir]
    ensures Follow(fs, [], dest + ["l", "x"], 40) == Fresh(["etc", "x"])
  {
    assert dest[..0] == [] && dest[..1] == dest;
    ThroughOldLink(fs, "x");
    FollowInto(fs, dest, ["l", "x"], 40);
  }

  lemma EtcSplits()
    ensures Split("/etc", '/') == ["", "etc"]
  {
    SplitJoin(["", "etc"], '/');
    assert Join(["", "etc"], '/') == "/etc";
  }

  // ---------------------------------------------------------------- exactly when

  /** A target that climbs, if at all, before it goes down. */
  predicate UpsFirst(parts: seq<string>)
    decreases |parts|
  {
    ClimbFree(parts) || ((parts[0] == "" || parts[0] == "." || parts[0] == "..") && UpsFirst(parts[1..]))
  }

  ghost predicate TameLinks(fs: Fs) {
    forall p :: IsLink(fs, p) ==> UpsFirst(Split(fs[p].target, '/'))
  }

  ghost predicate PlainLinks(fs: Fs, dest: Path) {
    forall p :: dest < p && IsLink(fs, p) ==> Plain(p[|dest|..])
  }

  lemma {:induction false} UpsFirstMore(a: seq<string>, rest: seq<string>)
    requires UpsFirst(a) && ClimbFree(rest)
    ensures UpsFirst(a + rest)
    decreases |a|
  {
    if ClimbFree(a) {
      assert ClimbFree(a + rest);
    } else {
      UpsFirstMore(a[1..], rest);
      assert (a + rest)[1..] == a[1..] + rest && (a + rest)[0] == a[0];
    }
  }

  lemma UpsFirstRest(todo: seq<string>)
    requires todo != [] && UpsFirst(todo)
    ensures UpsFirst(todo[1..])
    ensures todo[0] != "" && todo[0] != "." && todo[0] != ".." ==> ClimbFree(todo[1..])
  {
  }

  lemma TameTarget(fs: Fs, p: Path, rest: seq<string>)
    requires TameLinks(fs) && IsLink(fs, p) && ClimbFree(rest)
    ensures UpsFirst(Split(fs[p].target, '/') + rest)
  {
    UpsFirstMore(Split(fs[p].target, '/'), rest);
  }

  /** Where links climb first, a walk that is not held ends outside. */
  lemma {:induction false} NotHeldEndsOutside(fs: Fs, dest: Path, cur: Path, todo: seq<string>, n: nat)
    requires RealDirectory(fs, dest) && Tree(fs) && TameLinks(fs) && UpsFirst(todo)
    requires !Held(fs, dest, cur, todo, n) && (dest <= cur ==> IsDir(fs, cur))
    ensures var w := Follow(fs, cur, todo, n); !w.Nowhere? && !(dest <= w.path)
    decreases n, |todo|
  {
    assert dest[..|dest|] == dest && dest[..0] == [];
    if todo != [] {
      var c, rest := todo[0], todo[1..];
      var next := cur + [c];
      UpsFirstRest(todo);
      if c == "" || c == "." {
        NotHeldEndsOutside(fs, dest, cur, rest, n);
      } else if c == ".." {
        NotHeldEndsOutside(fs, dest, Parent(cur), rest, n);
      } else {
        assert !(dest <= cur) && next != dest;
        if next in fs && !fs[next].Link? {
          NotHeldEndsOutside(fs, dest, next, rest, n);
        } else if next in fs {
          var t := fs[next].target;
          TameTarget(fs, next, rest);
          NotHeldEndsOutside(fs, dest, Origin(next, t), Split(t, '/') + rest, n - 1);
        }
      }
    }
  }

  /** An old link that is not held leads out under its own name. */
  lemma NotHeldLeadsOut(fs: Fs, dest: Path, p: Path, n: nat)
    requires RealDirectory(fs, dest) && Tree(fs) && TameLinks(fs)
    requires dest < p && Canonical(p) && !HeldLink(fs, dest, p, n)
    ensures LeadsOut(fs, dest, p[|dest|..], n)
  {
    var t := fs[p].target;
    assert p == dest + p[|dest|..];
    LinkWalk(fs, p, n);
    NotHeldEndsOutside(fs, dest, Origin(p, t), Split(t, '/'), n - 1);
  }

  /** From "/" a link is reached by its own path. */
  lemma LinkWalk(fs: Fs, p: Path, n: nat)
    requires Tree(fs) && IsLink(fs, p) && p != [] && Canonical(p) && n > 0
    ensures Follow(fs, [], p, n) == Follow(fs, Origin(p, fs[p].target), Split(fs[p].target, '/'), n - 1)
    ensures IsDir(fs, Parent(p))
  {
    var up, t := Parent(p), fs[p].target;
    assert p == up + [Last(p)];
    UpWalk(fs, p, [Last(p)], n);
    assert Split(t, '/') + [] == Split(t, '/') && [Last(p)][1..] == [];
  }

  /** Whatever the archive, nothing outside changes. */
  ghost predicate Contained(fs: Fs, dest: Path, limit: nat) {
    forall src :: SameOutside(fs, Extract(fs, dest, src, limit).fs, dest)
  }

  ghost predicate NoneLeadsOut(fs: Fs, dest: Path, limit: nat) {
    forall names :: Plain(names) ==> !LeadsOut(fs, dest, names, limit)
  }

  /**
   * Where old links climb first and have plain names: no archive changes anything outside, exactly when
   * no plain name leads out beforehand, exactly when every old link is held in.
   */
  lemma ContainedExactly(fs: Fs, dest: Path, limit: nat)
    requires RealDirectory(fs, dest) && Tree(fs) && TameLinks(fs) && PlainLinks(fs, dest)
    ensures Contained(fs, dest, limit) <==> NoneLeadsOut(fs, dest, limit)
    ensures Contained(fs, dest, limit) <==> HeldLinks(fs, dest, limit)
  {
    if HeldLinks(fs, dest, limit) {
      HeldIsContained(fs, dest, limit);
    } else {
      NotHeldIsLedOut(fs, dest, limit);
    }
    if Contained(fs, dest, limit) {
      ContainedLeadsNowhere(fs, dest, limit);
    }
  }

  lemma HeldIsContained(fs: Fs, dest: Path, limit: nat)
    requires RealDirectory(fs, dest) && HeldLinks(fs, dest, limit)
    ensures Contained(fs, dest, limit)
  {
    forall src: Stream
      ensures SameOutside(fs, Extract(fs, dest, src, limit).fs, dest)
    {
      ExtractionStaysInside(fs, dest, src, limit);
    }
  }

  lemma ContainedLeadsNowhere(fs: Fs, dest: Path, limit: nat)
    requires RealDirectory(fs, dest) && Tree(fs) && Contained(fs, dest, limit)
    ensures NoneLeadsOut(fs, dest, limit)
  {
    if names :| Plain(names) && LeadsOut(fs, dest, names, limit) {
      var src := LedOutIsWritten(fs, dest, names, limit);
    }
  }

  lemma NotHeldIsLedOut(fs: Fs, dest: Path, limit: nat)
    requires RealDirectory(fs, dest) && Tree(fs) && TameLinks(fs) && PlainLinks(fs, dest)
    requires !HeldLinks(fs, dest, limit)
    ensures !NoneLeadsOut(fs, dest, limit) && !Contained(fs, dest, limit)
  {
    var p :| dest < p && !HeldLink(fs, dest, p, limit);
    var names := p[|dest|..];
    assert p == dest + names && Plain(names);
    NotHeldLeadsOut(fs, dest, p, limit);
    var src := LedOutIsWritten(fs, dest, names, limit);
  }

  // ---------------------------------------------------------------- a target that climbs later

  /** "/r/l" leads nowhere, until there is a directory "/r/b". */
  predicate LateClimb(fs: Fs) {
    fs == map[[] := Dir, ["r"] := Dir, ["r", "l"] := Link("b/../../etc"), ["etc"] := Dir]
  }

  lemma LateSplits()
    ensures Split("b/../../etc", '/') == ["b", "..", "..", "etc"]
  {
    var parts := ["b", "..", "..", "etc"];
    SplitJoin(parts, '/');
    assert parts[1..][1..][1..] == ["etc"] && Join(["etc"], '/') == "etc";
    assert parts[1..][1..] == ["..", "etc"] && Join(["..", "etc"], '/') == "../etc";
    assert parts[1..] == ["..", "..", "etc"] && Join(["..", "..", "etc"], '/') == "../../etc";
    assert Join(parts, '/') == "b/../../etc";
  }

  /** What matters of it. */
  ghost predicate LateFacts(fs: Fs) {
    && IsDir(fs, []) && IsDir(fs, ["r"]) && IsDir(fs, [] + ["etc"]) && ["etc"] + ["x"] !in fs
    && (forall x :: ["r"] + [x] in fs ==> x == "l")
    && IsLink(fs, ["r"] + ["l"]) && LateTarget(fs[["r"] + ["l"]].target)
  }

  predicate LateTarget(t: string) {
    !("/" <= t) && Split(t, '/') == ["b", "..", "..", "etc"]
  }

  lemma LateHolds(fs: Fs)
    requires LateClimb(fs)
    ensures LateFacts(fs)
  {
    LateDirs(fs);
    LateLink(fs);
    OnlyNameInRoot(fs);
  }

  lemma LateDirs(fs: Fs)
    requires LateClimb(fs)
    ensures IsDir(fs, []) && IsDir(fs, ["r"]) && IsDir(fs, [] + ["etc"]) && ["etc"] + ["x"] !in fs
  {
    assert [] + ["etc"] == ["etc"] && |["etc"] + ["x"]| == 2 && (["etc"] + ["x"])[1] != ["r", "l"][1];
  }

  lemma LateLink(fs: Fs)
    requires LateClimb(fs)
    ensures IsLink(fs, ["r"] + ["l"]) && LateTarget(fs[["r"] + ["l"]].target)
  {
    var t := "b/../../etc";
    assert ["r"] + ["l"] == ["r", "l"];
    assert fs[["r"] + ["l"]] == Link(t);
    assert LateTarget(t) by {
      LateSplits();
      assert t[0] == 'b';
    }
  }

  lemma OnlyNameInRoot(fs: Fs)
    requires fs.Keys == {[], ["r"], ["r", "l"], ["etc"]}
    ensures forall x :: ["r"] + [x] in fs ==> x == "l"
  {
    forall x | ["r"] + [x] in fs
      ensures x == "l"
    {
      assert |["r"] + [x]| == 2 && (["r"] + [x])[1] == x;
    }
  }

  lemma RootOfTwo(fs: Fs)
    requires IsDir(fs, []) && IsDir(fs, ["r"])
    ensures RealDirectory(fs, ["r"])
  {
    assert ["r"][..0] == [] && ["r"][..1] == ["r"];
  }

  /** Below a directory that holds one link, and that link leads nowhere, no name leads out. */
  lemma OnlyLinkLeadsNowhere(fs: Fs, names: Path, n: nat)
    requires LateFacts(fs) && Canonical(names)
    ensures var w := Follow(fs, ["r"], names, n); !w.Nowhere? ==> ["r"] <= w.path
  {
    if names != [] {
      var next := ["r"] + [names[0]];
      assert ["r"] <= next;
      if names[0] == "l" && n > 0 {
        var todo := ["b", "..", "..", "etc"] + names[1..];
        assert todo[0] == "b" && todo[1..] != [] && ["r"] + ["b"] !in fs;
        assert Follow(fs, ["r"], todo, n - 1).Nowhere?;
      }
    }
  }

  /** No name leads out of it as it is. */
  lemma LateLeadsNowhere(fs: Fs)
    requires LateFacts(fs)
    ensures NoneLeadsOut(fs, ["r"], 40)
  {
    RootOfTwo(fs);
    forall names | Plain(names)
      ensures !LeadsOut(fs, ["r"], names, 40)
    {
      FollowInto(fs, ["r"], names, 40);
      OnlyLinkLeadsNowhere(fs, names, 40);
    }
  }

  /** The directory "b", and then the file "l/x". */
  function DirThenFile(): seq<Entry> {
    [Entry("b", Directory, "", "", false), Entry(Join(["l", "x"], '/'), Regular, "", "", false)]
  }

  lemma DirMade(fs: Fs)
    requires LateFacts(fs)
    ensures ExtractEntry(Start(fs), ["r"], DirThenFile()[0], 40) == Pass(fs[["r"] + ["b"] := Dir], 0, 1, [], true)
  {
    RootOfTwo(fs);
    DirEntry(fs, ["r"], "b");
  }

  /** An entry of a directory with a free name makes it. */
  lemma DirEntry(fs: Fs, dest: Path, c: string)
    requires RealDirectory(fs, dest) && Plain([c]) && dest + [c] !in fs
    ensures ExtractEntry(Start(fs), dest, Entry(c, Directory, "", "", false), 40)
         == Pass(fs[dest + [c] := Dir], 0, 1, [], true)
  {
    PlainAccepted(dest, [c]);
    RelEscapes(dest, dest + [c]);
    NewDir(fs, dest, c);
  }

  /** A free name in a real directory is made there. */
  lemma NewDir(fs: Fs, dest: Path, c: string)
    requires RealDirectory(fs, dest) && Name(c) && dest + [c] !in fs
    ensures MkdirAll(fs, dest + [c], 40) == Effect(fs[dest + [c] := Dir], true)
  {
    var p := dest + [c];
    assert dest[..|dest|] == dest && Parent(p) == dest && dest + [] == dest && [c][1..] == [];
    FollowInto(fs, dest, [c], 40);
    FollowInto(fs, dest, [], 40);
    assert MkdirAll(fs, dest, 40) == Effect(fs, true);
  }

  /** With "/r/b" there, the link leads to "/etc". */
  lemma LateWalk(fs: Fs)
    requires IsDir(fs, []) && IsDir(fs, ["r"]) && IsDir(fs, ["r"] + ["b"]) && IsDir(fs, [] + ["etc"])
    requires IsLink(fs, ["r"] + ["l"]) && LateTarget(fs[["r"] + ["l"]].target) && ["etc"] + ["x"] !in fs
    ensures Follow(fs, ["r"], ["l", "x"], 40) == Fresh(["etc"] + ["x"])
  {
    var todo := ["b", "..", "..", "etc"] + ["x"];
    assert ["l", "x"][1..] == ["x"];
    assert Follow(fs, ["r"], ["l", "x"], 40) == Follow(fs, ["r"], todo, 39);
    assert todo[1..] == ["..", "..", "etc", "x"];
    assert Follow(fs, ["r"], todo, 39) == Follow(fs, ["r"] + ["b"], ["..", "..", "etc", "x"], 39);
    assert Parent(["r"] + ["b"]) == ["r"] && Parent(["r"]) == [];
    LateUps(fs);
  }

  lemma LateUps(fs: Fs)
    requires IsDir(fs, []) && IsDir(fs, ["r"]) && IsDir(fs, ["r"] + ["b"]) && IsDir(fs, [] + ["etc"])
    requires ["etc"] + ["x"] !in fs
    ensures Follow(fs, ["r"] + ["b"], ["..", "..", "etc", "x"], 39) == Fresh(["etc"] + ["x"])
  {
    assert ["..", "..", "etc", "x"][1..] == ["..", "etc", "x"] && ["..", "etc", "x"][1..] == ["etc", "x"];
    assert ["etc", "x"][1..] == ["x"] && ["x"][1..] == [] && [] + ["etc"] == ["etc"];
    assert Parent(["r"] + ["b"]) == ["r"] && Parent(["r"]) == [];
    assert Follow(fs, ["etc"], ["x"], 39) == Fresh(["etc"] + ["x"]);
    assert Follow(fs, [], ["etc", "x"], 39) == Fresh(["etc"] + ["x"]);
    assert Follow(fs, ["r"], ["..", "etc", "x"], 39) == Fresh(["etc"] + ["x"]);
  }

  lemma TwoEntries(s: Pass, s1: Pass, s2: Pass, dest: Path, entries: seq<Entry>, n: nat)
    requires |entries| == 2 && s.ok && s1.ok && s2.links == []
    requires s1 == ExtractEntry(s, dest, entries[0], n) && s2 == ExtractEntry(s1, dest, entries[1], n)
    requires s == Start(s.fs)
    ensures Extract(s.fs, dest, Stream(entries, false), n).fs == s2.fs
  {
    assert entries[1..] == [entries[1]] && entries[1..][1..] == [];
    assert ExtractEntries(s, dest, entries, n) == ExtractEntries(s1, dest, entries[1..], n)
        == ExtractEntries(s2, dest, [], n) == s2;
  }

  /** Where a target climbs after it went down, no name leads out, and still an archive writes outside. */
  lemma LateClimbEscapes(fs: Fs)
    requires LateClimb(fs)
    ensures NoneLeadsOut(fs, ["r"], 40) && !Contained(fs, ["r"], 40)
  {
    LateHolds(fs);
    LateLeadsNowhere(fs);
    DirMade(fs);
    assert ["etc"] + ["x"] == ["etc", "x"];
    var s1 := Pass(fs[["r"] + ["b"] := Dir], 0, 1, [], true);
    LateMade(fs, s1.fs);
    LateWrites(fs, s1, DirThenFile());
  }

  lemma LateMade(fs: Fs, made: Fs)
    requires LateFacts(fs) && made == fs[["r"] + ["b"] := Dir]
    ensures RealDirectory(made, ["r"]) && Follow(made, [], ["r"] + ["l", "x"], 40) == Fresh(["etc"] + ["x"])
  {
    assert (["r"] + ["b"])[1] != (["r"] + ["l"])[1] && (["r"] + ["b"])[0] != (["etc"] + ["x"])[0];
    RootOfTwo(made);
    LateWalk(made);
    FollowInto(made, ["r"], ["l", "x"], 40);
  }

  lemma LateWrites(fs: Fs, s1: Pass, entries: seq<Entry>)
    requires s1.ok && s1.total == 0 && s1.count == 1 && s1.links == [] && ["etc", "x"] !in fs
    requires |entries| == 2 && entries[1] == Entry(Join(["l", "x"], '/'), Regular, "", "", false)
    requires s1 == ExtractEntry(Start(fs), ["r"], entries[0], 40)
    requires RealDirectory(s1.fs, ["r"]) && Follow(s1.fs, [], ["r"] + ["l", "x"], 40) == Fresh(["etc", "x"])
    ensures !Contained(fs, ["r"], 40)
  {
    var dest, q := ["r"], ["etc", "x"];
    EntryWrites(s1, dest, ["l", "x"], "", q, 40);
    var s2 := ExtractEntry(s1, dest, entries[1], 40);
    TwoEntries(Start(fs), s1, s2, dest, entries, 40);
    assert q in s2.fs && !(dest <= q);
    assert !SameOutside(fs, Extract(fs, dest, Stream(entries, false), 40).fs, dest);
  }
}
