/**
 * What extraction does to the host, whatever the archive, when no old link leads out: nothing outside
 * the destination changes, and no path without ".." leads out of it afterwards, even through links
 * made via earlier links.
 */
module ArchiveSafety {
  import opened Basics
  import opened Strings
  import opened Paths
  import opened Filesystem
  import opened Archive
  import opened Containment

  /** Against the outside as it was, nothing has changed, and nothing inside leads there. */
  ghost predicate Sound(was: Fs, fs: Fs, dest: Path, n: nat) {
    Sealed(fs, dest, n) && SameOutside(was, fs, dest)
  }

  // ---------------------------------------------------------------- each operation keeps Sound

  lemma SetKeeps(was: Fs, fs: Fs, dest: Path, x: Path, node: Node, n: nat)
    requires Sound(was, fs, dest, n) && dest < x
    requires node.Link? ==> SafeTarget(node.target)
    ensures Sound(was, fs[x := node], dest, n)
    ensures IsDir(fs, dest) <==> IsDir(fs[x := node], dest)
  {
    var after := fs[x := node];
    forall i | 0 <= i < |dest|
      ensures IsDir(after, dest[..i])
    {
      assert IsDir(fs, dest[..i]);
      assert |dest[..i]| < |x|;
    }
    forall p | dest < p
      ensures HeldLink(after, dest, p, n)
    {
      if p == x {
        SafeIsHeld(after, dest, p, n);
      } else {
        HeldLinkSame(fs, after, dest, p, n);
      }
    }
  }

  lemma DropKeeps(was: Fs, fs: Fs, dest: Path, x: Path, n: nat)
    requires Sound(was, fs, dest, n) && dest < x
    ensures Sound(was, fs - {x}, dest, n)
    ensures IsDir(fs, dest) <==> IsDir(fs - {x}, dest)
  {
    forall i | 0 <= i < |dest|
      ensures IsDir(fs - {x}, dest[..i])
    {
      assert IsDir(fs, dest[..i]);
      assert |dest[..i]| < |x|;
    }
    var after := fs - {x};
    forall p | dest < p
      ensures HeldLink(after, dest, p, n)
    {
      HeldLinkSame(fs, after, dest, p, n);
    }
  }

  lemma SoundSelf(was: Fs, fs: Fs, dest: Path, n: nat)
    requires Sound(was, fs, dest, n)
    ensures Sound(fs, fs, dest, n)
  {
  }

  /** The directory that holds the last name of a path strictly below dest is below dest. */
  lemma HolderBelow(was: Fs, fs: Fs, dest: Path, p: Path, n: nat)
    requires Sound(was, fs, dest, n) && Canonical(p) && dest < p
    ensures dest <= Parent(p) && Parent(p) == dest + Parent(p)[|dest|..]
    ensures var d := Follow(fs, [], Parent(p), n); d.Found? ==> dest <= d.path
  {
    assert Parent(p) == dest + Parent(p)[|dest|..];
    FollowFromTop(fs, dest, Parent(p)[|dest|..], n, n);
  }

  lemma MkdirKeeps(was: Fs, fs: Fs, dest: Path, p: Path, n: nat)
    requires Sound(was, fs, dest, n) && Canonical(p) && dest <= p
    ensures Sound(was, Mkdir(fs, p, n).fs, dest, n)
    ensures IsDir(fs, dest) <==> IsDir(Mkdir(fs, p, n).fs, dest)
  {
    if p == dest {
      FollowToParent(fs, dest, [], n);
      assert Parent(dest) + [] == Parent(dest) && Parent(dest) + [Last(dest)] == dest;
    } else {
      HolderBelow(was, fs, dest, p, n);
      var d := Follow(fs, [], Parent(p), n);
      if d.Found? {
        SetKeeps(was, fs, dest, d.path + [Last(p)], Dir, n);
      }
    }
  }

  lemma {:induction false} MkdirAllKeeps(was: Fs, fs: Fs, dest: Path, p: Path, n: nat)
    requires Sound(was, fs, dest, n) && Canonical(p) && (dest <= p || p == Parent(dest))
    ensures Sound(was, MkdirAll(fs, p, n).fs, dest, n)
    ensures IsDir(fs, dest) <==> IsDir(MkdirAll(fs, p, n).fs, dest)
    decreases |p|
  {
    if p == Parent(dest) {
      FollowToParent(fs, dest, [], n);
      assert p + [] == p;
    } else if !Follow(fs, [], p, n).Found? {
      assert Parent(p) == Parent(dest) || dest <= Parent(p);
      MkdirAllKeeps(was, fs, dest, Parent(p), n);
      var up := MkdirAll(fs, Parent(p), n).fs;
      MkdirKeeps(was, up, dest, p, n);
    }
  }

  lemma WriteFileKeeps(was: Fs, fs: Fs, dest: Path, p: Path, data: string, n: nat)
    requires Sound(was, fs, dest, n) && Canonical(p) && dest <= p
    ensures var after := WriteFile(fs, p, data, n).fs;
      && Sound(was, after, dest, n)
      && (IsDir(fs, dest) <==> IsDir(after, dest))
  {
    assert p == dest + p[|dest|..];
    FollowFromTop(fs, dest, p[|dest|..], n, n);
    var w := Follow(fs, [], p, n);
    if !w.Nowhere? && w.path != dest {
      SetKeeps(was, fs, dest, w.path, File(data), n);
    }
  }

  // ---------------------------------------------------------------- the entry loop

  /** What is known of a recorded link. */
  predicate GoodPlan(dest: Path, l: LinkPlan)
    requires dest != []
  {
    && dest <= l.path && Canonical(l.path) && SafeTarget(l.target)
    && (l.path == dest ==> Leads(Split(l.target, '/'), Last(dest)))
  }

  predicate GoodPlans(dest: Path, links: seq<LinkPlan>)
    requires dest != []
  {
    forall i :: 0 <= i < |links| ==> GoodPlan(dest, links[i])
  }

  lemma {:induction false} SquashLeads(parts: seq<string>)
    requires ClimbFree(parts) && Squash([], parts) != []
    ensures Leads(parts, Squash([], parts)[0])
    decreases |parts|
  {
    if parts != [] {
      if parts[0] == "" || parts[0] == "." {
        SquashLeads(parts[1..]);
      } else {
        assert Push([], parts[0]) == [parts[0]];
        SquashBelow([parts[0]], parts[1..]);
      }
    }
  }

  /** A link kept for dest itself can only lead back to dest. */
  lemma KeptIsGood(dest: Path, target: Path, linkname: string)
    requires dest != [] && Canonical(target) && dest <= target
    requires LinkKept(dest, target, linkname)
    ensures GoodPlan(dest, LinkPlan(target, linkname))
  {
    if target == dest {
      var up := Parent(dest);
      var parts := Split(linkname, '/');
      JoinPathCanonical(up, linkname);
      RelEscapes(dest, JoinPath(up, linkname));
      SquashBelow(up, parts);
      var names := Squash([], parts);
      assert dest <= up + names;
      assert (up + names)[|dest| - 1] == dest[|dest| - 1];
      SquashLeads(parts);
    }
  }

  lemma RegularKeeps(was: Fs, s: Pass, dest: Path, e: Entry, n: nat)
    requires Sound(was, s.fs, dest, n) && ValidEntry(e.name) && e.kind == Regular
    ensures var after := ExtractEntry(s, dest, e, n);
      && Sound(was, after.fs, dest, n) && after.links == s.links
      && (IsDir(s.fs, dest) <==> IsDir(after.fs, dest))
  {
    var c := TargetBelow(dest, e.name);
    var target := dest + c;
    ParentMade(was, s.fs, dest, c, n);
    var made := MkdirAll(s.fs, Parent(target), n).fs;
    var m := RegularEffect(s, dest, e, n);
    WriteFileKeeps(was, made, dest, target, e.body[..m], n);
  }

  /** A regular entry makes its parents, and at most writes part of its body. */
  lemma RegularEffect(s: Pass, dest: Path, e: Entry, n: nat) returns (m: nat)
    requires e.kind == Regular
    ensures m <= |e.body|
    ensures var target, after := JoinPath(dest, e.name), ExtractEntry(s, dest, e, n);
      var made := MkdirAll(s.fs, Parent(target), n).fs;
      && after.links == s.links
      && (after.fs == s.fs || after.fs == made || after.fs == WriteFile(made, target, e.body[..m], n).fs)
  {
    if s.total > MAX_BYTES {
      m := 0;
    } else {
      m := CopyLength(s.total, e.body);
      var target := JoinPath(dest, e.name);
      CopyEffect(s.(count := s.count + 1, fs := MkdirAll(s.fs, Parent(target), n).fs), target, e, n);
    }
  }

  lemma CopyEffect(s: Pass, target: Path, e: Entry, n: nat)
    requires s.total <= MAX_BYTES
    ensures var after := CopyFile(s, target, e, n);
      && after.links == s.links && after.count == s.count
      && after.fs == WriteFile(s.fs, target, e.body[..CopyLength(s.total, e.body)], n).fs
  {
  }

  lemma ParentMade(was: Fs, fs: Fs, dest: Path, c: Path, n: nat)
    requires Sound(was, fs, dest, n) && Canonical(c)
    ensures var made := MkdirAll(fs, Parent(dest + c), n).fs;
      Sound(was, made, dest, n) && (IsDir(fs, dest) <==> IsDir(made, dest))
  {
    assert Parent(dest + c) == Parent(dest) || dest <= Parent(dest + c);
    MkdirAllKeeps(was, fs, dest, Parent(dest + c), n);
  }

  lemma EntryKeeps(was: Fs, s: Pass, dest: Path, e: Entry, n: nat)
    requires Sound(was, s.fs, dest, n) && GoodPlans(dest, s.links)
    ensures var after := ExtractEntry(s, dest, e, n);
      && Sound(was, after.fs, dest, n) && GoodPlans(dest, after.links)
      && (IsDir(s.fs, dest) <==> IsDir(after.fs, dest))
  {
    if ValidEntry(e.name) {
      if e.kind == Regular {
        RegularKeeps(was, s, dest, e, n);
      } else {
        var c := TargetBelow(dest, e.name);
        MkdirAllKeeps(was, s.fs, dest, dest + c, n);
        if LinkKept(dest, dest + c, e.linkname) {
          KeptIsGood(dest, dest + c, e.linkname);
        }
      }
    }
  }

  lemma {:induction false} EntriesKeep(was: Fs, s: Pass, dest: Path, entries: seq<Entry>, n: nat)
    requires Sound(was, s.fs, dest, n) && GoodPlans(dest, s.links)
    ensures var after := ExtractEntries(s, dest, entries, n);
      && Sound(was, after.fs, dest, n) && GoodPlans(dest, after.links)
      && (IsDir(s.fs, dest) <==> IsDir(after.fs, dest))
    decreases |entries|
  {
    if entries != [] && s.ok {
      EntryKeeps(was, s, dest, entries[0], n);
      EntriesKeep(was, ExtractEntry(s, dest, entries[0], n), dest, entries[1..], n);
    }
  }

  // ---------------------------------------------------------------- the link loop

  lemma RemoveKeeps(was: Fs, fs: Fs, dest: Path, p: Path, n: nat)
    requires Sound(was, fs, dest, n) && Canonical(p) && dest < p
    ensures Sound(was, Remove(fs, p, n), dest, n)
    ensures IsDir(fs, dest) <==> IsDir(Remove(fs, p, n), dest)
  {
    HolderBelow(was, fs, dest, p, n);
    var d := Follow(fs, [], Parent(p), n);
    if d.Found? {
      DropKeeps(was, fs, dest, d.path + [Last(p)], n);
    }
  }

  /** Below dest a placed link leaves dest non-empty, so dest cannot be removed later. */
  lemma PlaceBelowKeeps(was: Fs, fs: Fs, dest: Path, l: LinkPlan, n: nat)
    requires Sound(was, fs, dest, n) && GoodPlan(dest, l) && l.path != dest
    ensures var placed := PlaceLink(fs, l, n);
      && Sound(was, placed.fs, dest, n)
      && (IsDir(fs, dest) <==> IsDir(placed.fs, dest))
      && (placed.ok ==> IsDir(placed.fs, dest) && !EmptyBelow(placed.fs, dest))
  {
    var p := l.path;
    RemoveKeeps(was, fs, dest, p, n);
    var removed := Remove(fs, p, n);
    HolderBelow(was, removed, dest, p, n);
    MkdirAllKeeps(was, removed, dest, Parent(p), n);
    var made := MkdirAll(removed, Parent(p), n).fs;
    HolderBelow(was, made, dest, p, n);
    var d := Follow(made, [], Parent(p), n);
    if d.Found? {
      var x := d.path + [Last(p)];
      SetKeeps(was, made, dest, x, Link(l.target), n);
      assert x in made[x := Link(l.target)] && dest < x;
      FollowFromTop(made, dest, Parent(p)[|dest|..], n, n);
    }
  }

  /** A link for dest itself replaces dest exactly when dest is not a non-empty directory. */
  lemma PlaceAtRoot(was: Fs, fs: Fs, dest: Path, l: LinkPlan, n: nat)
    requires Sound(was, fs, dest, n) && GoodPlan(dest, l) && l.path == dest
    ensures PlaceLink(fs, l, n)
         == if IsDir(fs, dest) && !EmptyBelow(fs, dest) then Effect(fs, false)
            else Effect(fs[dest := Link(l.target)], true)
    ensures Sound(was, PlaceLink(fs, l, n).fs, dest, n)
  {
    var up := Parent(dest);
    assert up + [] == up && up + [Last(dest)] == dest;
    FollowToParent(fs, dest, [], n);
    if !(IsDir(fs, dest) && !EmptyBelow(fs, dest)) {
      var removed := fs - {dest};
      assert Remove(fs, dest, n) == removed;
      forall i | 0 <= i < |dest|
        ensures IsDir(removed, dest[..i])
      {
        assert IsDir(fs, dest[..i]);
        assert |dest[..i]| < |dest|;
      }
      FollowToParent(removed, dest, [], n);
      assert MkdirAll(removed, up, n) == Effect(removed, true);
      var after := fs[dest := Link(l.target)];
      assert removed[dest := Link(l.target)] == after;
      forall i | 0 <= i < |dest|
        ensures IsDir(after, dest[..i])
      {
        assert IsDir(fs, dest[..i]);
        assert |dest[..i]| < |dest|;
      }
      forall p | dest < p
        ensures HeldLink(after, dest, p, n)
      {
        HeldLinkSame(fs, after, dest, p, n);
      }
    }
  }

  /** Once dest is non-empty it stays a directory; once it is a link it stays one. */
  lemma {:induction false} LinksKeep(was: Fs, fs: Fs, dest: Path, links: seq<LinkPlan>, n: nat)
    requires Sound(was, fs, dest, n) && GoodPlans(dest, links)
    ensures Sound(was, PlaceLinks(fs, links, n).fs, dest, n)
    ensures IsDir(PlaceLinks(fs, links, n).fs, dest)
      <==> IsDir(fs, dest) && (links != [] && links[0].path == dest ==> !EmptyBelow(fs, dest))
    decreases |links|
  {
    if links != [] {
      var l := links[0];
      if l.path == dest {
        PlaceAtRoot(was, fs, dest, l, n);
      } else {
        PlaceBelowKeeps(was, fs, dest, l, n);
      }
      var placed := PlaceLink(fs, l, n);
      if placed.ok {
        LinksKeep(was, placed.fs, dest, links[1..], n);
      }
    }
  }

  // ---------------------------------------------------------------- main results

  /** A real directory whose old links are held in is where extraction starts. */
  lemma StartsSound(fs: Fs, dest: Path, n: nat)
    requires RealDirectory(fs, dest) && HeldLinks(fs, dest, n)
    ensures Sound(fs, fs, dest, n) && IsDir(fs, dest)
  {
    assert dest[..|dest|] == dest;
  }

  /** Whatever the archive, the outside is untouched and nothing inside leads out. */
  lemma ExtractionStaysInside(fs: Fs, dest: Path, src: Stream, limit: nat)
    requires RealDirectory(fs, dest) && HeldLinks(fs, dest, limit)
    ensures var after := Extract(fs, dest, src, limit).fs;
      && SameOutside(fs, after, dest)
      && HeldLinks(after, dest, limit)
      && forall todo, n: nat :: ClimbFree(todo) && n <= limit ==>
           var w := Follow(after, [], dest + todo, n); w.Nowhere? || dest <= w.path
  {
    StartsSound(fs, dest, limit);
    EntriesKeep(fs, Start(fs), dest, src.entries, limit);
    var s := ExtractEntries(Start(fs), dest, src.entries, limit);
    LinksKeep(fs, s.fs, dest, s.links, limit);
    var after := Extract(fs, dest, src, limit).fs;
    forall todo, n: nat | ClimbFree(todo) && n <= limit
      ensures var w := Follow(after, [], dest + todo, n); w.Nowhere? || dest <= w.path
    {
      FollowFromTop(after, dest, todo, n, limit);
    }
  }

  /** The destination is still a directory, unless the link loop starts with "./" over an empty one. */
  lemma RootSurvivesLinks(fs: Fs, dest: Path, src: Stream, limit: nat)
    requires RealDirectory(fs, dest) && HeldLinks(fs, dest, limit)
    ensures var s := ExtractEntries(Start(fs), dest, src.entries, limit);
      IsDir(Extract(fs, dest, src, limit).fs, dest)
      <==> !(s.ok && !src.broken && s.links != [] && s.links[0].path == dest && EmptyBelow(s.fs, dest))
  {
    StartsSound(fs, dest, limit);
    EntriesKeep(fs, Start(fs), dest, src.entries, limit);
    var s := ExtractEntries(Start(fs), dest, src.entries, limit);
    LinksKeep(fs, s.fs, dest, s.links, limit);
  }

  lemma RootEntryIsRecorded(fs: Fs, dest: Path, n: nat)
    requires dest == ["r"]
    ensures ExtractEntry(Start(fs), dest, Entry("./", Symlink, "r", "", false), n)
         == Pass(fs, 0, 1, [LinkPlan(dest, "r")], true)
  {
    BackslashFreeDot();
    EntryAccepted("./");
    var c := TargetBelow(dest, "./");
    assert dest + c == dest;
    RelEscapes(dest, dest);
    assert LinkKept(dest, dest, "r") by {
      SplitSeparatorFree("r", '/');
      assert Parent(dest) == [];
      assert Squash([] + ["r"], ["r"][1..]) == ["r"];
      assert JoinPath([], "r") == dest;
    }
  }

  /** An archive of one link "./" takes the place of an empty destination "/r". */
  lemma RootCanBeTaken(fs: Fs, dest: Path)
    requires fs == map[[] := Dir, ["r"] := Dir] && dest == ["r"]
    ensures var src := Stream([Entry("./", Symlink, "r", "", false)], false);
      RealDirectory(fs, dest) && !IsDir(Extract(fs, dest, src, 40).fs, dest)
  {
    var e := Entry("./", Symlink, "r", "", false);
    var src := Stream([e], false);
    assert dest[..0] == [] && dest[..1] == dest;
    RootEntryIsRecorded(fs, dest, 40);
    assert src.entries[1..] == [];
    var s := ExtractEntry(Start(fs), dest, e, 40);
    assert ExtractEntries(Start(fs), dest, src.entries, 40) == ExtractEntries(s, dest, src.entries[1..], 40) == s;
    RootSurvivesLinks(fs, dest, src, 40);
  }

  lemma BackslashFreeDot()
    ensures ReplaceAll("./", "\\", "/") == "./"
  {
    SplitConcat(".", "", '/');
    assert "./" == "." + ['/'] + "";
    BackslashFree("./");
  }

  // ---------------------------------------------------------------- what ends up in the files

  ghost predicate LinkFree(fs: Fs, dest: Path) {
    forall p :: p in fs && dest <= p ==> !fs[p].Link?
  }

  /** A walk by names that meets no link can only end where the names say. */
  lemma {:induction false} FollowByName(fs: Fs, cur: Path, names: Path, n: nat)
    requires Canonical(names) && forall i :: 1 <= i <= |names| ==> !IsLink(fs, cur + names[..i])
    ensures var w := Follow(fs, cur, names, n); !w.Nowhere? ==> w.path == cur + names
    decreases |names|
  {
    if names != [] {
      var next, rest := cur + [names[0]], names[1..];
      assert next + rest == cur + names && next == cur + names[..1];
      forall i | 1 <= i <= |rest|
        ensures !IsLink(fs, next + rest[..i])
      {
        assert next + rest[..i] == cur + names[..i + 1];
      }
      FollowByName(fs, next, rest, n);
    }
  }

  /** MkdirAll only adds directories. */
  lemma {:induction false} MkdirAllAdds(fs: Fs, p: Path, n: nat)
    ensures var after := MkdirAll(fs, p, n).fs;
      && (forall q :: q in fs ==> q in after && after[q] == fs[q])
      && (forall q :: q in after && q !in fs ==> after[q] == Dir)
    decreases |p|
  {
    if !Follow(fs, [], p, n).Found? && p != [] {
      MkdirAllAdds(fs, Parent(p), n);
    }
  }

  /** A regular entry is a copy once its directory is made. */
  lemma RegularCopies(s: Pass, dest: Path, e: Entry, target: Path, n: nat)
    requires e.kind == Regular && s.count < MAX_ENTRIES && s.total <= MAX_BYTES && ValidEntry(e.name)
    requires target == JoinPath(dest, e.name) && !Escapes(Rel(dest, target)) && MkdirAll(s.fs, Parent(target), n).ok
    ensures ExtractEntry(s, dest, e, n)
         == CopyFile(s.(count := s.count + 1, fs := MkdirAll(s.fs, Parent(target), n).fs), target, e, n)
  {
  }

  /** What it takes for a regular entry to succeed. */
  lemma RegularNeeds(s: Pass, dest: Path, e: Entry, n: nat)
    requires e.kind == Regular && ExtractEntry(s, dest, e, n).ok
    ensures s.count < MAX_ENTRIES && s.total <= MAX_BYTES && ValidEntry(e.name)
    ensures var target := JoinPath(dest, e.name);
      !Escapes(Rel(dest, target)) && MkdirAll(s.fs, Parent(target), n).ok
  {
  }

  /** In a link-free destination, a regular entry that succeeds is written where its name says, whole. */
  lemma RegularLands(was: Fs, s: Pass, dest: Path, e: Entry, n: nat)
    requires Sound(was, s.fs, dest, n) && IsDir(s.fs, dest) && LinkFree(s.fs, dest)
    requires e.kind == Regular && ExtractEntry(s, dest, e, n).ok
    ensures var target := JoinPath(dest, e.name);
      var after := ExtractEntry(s, dest, e, n).fs;
      && after == MkdirAll(s.fs, Parent(target), n).fs[target := File(e.body)]
      && LinkFree(after, dest)
  {
    RegularNeeds(s, dest, e, n);
    var c := TargetBelow(dest, e.name);
    var target := dest + c;
    RegularCopies(s, dest, e, target, n);
    ParentMade(was, s.fs, dest, c, n);
    MkdirAllAdds(s.fs, Parent(target), n);
    var made := MkdirAll(s.fs, Parent(target), n).fs;
    assert var w := Follow(made, [], target, n); !w.Nowhere? ==> w.path == target by {
      FollowFromTop(made, dest, c, n, n);
      FollowByName(made, dest, c, n);
    }
    WroteWhole(s.(count := s.count + 1, fs := made), target, e, n);
  }

  /** A copy that succeeds where the name says holds the whole body. */
  lemma WroteWhole(s: Pass, target: Path, e: Entry, n: nat)
    requires s.total <= MAX_BYTES && CopyFile(s, target, e, n).ok
    requires var w := Follow(s.fs, [], target, n); !w.Nowhere? ==> w.path == target
    ensures CopyFile(s, target, e, n).fs == s.fs[target := File(e.body)]
  {
    assert e.body[..|e.body|] == e.body;
  }

  lemma {:induction false} FileStays(was: Fs, s: Pass, dest: Path, entries: seq<Entry>, q: Path, n: nat)
    requires Sound(was, s.fs, dest, n) && IsDir(s.fs, dest) && LinkFree(s.fs, dest) && GoodPlans(dest, s.links)
    requires q in s.fs && s.fs[q].File?
    requires ExtractEntries(s, dest, entries, n).ok
    requires forall j :: 0 <= j < |entries| && entries[j].kind == Regular ==> JoinPath(dest, entries[j].name) != q
    ensures var after := ExtractEntries(s, dest, entries, n).fs; q in after && after[q] == s.fs[q]
    decreases |entries|
  {
    if entries != [] && s.ok {
      var e := entries[0];
      var next := ExtractEntry(s, dest, e, n);
      EntryKeeps(was, s, dest, e, n);
      if e.kind == Regular && next.ok {
        RegularLands(was, s, dest, e, n);
        MkdirAllAdds(s.fs, Parent(JoinPath(dest, e.name)), n);
      } else if e.kind == Directory {
        MkdirAllAdds(s.fs, JoinPath(dest, e.name), n);
      }
      if next.ok {
        FileStays(was, next, dest, entries[1..], q, n);
      }
    }
  }

  /** After the entry loop every file holds the whole body of the last regular entry of that name. */
  lemma {:induction false} FilesHoldBodies(was: Fs, s: Pass, dest: Path, entries: seq<Entry>, i: nat, n: nat)
    requires Sound(was, s.fs, dest, n) && IsDir(s.fs, dest) && LinkFree(s.fs, dest) && GoodPlans(dest, s.links)
    requires i < |entries| && entries[i].kind == Regular && ExtractEntries(s, dest, entries, n).ok && s.ok
    requires forall j :: i < j < |entries| && entries[j].kind == Regular ==>
      JoinPath(dest, entries[j].name) != JoinPath(dest, entries[i].name)
    ensures var after := ExtractEntries(s, dest, entries, n).fs;
      var target := JoinPath(dest, entries[i].name);
      target in after && after[target] == File(entries[i].body)
    decreases i
  {
    var e := entries[0];
    var next := ExtractEntry(s, dest, e, n);
    EntryKeeps(was, s, dest, e, n);
    assert next.ok;
    if e.kind == Regular {
      RegularLands(was, s, dest, e, n);
      MkdirAllAdds(s.fs, Parent(JoinPath(dest, e.name)), n);
    } else if e.kind == Directory {
      MkdirAllAdds(s.fs, JoinPath(dest, e.name), n);
    }
    if i == 0 {
      FileStays(was, next, dest, entries[1..], JoinPath(dest, e.name), n);
    } else {
      FilesHoldBodies(was, next, dest, entries[1..], i - 1, n);
    }
  }

  /** The entry loop makes no links. */
  lemma {:induction false} EntriesMakeNoLinks(was: Fs, s: Pass, dest: Path, entries: seq<Entry>, n: nat)
    requires Sound(was, s.fs, dest, n) && IsDir(s.fs, dest) && LinkFree(s.fs, dest) && GoodPlans(dest, s.links)
    requires ExtractEntries(s, dest, entries, n).ok
    ensures LinkFree(ExtractEntries(s, dest, entries, n).fs, dest)
    decreases |entries|
  {
    if entries != [] && s.ok {
      var e := entries[0];
      var next := ExtractEntry(s, dest, e, n);
      EntryKeeps(was, s, dest, e, n);
      if e.kind == Regular && next.ok {
        RegularLands(was, s, dest, e, n);
      } else if e.kind == Directory {
        MkdirAllAdds(s.fs, JoinPath(dest, e.name), n);
      }
      if next.ok {
        EntriesMakeNoLinks(was, next, dest, entries[1..], n);
      }
    }
  }

  // ---------------------------------------------------------------- what ends up in the links

  /** All links below dest are among these paths. */
  ghost predicate LinksAmong(fs: Fs, dest: Path, paths: set<Path>) {
    forall p :: dest <= p && IsLink(fs, p) ==> p in paths
  }

  /** A path strictly below dest that runs through none of the paths. */
  ghost predicate Beside(dest: Path, p: Path, paths: set<Path>) {
    dest < p && Canonical(p) && forall q :: q in paths ==> !(q <= p)
  }

  /** While its path runs through no link, the directory of a name is found where it says. */
  lemma HolderByName(was: Fs, fs: Fs, dest: Path, p: Path, paths: set<Path>, n: nat)
    requires Sound(was, fs, dest, n) && IsDir(fs, dest) && LinksAmong(fs, dest, paths) && Beside(dest, p, paths)
    ensures var d := Follow(fs, [], Parent(p), n); d.Found? ==> d.path == Parent(p)
  {
    var names := Parent(p)[|dest|..];
    assert Parent(p) == dest + names;
    SoundSelf(was, fs, dest, n);
    FollowFromTop(fs, dest, names, n, n);
    forall i | 0 <= i <= |names|
      ensures !IsLink(fs, dest + names[..i])
    {
      assert dest + names[..i] == p[..|dest| + i];
    }
    FollowByName(fs, dest, names, n);
  }

  predicate Placed(fs: Fs, l: LinkPlan) {
    l.path in fs && fs[l.path] == Link(l.target)
  }

  /** A link is to be placed there. */
  predicate Replaced(links: seq<LinkPlan>, p: Path) {
    exists k :: 0 <= k < |links| && links[k].path == p
  }

  /** Everything but the places of the links is as it was. */
  ghost predicate KeptBut(fs: Fs, after: Fs, links: seq<LinkPlan>) {
    forall q :: q in fs && !Replaced(links, q) ==> q in after && after[q] == fs[q]
  }

  lemma RemoveByName(fs: Fs, p: Path, n: nat)
    requires p != [] && var d := Follow(fs, [], Parent(p), n); d.Found? ==> d.path == Parent(p)
    ensures Remove(fs, p, n) == fs || Remove(fs, p, n) == fs - {p}
  {
    assert Parent(p) + [p[|p| - 1]] == p;
  }

  lemma MakeLinkByName(fs: Fs, l: LinkPlan, n: nat)
    requires l.path != [] && var d := Follow(fs, [], Parent(l.path), n); d.Found? ==> d.path == Parent(l.path)
    requires MakeLink(fs, l.target, l.path, n).ok
    ensures MakeLink(fs, l.target, l.path, n).fs == fs[l.path := Link(l.target)]
  {
    assert Parent(l.path) + [l.path[|l.path| - 1]] == l.path;
  }

  /** A link whose path runs through no other link is placed there, and nothing else changes but new directories. */
  lemma LinkLands(was: Fs, fs: Fs, dest: Path, l: LinkPlan, paths: set<Path>, n: nat)
    requires Sound(was, fs, dest, n) && IsDir(fs, dest) && GoodPlan(dest, l)
    requires LinksAmong(fs, dest, paths) && Beside(dest, l.path, paths) && PlaceLink(fs, l, n).ok
    ensures var after := PlaceLink(fs, l, n).fs;
      Placed(after, l) && KeptBut(fs, after, [l]) && LinksAmong(after, dest, paths + {l.path})
  {
    var p := l.path;
    HolderByName(was, fs, dest, p, paths, n);
    RemoveByName(fs, p, n);
    RemoveKeeps(was, fs, dest, p, n);
    var removed := Remove(fs, p, n);
    MkdirAllKeeps(was, removed, dest, Parent(p), n);
    MkdirAllAdds(removed, Parent(p), n);
    var made := MkdirAll(removed, Parent(p), n).fs;
    HolderByName(was, made, dest, p, paths, n);
    MakeLinkByName(made, l, n);
    assert [l][0] == l;
  }

  /** No link lies on the way of another, and none takes the place of dest. */
  ghost predicate Apart(dest: Path, links: seq<LinkPlan>, paths: set<Path>) {
    && (forall i :: 0 <= i < |links| ==> Beside(dest, links[i].path, paths))
    && (forall i, j :: 0 <= i < |links| && 0 <= j < |links| && i != j ==> !(links[i].path <= links[j].path))
  }

  lemma ApartRest(dest: Path, links: seq<LinkPlan>, paths: set<Path>)
    requires links != [] && Apart(dest, links, paths)
    ensures Apart(dest, links[1..], paths + {links[0].path}) && !Replaced(links[1..], links[0].path)
  {
    assert forall i :: 0 <= i < |links| - 1 ==> links[1..][i] == links[i + 1];
  }

  lemma KeptChains(fs: Fs, mid: Fs, after: Fs, links: seq<LinkPlan>)
    requires links != [] && KeptBut(fs, mid, [links[0]]) && KeptBut(mid, after, links[1..])
    ensures KeptBut(fs, after, links)
  {
    forall q | q in fs && !Replaced(links, q)
      ensures q in after && after[q] == fs[q]
    {
      assert links[0].path != q && [links[0]][0] == links[0];
      assert forall i :: 0 <= i < |links| - 1 ==> links[1..][i] == links[i + 1];
      assert !Replaced([links[0]], q) && !Replaced(links[1..], q);
    }
  }

  lemma {:induction false} LinksLand(was: Fs, fs: Fs, dest: Path, links: seq<LinkPlan>, paths: set<Path>, n: nat)
    requires Sound(was, fs, dest, n) && IsDir(fs, dest) && GoodPlans(dest, links)
    requires LinksAmong(fs, dest, paths) && Apart(dest, links, paths) && PlaceLinks(fs, links, n).ok
    ensures forall i :: 0 <= i < |links| ==> Placed(PlaceLinks(fs, links, n).fs, links[i])
    ensures KeptBut(fs, PlaceLinks(fs, links, n).fs, links)
    decreases |links|
  {
    if links != [] {
      var l, rest := links[0], links[1..];
      LinkLands(was, fs, dest, l, paths, n);
      PlaceBelowKeeps(was, fs, dest, l, n);
      var placed := PlaceLink(fs, l, n).fs;
      ApartRest(dest, links, paths);
      LinksLand(was, placed, dest, rest, paths + {l.path}, n);
      KeptChains(fs, placed, PlaceLinks(fs, links, n).fs, links);
      assert forall i :: 0 < i < |links| ==> links[i] == rest[i - 1];
    }
  }

  /** And no other link is there then. */
  lemma {:induction false} OnlyLinksLand(
      was: Fs, fs: Fs, dest: Path, links: seq<LinkPlan>, paths: set<Path>, n: nat, after: Fs)
    requires Sound(was, fs, dest, n) && IsDir(fs, dest) && GoodPlans(dest, links)
    requires LinksAmong(fs, dest, paths) && Apart(dest, links, paths)
    requires PlaceLinks(fs, links, n) == Effect(after, true)
    ensures forall p :: dest <= p && IsLink(after, p) ==> p in paths || Replaced(links, p)
    decreases |links|
  {
    if links != [] {
      var l, rest := links[0], links[1..];
      LinkLands(was, fs, dest, l, paths, n);
      PlaceBelowKeeps(was, fs, dest, l, n);
      ApartRest(dest, links, paths);
      OnlyLinksLand(was, PlaceLink(fs, l, n).fs, dest, rest, paths + {l.path}, n, after);
      forall p | dest <= p && IsLink(after, p)
        ensures p in paths || Replaced(links, p)
      {
        assert p in paths + {l.path} || Replaced(rest, p);
        if p !in paths {
          ReplacedMore(links, p);
        }
      }
    }
  }

  lemma ReplacedMore(links: seq<LinkPlan>, p: Path)
    requires links != [] && (p == links[0].path || Replaced(links[1..], p))
    ensures Replaced(links, p)
  {
    if p != links[0].path {
      var k :| 0 <= k < |links| - 1 && links[1..][k].path == p;
      assert links[k + 1].path == p;
    }
  }

  /**
   * A symlink that extraction is to place: a relative target that does not climb, and for the destination
   * itself one that leads back to it.
   */
  predicate Wanted(dest: Path, e: Entry) {
    && e.kind == Symlink && e.linkname != "" && e.linkname[0] != '/' && ClimbFree(Split(e.linkname, '/'))
    && (e.name == "./" && dest != [] ==> Leads(Split(e.linkname, '/'), Last(dest)))
  }

  /** Cleaning parts without ".." starts with the first part that does not vanish. */
  lemma {:induction false} LeadsSquash(parts: seq<string>, name: string)
    requires ClimbFree(parts) && Leads(parts, name) && name != "" && name != "."
    ensures Squash([], parts) != [] && Squash([], parts)[0] == name
    decreases |parts|
  {
    if parts[0] == "" || parts[0] == "." {
      LeadsSquash(parts[1..], name);
    } else {
      assert Push([], parts[0]) == [parts[0]];
      SquashBelow([parts[0]], parts[1..]);
    }
  }

  /** Below the destination the containment filter never fires. */
  lemma KeptBelow(dest: Path, target: Path, linkname: string)
    requires Canonical(target) && dest < target && ClimbFree(Split(linkname, '/'))
    ensures !Escapes(Rel(dest, JoinPath(Parent(target), linkname)))
  {
    var up := Parent(target);
    JoinPathCanonical(up, linkname);
    SquashBelow(up, Split(linkname, '/'));
    RelEscapes(dest, JoinPath(up, linkname));
  }

  /** For the destination itself it fires exactly unless the target leads back to it. */
  lemma KeptAtRoot(dest: Path, linkname: string)
    requires Canonical(dest) && dest != [] && ClimbFree(Split(linkname, '/'))
    ensures !Escapes(Rel(dest, JoinPath(Parent(dest), linkname))) <==> Leads(Split(linkname, '/'), Last(dest))
  {
    var up, parts := Parent(dest), Split(linkname, '/');
    JoinPathCanonical(up, linkname);
    SquashBelow(up, parts);
    RelEscapes(dest, JoinPath(up, linkname));
    var names := Squash([], parts);
    assert JoinPath(up, linkname) == up + names && dest == up + [Last(dest)];
    if Leads(parts, Last(dest)) {
      LeadsSquash(parts, Last(dest));
      assert (up + names)[..|dest|] == up + [names[0]];
    }
    if dest <= up + names {
      assert names != [] && (up + names)[|dest| - 1] == names[0] == Last(dest);
      SquashLeads(parts);
    }
  }

  /** A symlink is recorded exactly when it is wanted. */
  lemma WantedIsKept(dest: Path, e: Entry)
    requires Canonical(dest) && dest != [] && ValidEntry(e.name) && e.kind == Symlink
    ensures LinkKept(dest, JoinPath(dest, e.name), e.linkname) <==> Wanted(dest, e)
  {
    var c := TargetBelow(dest, e.name);
    assert "/" <= e.linkname <==> e.linkname != "" && e.linkname[0] == '/';
    if ClimbFree(Split(e.linkname, '/')) {
      if c == [] {
        assert dest + c == dest;
        KeptAtRoot(dest, e.linkname);
      } else {
        KeptBelow(dest, dest + c, e.linkname);
      }
    }
  }

  /** The links that an archive has placed when all entries are read. */
  function PlansOf(dest: Path, entries: seq<Entry>): seq<LinkPlan>
    decreases |entries|
  {
    if entries == [] then []
    else
      (if Wanted(dest, entries[0]) then [LinkPlan(JoinPath(dest, entries[0].name), entries[0].linkname)] else [])
      + PlansOf(dest, entries[1..])
  }

  lemma OnePlan(dest: Path, entries: seq<Entry>, links: seq<LinkPlan>)
    requires entries != []
    ensures links + PlansOf(dest, entries) == links + PlansOf(dest, [entries[0]]) + PlansOf(dest, entries[1..])
  {
    FirstPlan(dest, entries);
    PlansRegroup(links, PlansOf(dest, [entries[0]]), PlansOf(dest, entries[1..]));
  }

  lemma FirstPlan(dest: Path, entries: seq<Entry>)
    requires entries != []
    ensures PlansOf(dest, entries) == PlansOf(dest, [entries[0]]) + PlansOf(dest, entries[1..])
  {
    assert [entries[0]][1..] == [] && PlansOf(dest, []) == [];
  }

  lemma PlansRegroup(a: seq<LinkPlan>, b: seq<LinkPlan>, c: seq<LinkPlan>)
    ensures a + (b + c) == a + b + c
  {
  }

  lemma LoopStops(s: Pass, dest: Path, entries: seq<Entry>, n: nat)
    requires entries != [] && s.ok
    ensures ExtractEntries(s, dest, entries, n).ok ==> ExtractEntry(s, dest, entries[0], n).ok
  {
    var next := ExtractEntry(s, dest, entries[0], n);
    assert !next.ok ==> ExtractEntries(next, dest, entries[1..], n) == next;
  }

  lemma {:induction false} EntriesPlan(s: Pass, dest: Path, entries: seq<Entry>, n: nat)
    requires Canonical(dest) && dest != []
    requires ExtractEntries(s, dest, entries, n).ok && s.ok
    ensures ExtractEntries(s, dest, entries, n).links == s.links + PlansOf(dest, entries)
    decreases |entries|
  {
    if entries == [] {
      assert s.links + [] == s.links;
    } else {
      var next := ExtractEntry(s, dest, entries[0], n);
      LoopStops(s, dest, entries, n);
      EntryPlans(s, dest, entries[0], n);
      EntriesPlan(next, dest, entries[1..], n);
      OnePlan(dest, entries, s.links);
    }
  }

  lemma EntryPlans(s: Pass, dest: Path, e: Entry, n: nat)
    requires ExtractEntry(s, dest, e, n).ok && Canonical(dest) && dest != []
    ensures ExtractEntry(s, dest, e, n).links == s.links + PlansOf(dest, [e])
  {
    assert [e][1..] == [] && s.links + [] == s.links;
    if e.kind == Regular {
      var m := RegularEffect(s, dest, e, n);
    } else if e.kind == Symlink {
      WantedIsKept(dest, e);
    }
  }

  /** A regular entry with no later one of the same name. */
  predicate LastOfItsName(dest: Path, entries: seq<Entry>, i: int) {
    0 <= i < |entries| && entries[i].kind == Regular
    && forall j :: i < j < |entries| && entries[j].kind == Regular ==>
         JoinPath(dest, entries[j].name) != JoinPath(dest, entries[i].name)
  }
}
