/** Exactly which archives replace their destination, read off the archive and the destination. */
module ArchiveRoot {
  import opened Strings
  import opened Paths
  import opened Filesystem
  import opened Archive
  import opened ArchiveSafety
  import opened Containment

  /** The entry puts nothing into the destination and is no error. */
  predicate Idle(e: Entry) {
    ValidEntry(e.name) && (e.kind == Symlink || e.kind == Other || (e.kind == Directory && e.name == "./"))
  }

  predicate AllIdle(entries: seq<Entry>) {
    forall i :: 0 <= i < |entries| ==> Idle(entries[i])
  }

  /** The first symlink that passes the filters is named "./". */
  predicate RootLinkFirst(dest: Path, entries: seq<Entry>)
    decreases |entries|
  {
    entries != []
    && if Wanted(dest, entries[0]) then entries[0].name == "./" else RootLinkFirst(dest, entries[1..])
  }

  /** The archive takes the place of its destination. */
  predicate TakesRoot(fs: Fs, dest: Path, src: Stream) {
    && EmptyBelow(fs, dest) && !src.broken && |src.entries| <= MAX_ENTRIES
    && AllIdle(src.entries) && RootLinkFirst(dest, src.entries)
  }

  lemma {:induction false} FirstPlan(dest: Path, entries: seq<Entry>)
    requires AllIdle(entries)
    ensures PlansOf(dest, entries) != [] && PlansOf(dest, entries)[0].path == dest <==> RootLinkFirst(dest, entries)
    decreases |entries|
  {
    if entries != [] {
      var e := entries[0];
      if Wanted(dest, e) {
        assert Idle(e);
        var c := TargetBelow(dest, e.name);
        assert dest + c == dest <==> c == [];
      } else {
        FirstPlan(dest, entries[1..]);
      }
    }
  }

  // ---------------------------------------------------------------- one entry

  /** What was there stays there. */
  ghost predicate Keeps(fs: Fs, after: Fs) {
    forall q :: q in fs ==> q in after
  }

  lemma EntryAdds(s: Pass, dest: Path, e: Entry, n: nat)
    ensures Keeps(s.fs, ExtractEntry(s, dest, e, n).fs)
  {
    MkdirAllAdds(s.fs, JoinPath(dest, e.name), n);
    MkdirAllAdds(s.fs, Parent(JoinPath(dest, e.name)), n);
    if e.kind == Regular {
      var m := RegularEffect(s, dest, e, n);
    }
  }

  /** In an empty destination nothing but itself can be found. */
  lemma EmptyFindsNothing(fs: Fs, dest: Path, c: Path, n: nat)
    requires Sound(fs, fs, dest, n) && IsDir(fs, dest) && EmptyBelow(fs, dest) && Canonical(c)
    ensures Follow(fs, [], dest + c, n).Found? <==> c == []
    ensures c == [] ==> Follow(fs, [], dest + c, n) == Found(dest)
  {
    FollowFromTop(fs, dest, c, n, n);
    if c != [] {
      assert dest < dest + [c[0]];
    }
  }

  /** A directory made below an empty destination is in it. */
  lemma MadeBelow(was: Fs, fs: Fs, dest: Path, c: Path, n: nat)
    requires Sound(was, fs, dest, n) && IsDir(fs, dest) && Canonical(c) && c != []
    requires EmptyBelow(fs, dest) && MkdirAll(fs, dest + c, n).ok
    ensures !EmptyBelow(MkdirAll(fs, dest + c, n).fs, dest)
  {
    var p := dest + c;
    SoundSelf(was, fs, dest, n);
    EmptyFindsNothing(fs, dest, c, n);
    assert Parent(p) == dest + Parent(c);
    MkdirAllKeeps(was, fs, dest, Parent(p), n);
    var up := MkdirAll(fs, Parent(p), n).fs;
    HolderBelow(was, up, dest, p, n);
    var x := Follow(up, [], Parent(p), n).path + [p[|p| - 1]];
    assert x in MkdirAll(fs, p, n).fs && dest < x;
  }

  /** A regular entry that succeeds leaves a file below the destination. */
  lemma WrittenBelow(was: Fs, s: Pass, dest: Path, e: Entry, n: nat)
    requires Sound(was, s.fs, dest, n) && IsDir(s.fs, dest)
    requires ValidEntry(e.name) && e.kind == Regular && ExtractEntry(s, dest, e, n).ok
    ensures !EmptyBelow(ExtractEntry(s, dest, e, n).fs, dest)
  {
    var c := TargetBelow(dest, e.name);
    ParentMade(was, s.fs, dest, c, n);
    var made := MkdirAll(s.fs, Parent(dest + c), n).fs;
    SoundSelf(was, made, dest, n);
    FollowFromTop(made, dest, c, n, n);
    var q := Follow(made, [], dest + c, n).path;
    assert q != dest && dest < q;
    assert q in ExtractEntry(s, dest, e, n).fs;
  }

  /** An idle entry of an accepted archive changes nothing but the plans. */
  lemma IdleEntry(was: Fs, s: Pass, dest: Path, e: Entry, n: nat)
    requires Sound(was, s.fs, dest, n) && IsDir(s.fs, dest) && EmptyBelow(s.fs, dest)
    requires s.ok && s.count < MAX_ENTRIES && Idle(e)
    ensures ExtractEntry(s, dest, e, n) == s.(count := s.count + 1, links := s.links + PlansOf(dest, [e]))
  {
    var c := TargetBelow(dest, e.name);
    RelEscapes(dest, dest + c);
    assert [e][1..] == [];
    assert s.links + [] == s.links;
    if e.kind == Symlink {
      WantedIsKept(dest, e);
    }
    if e.kind == Directory {
      SoundSelf(was, s.fs, dest, n);
      EmptyFindsNothing(s.fs, dest, [], n);
      assert dest + [] == dest;
    }
  }

  /** Any other entry fails or fills the destination. */
  lemma BusyEntry(was: Fs, s: Pass, dest: Path, e: Entry, n: nat)
    requires Sound(was, s.fs, dest, n) && IsDir(s.fs, dest)
    requires ExtractEntry(s, dest, e, n).ok && EmptyBelow(ExtractEntry(s, dest, e, n).fs, dest)
    ensures EmptyBelow(s.fs, dest) && s.count < MAX_ENTRIES && Idle(e)
  {
    EntryAdds(s, dest, e, n);
    if e.kind == Regular {
      WrittenBelow(was, s, dest, e, n);
    } else if e.kind == Directory && e.name != "./" {
      var c := TargetBelow(dest, e.name);
      MadeBelow(was, s.fs, dest, c, n);
    }
  }

  // ---------------------------------------------------------------- the entry loop

  lemma {:induction false} StaysEmptyExactly(was: Fs, s: Pass, dest: Path, entries: seq<Entry>, n: nat)
    requires Sound(was, s.fs, dest, n) && IsDir(s.fs, dest) && GoodPlans(dest, s.links) && s.ok
    ensures var after := ExtractEntries(s, dest, entries, n);
      && (after.ok && EmptyBelow(after.fs, dest)
          <==> EmptyBelow(s.fs, dest) && (entries == [] || s.count + |entries| <= MAX_ENTRIES) && AllIdle(entries))
      && (after.ok && EmptyBelow(after.fs, dest) ==> after.links == s.links + PlansOf(dest, entries))
    decreases |entries|
  {
    if entries == [] {
      assert s.links + [] == s.links;
    } else {
      var e, rest := entries[0], entries[1..];
      var next := ExtractEntry(s, dest, e, n);
      EntryKeeps(was, s, dest, e, n);
      if next.ok {
        StaysEmptyExactly(was, next, dest, rest, n);
        if EmptyBelow(next.fs, dest) {
          BusyEntry(was, s, dest, e, n);
        }
      }
      if EmptyBelow(s.fs, dest) && s.count < MAX_ENTRIES && Idle(e) {
        IdleEntry(was, s, dest, e, n);
        OnePlan(dest, entries, s.links);
      }
      assert AllIdle(entries) <==> Idle(e) && AllIdle(rest) by {
        assert forall i :: 0 < i < |entries| ==> entries[i] == rest[i - 1];
      }
      LoopStops(s, dest, entries, n);
    }
  }

  // ---------------------------------------------------------------- a destination that holds something

  ghost predicate DirsStay(fs: Fs, after: Fs) {
    forall q :: IsDir(fs, q) ==> IsDir(after, q)
  }

  lemma EntryKeepsDirs(s: Pass, dest: Path, e: Entry, n: nat)
    ensures DirsStay(s.fs, ExtractEntry(s, dest, e, n).fs)
  {
    MkdirAllAdds(s.fs, JoinPath(dest, e.name), n);
    MkdirAllAdds(s.fs, Parent(JoinPath(dest, e.name)), n);
    if e.kind == Regular {
      var m := RegularEffect(s, dest, e, n);
      FreshIsFree(MkdirAll(s.fs, Parent(JoinPath(dest, e.name)), n).fs, [], JoinPath(dest, e.name), n);
    }
  }

  lemma EntryPlansGood(s: Pass, dest: Path, e: Entry, n: nat)
    requires Canonical(dest) && dest != [] && GoodPlans(dest, s.links)
    ensures GoodPlans(dest, ExtractEntry(s, dest, e, n).links)
  {
    if ValidEntry(e.name) {
      var c := TargetBelow(dest, e.name);
      if e.kind == Regular {
        var m := RegularEffect(s, dest, e, n);
      } else if LinkKept(dest, dest + c, e.linkname) {
        KeptIsGood(dest, dest + c, e.linkname);
      }
    }
  }

  /** Whatever the old links are, the entry loop takes nothing away. */
  lemma {:induction false} EntriesAdd(s: Pass, dest: Path, entries: seq<Entry>, n: nat)
    requires Canonical(dest) && dest != [] && GoodPlans(dest, s.links)
    ensures var after := ExtractEntries(s, dest, entries, n);
      DirsStay(s.fs, after.fs) && Keeps(s.fs, after.fs) && GoodPlans(dest, after.links)
    decreases |entries|
  {
    if entries != [] && s.ok {
      EntryKeepsDirs(s, dest, entries[0], n);
      EntryAdds(s, dest, entries[0], n);
      EntryPlansGood(s, dest, entries[0], n);
      EntriesAdd(ExtractEntry(s, dest, entries[0], n), dest, entries[1..], n);
    }
  }

  /** Nothing that dest needs can be removed while there is something in it. */
  lemma RemoveSpares(fs: Fs, dest: Path, p: Path, n: nat)
    requires RealDirectory(fs, dest) && !EmptyBelow(fs, dest)
    ensures RealDirectory(Remove(fs, p, n), dest)
    ensures p == dest ==> Remove(fs, p, n) == fs
  {
    assert dest[..|dest|] == dest;
    var removed := Remove(fs, p, n);
    if p == dest {
      FollowToParent(fs, dest, [], n);
      assert Parent(dest) + [] == Parent(dest) && Parent(dest) + [dest[|dest| - 1]] == dest;
    }
    forall i | 0 <= i <= |dest|
      ensures IsDir(removed, dest[..i])
    {
      assert IsDir(fs, dest[..i]);
      if i < |dest| {
        assert dest[..i] < dest;
      }
    }
  }

  /** In an emptied destination a link is placed where it says. */
  lemma PlacedInEmpty(fs: Fs, removed: Fs, dest: Path, l: LinkPlan, n: nat)
    requires RealDirectory(removed, dest) && EmptyBelow(removed, dest) && GoodPlan(dest, l) && l.path != dest
    requires removed == Remove(fs, l.path, n)
    ensures var placed := PlaceLink(fs, l, n);
      RealDirectory(placed.fs, dest) && (placed.ok ==> !EmptyBelow(placed.fs, dest))
  {
    StartsSound(removed, dest, n);
    HolderBelow(removed, removed, dest, l.path, n);
    assert Remove(removed, l.path, n) == removed;
    PlaceBelowKeeps(removed, removed, dest, l, n);
    var placed := PlaceLink(fs, l, n);
    forall i | 0 <= i <= |dest|
      ensures IsDir(placed.fs, dest[..i])
    {
      assert i == |dest| ==> dest[..i] == dest;
    }
  }

  /** A destination that holds something is there after each link, and holds something. */
  lemma LinkSpares(fs: Fs, dest: Path, l: LinkPlan, n: nat)
    requires RealDirectory(fs, dest) && !EmptyBelow(fs, dest) && GoodPlan(dest, l)
    ensures var placed := PlaceLink(fs, l, n);
      RealDirectory(placed.fs, dest) && (placed.ok ==> !EmptyBelow(placed.fs, dest))
  {
    RemoveSpares(fs, dest, l.path, n);
    var removed := Remove(fs, l.path, n);
    if EmptyBelow(removed, dest) {
      PlacedInEmpty(fs, removed, dest, l, n);
    } else {
      MkdirAllAdds(removed, Parent(l.path), n);
      var made := MkdirAll(removed, Parent(l.path), n).fs;
      StaysRooted(removed, made, dest);
      StaysRooted(made, PlaceLink(fs, l, n).fs, dest);
    }
  }

  lemma StaysRooted(fs: Fs, after: Fs, dest: Path)
    requires RealDirectory(fs, dest) && !EmptyBelow(fs, dest)
    requires forall q :: q in fs ==> q in after && after[q] == fs[q]
    ensures RealDirectory(after, dest) && !EmptyBelow(after, dest)
  {
    assert forall i :: 0 <= i <= |dest| ==> IsDir(fs, dest[..i]);
  }

  lemma {:induction false} LinksSpare(fs: Fs, dest: Path, links: seq<LinkPlan>, n: nat)
    requires RealDirectory(fs, dest) && !EmptyBelow(fs, dest) && GoodPlans(dest, links)
    ensures RealDirectory(PlaceLinks(fs, links, n).fs, dest)
    decreases |links|
  {
    if links != [] {
      LinkSpares(fs, dest, links[0], n);
      if PlaceLink(fs, links[0], n).ok {
        LinksSpare(PlaceLink(fs, links[0], n).fs, dest, links[1..], n);
      }
    }
  }

  /** Wherever old links lead: a destination that holds something survives every archive. */
  lemma FullRootSurvives(fs: Fs, dest: Path, src: Stream, limit: nat)
    requires RealDirectory(fs, dest) && !EmptyBelow(fs, dest)
    ensures RealDirectory(Extract(fs, dest, src, limit).fs, dest)
  {
    EntriesAdd(Start(fs), dest, src.entries, limit);
    var s := ExtractEntries(Start(fs), dest, src.entries, limit);
    assert RealDirectory(s.fs, dest) by {
      assert forall i :: 0 <= i <= |dest| ==> IsDir(fs, dest[..i]);
    }
    LinksSpare(s.fs, dest, s.links, limit);
  }

  /** An empty destination survives, unless the archive takes its place. */
  lemma EmptyRootSurvives(fs: Fs, dest: Path, src: Stream, limit: nat)
    requires RealDirectory(fs, dest) && EmptyBelow(fs, dest)
    ensures IsDir(Extract(fs, dest, src, limit).fs, dest) <==> !TakesRoot(fs, dest, src)
  {
    StartsSound(fs, dest, limit);
    var s := ExtractEntries(Start(fs), dest, src.entries, limit);
    RootSurvivesLinks(fs, dest, src, limit);
    StaysEmptyExactly(fs, Start(fs), dest, src.entries, limit);
    if AllIdle(src.entries) {
      FirstPlan(dest, src.entries);
      assert [] + PlansOf(dest, src.entries) == PlansOf(dest, src.entries);
    }
  }

  /**
   * Wherever old links lead, the destination is a directory afterwards, exactly unless it was empty, the
   * archive is whole, not too long and holds nothing but links, specials and "./", and its first link
   * that passes the filters is "./".
   */
  lemma RootSurvives(fs: Fs, dest: Path, src: Stream, limit: nat)
    requires RealDirectory(fs, dest)
    ensures IsDir(Extract(fs, dest, src, limit).fs, dest) <==> !TakesRoot(fs, dest, src)
  {
    if EmptyBelow(fs, dest) {
      EmptyRootSurvives(fs, dest, src, limit);
    } else {
      FullRootSurvives(fs, dest, src, limit);
      assert dest[..|dest|] == dest;
    }
  }
}
