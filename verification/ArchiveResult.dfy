/** What a successful extraction means: when entries succeed, what is on disk afterwards, and what it cost. */
module ArchiveResult {
  import opened Basics
  import opened Strings
  import opened Paths
  import opened Filesystem
  import opened Containment
  import opened Archive
  import opened ArchiveSafety
  import ArchiveRoot
  import opened JailAnswers
  import opened JailWrites

  // ---------------------------------------------------------------- when an entry succeeds

  /** What an entry needs to succeed where there are no links. */
  predicate Fits(s: Pass, dest: Path, e: Entry) {
    && s.count < MAX_ENTRIES && ValidEntry(e.name)
    && var target := JoinPath(dest, e.name);
      && (e.kind == Directory ==> ClearTo(s.fs, target))
      && (e.kind == Regular ==>
            && ClearTo(s.fs, Parent(target)) && (target in s.fs ==> s.fs[target].File?)
            && !e.fault && s.total + |e.body| <= MAX_BYTES)
  }

  lemma RegularExactly(s: Pass, dest: Path, e: Entry, n: nat)
    requires Tree(s.fs) && NoLinks(s.fs) && IsDir(s.fs, []) && Canonical(dest) && dest != [] && ValidEntry(e.name)
    requires e.kind == Regular && s.count < MAX_ENTRIES && s.total <= MAX_BYTES && JoinPath(dest, e.name) != []
    ensures ExtractEntry(s, dest, e, n).ok <==> Fits(s, dest, e)
  {
    var c := TargetBelow(dest, e.name);
    var target := dest + c;
    var data := e.body[..CopyLength(s.total, e.body)];
    WriteExactly(s.fs, target, data, n);
    MkdirExactly(s.fs, Parent(target), n);
    if MkdirAll(s.fs, Parent(target), n).ok {
      RegularCopies(s, dest, e, target, n);
    }
  }

  /** Without links an entry succeeds exactly when it fits. */
  lemma EntryExactly(s: Pass, dest: Path, e: Entry, n: nat)
    requires Tree(s.fs) && NoLinks(s.fs) && IsDir(s.fs, []) && Canonical(dest) && dest != [] && s.ok
    ensures ExtractEntry(s, dest, e, n).ok <==> Fits(s, dest, e)
  {
    if s.count < MAX_ENTRIES && ValidEntry(e.name) {
      var c := TargetBelow(dest, e.name);
      assert dest + c != [];
      if e.kind == Regular {
        if s.total <= MAX_BYTES {
          RegularExactly(s, dest, e, n);
        }
      } else if e.kind == Directory {
        MkdirExactly(s.fs, dest + c, n);
      }
    }
  }

  // ---------------------------------------------------------------- what success means

  /** The bodies of the regular entries, all together. */
  function BodyBytes(entries: seq<Entry>): nat
    decreases |entries|
  {
    if entries == [] then 0
    else (if entries[0].kind == Regular then |entries[0].body| else 0) + BodyBytes(entries[1..])
  }

  predicate Whole(e: Entry) {
    ValidEntry(e.name) && (e.kind == Regular ==> !e.fault)
  }

  lemma EntryWhole(s: Pass, dest: Path, e: Entry, n: nat)
    requires ExtractEntry(s, dest, e, n).ok
    ensures Whole(e) && s.count < MAX_ENTRIES && ExtractEntry(s, dest, e, n).count == s.count + 1
    ensures ExtractEntry(s, dest, e, n).total == s.total + BodyBytes([e])
    ensures e.kind == Regular ==> s.total + |e.body| <= MAX_BYTES
  {
    assert [e][1..] == [];
    if e.kind == Regular {
      RegularNeeds(s, dest, e, n);
      RegularCopies(s, dest, e, JoinPath(dest, e.name), n);
    }
  }

  lemma {:induction false} LoopWhole(s: Pass, dest: Path, entries: seq<Entry>, n: nat)
    requires s.ok && ExtractEntries(s, dest, entries, n).ok && s.count <= MAX_ENTRIES && s.total <= MAX_BYTES
    ensures forall i :: 0 <= i < |entries| ==> Whole(entries[i])
    ensures s.count + |entries| <= MAX_ENTRIES && s.total + BodyBytes(entries) <= MAX_BYTES
    decreases |entries|
  {
    if entries != [] {
      var e, rest := entries[0], entries[1..];
      LoopStops(s, dest, entries, n);
      EntryWhole(s, dest, e, n);
      assert [e][1..] == [];
      LoopWhole(ExtractEntry(s, dest, e, n), dest, rest, n);
      assert forall i :: 0 < i < |entries| ==> entries[i] == rest[i - 1];
    }
  }

  /** A success means: the archive was read to its end, all names are accepted, no body broke off, caps kept. */
  lemma SuccessIsWhole(fs: Fs, dest: Path, src: Stream, limit: nat)
    requires Extract(fs, dest, src, limit).ok
    ensures !src.broken && forall i :: 0 <= i < |src.entries| ==> Whole(src.entries[i])
    ensures |src.entries| <= 1048576 && BodyBytes(src.entries) <= 68719476736
  {
    LoopWhole(Start(fs), dest, src.entries, limit);
  }

  // ---------------------------------------------------------------- what is restored

  /** A directory entry that succeeds is a directory where its name says. */
  lemma DirectoryLands(was: Fs, s: Pass, dest: Path, e: Entry, n: nat)
    requires Sound(was, s.fs, dest, n) && IsDir(s.fs, dest) && LinkFree(s.fs, dest)
    requires e.kind == Directory && ExtractEntry(s, dest, e, n).ok
    ensures IsDir(ExtractEntry(s, dest, e, n).fs, JoinPath(dest, e.name))
  {
    var c := TargetBelow(dest, e.name);
    var target := dest + c;
    MkdirAllKeeps(was, s.fs, dest, target, n);
    MkdirAllAdds(s.fs, target, n);
    MkdirMakes(s.fs, target, n);
    var made := MkdirAll(s.fs, target, n).fs;
    FollowFromTop(made, dest, c, n, n);
    FollowByName(made, dest, c, n);
  }

  lemma {:induction false} DirectoriesStay(was: Fs, s: Pass, dest: Path, entries: seq<Entry>, i: nat, n: nat)
    requires Sound(was, s.fs, dest, n) && IsDir(s.fs, dest) && LinkFree(s.fs, dest) && GoodPlans(dest, s.links)
    requires i < |entries| && entries[i].kind == Directory && ExtractEntries(s, dest, entries, n).ok && s.ok
    ensures IsDir(ExtractEntries(s, dest, entries, n).fs, JoinPath(dest, entries[i].name))
    decreases i
  {
    var e := entries[0];
    var next := ExtractEntry(s, dest, e, n);
    EntryKeeps(was, s, dest, e, n);
    LoopStops(s, dest, entries, n);
    if i == 0 {
      DirectoryLands(was, s, dest, e, n);
      ArchiveRoot.EntriesAdd(next, dest, entries[1..], n);
    } else {
      EntryLinkFree(was, s, dest, e, n);
      DirectoriesStay(was, next, dest, entries[1..], i - 1, n);
    }
  }

  lemma EntryLinkFree(was: Fs, s: Pass, dest: Path, e: Entry, n: nat)
    requires Sound(was, s.fs, dest, n) && IsDir(s.fs, dest) && LinkFree(s.fs, dest)
    requires ExtractEntry(s, dest, e, n).ok
    ensures LinkFree(ExtractEntry(s, dest, e, n).fs, dest)
  {
    if e.kind == Regular {
      RegularLands(was, s, dest, e, n);
    } else {
      MkdirAllAdds(s.fs, JoinPath(dest, e.name), n);
    }
  }

  /** Each wanted link is among the plans. */
  lemma {:induction false} WantedIsPlanned(dest: Path, entries: seq<Entry>, i: nat) returns (k: nat)
    requires i < |entries| && Wanted(dest, entries[i])
    ensures var links := PlansOf(dest, entries);
      k < |links| && links[k] == LinkPlan(JoinPath(dest, entries[i].name), entries[i].linkname)
    decreases |entries|
  {
    if i == 0 {
      k := 0;
    } else {
      k := WantedIsPlanned(dest, entries[1..], i - 1);
      k := if Wanted(dest, entries[0]) then k + 1 else k;
    }
  }

  /** The entry loop into a link-free destination. */
  lemma LoopRestores(fs: Fs, dest: Path, src: Stream, limit: nat) returns (s: Pass)
    requires RealDirectory(fs, dest) && LinkFree(fs, dest) && Extract(fs, dest, src, limit).ok
    ensures s == ExtractEntries(Start(fs), dest, src.entries, limit) && s.ok && s.links == PlansOf(dest, src.entries)
    ensures Sound(fs, s.fs, dest, limit) && IsDir(s.fs, dest) && LinkFree(s.fs, dest) && GoodPlans(dest, s.links)
    ensures forall i :: LastOfItsName(dest, src.entries, i) ==>
      var target := JoinPath(dest, src.entries[i].name);
      target in s.fs && s.fs[target] == File(src.entries[i].body)
    ensures forall i :: 0 <= i < |src.entries| && src.entries[i].kind == Directory ==>
      IsDir(s.fs, JoinPath(dest, src.entries[i].name))
  {
    StartsSound(fs, dest, limit);
    EntriesKeep(fs, Start(fs), dest, src.entries, limit);
    EntriesMakeNoLinks(fs, Start(fs), dest, src.entries, limit);
    s := ExtractEntries(Start(fs), dest, src.entries, limit);
    EntriesPlan(Start(fs), dest, src.entries, limit);
    assert [] + PlansOf(dest, src.entries) == PlansOf(dest, src.entries);
    forall i | LastOfItsName(dest, src.entries, i)
      ensures var target := JoinPath(dest, src.entries[i].name);
        target in s.fs && s.fs[target] == File(src.entries[i].body)
    {
      FilesHoldBodies(fs, Start(fs), dest, src.entries, i, limit);
    }
    forall i | 0 <= i < |src.entries| && src.entries[i].kind == Directory
      ensures IsDir(s.fs, JoinPath(dest, src.entries[i].name))
    {
      DirectoriesStay(fs, Start(fs), dest, src.entries, i, limit);
    }
  }

  /** A link with this target is there. */
  predicate LinkedTo(fs: Fs, p: Path, target: string) {
    p in fs && fs[p] == Link(target)
  }

  /**
   * A successful extraction into a link-free root, of an archive whose links do not lie on the way of one
   * another, leaves each symlink with a relative target that does not climb at its place, and no other link;
   * each directory; and each file with the body of its last entry; but for what a link replaces.
   */
  lemma AllRestored(fs: Fs, dest: Path, src: Stream, limit: nat)
    requires RealDirectory(fs, dest) && LinkFree(fs, dest) && Extract(fs, dest, src, limit).ok
    requires Apart(dest, PlansOf(dest, src.entries), {})
    ensures var links, after, es := PlansOf(dest, src.entries), Extract(fs, dest, src, limit).fs, src.entries;
      && (forall i :: 0 <= i < |es| && Wanted(dest, es[i]) ==>
            LinkedTo(after, JoinPath(dest, es[i].name), es[i].linkname))
      && (forall p :: dest <= p && IsLink(after, p) ==> Replaced(links, p))
      && (forall i :: 0 <= i < |es| && es[i].kind == Directory && !Replaced(links, JoinPath(dest, es[i].name)) ==>
            IsDir(after, JoinPath(dest, es[i].name)))
      && (forall i :: LastOfItsName(dest, es, i) && !Replaced(links, JoinPath(dest, es[i].name)) ==>
            var target := JoinPath(dest, es[i].name); target in after && after[target] == File(es[i].body))
  {
    var s := LoopRestores(fs, dest, src, limit);
    var after := Extract(fs, dest, src, limit).fs;
    LinksLand(fs, s.fs, dest, s.links, {}, limit);
    OnlyLinksLand(fs, s.fs, dest, s.links, {}, limit, after);
    forall i | 0 <= i < |src.entries| && Wanted(dest, src.entries[i])
      ensures LinkedTo(after, JoinPath(dest, src.entries[i].name), src.entries[i].linkname)
    {
      var k := WantedIsPlanned(dest, src.entries, i);
      assert Placed(after, s.links[k]);
    }
  }

  // ---------------------------------------------------------------- budgets

  /** Bytes written never exceed the cap by more than one, and a pass that succeeds keeps both caps. */
  lemma {:induction false} BudgetHolds(s: Pass, dest: Path, entries: seq<Entry>, n: nat)
    requires s.total <= MAX_BYTES && s.count <= MAX_ENTRIES
    ensures var after := ExtractEntries(s, dest, entries, n);
      && after.total <= MAX_BYTES + 1 && after.count <= MAX_ENTRIES + 1
      && (after.ok && s.ok ==> after.total <= MAX_BYTES && after.count == s.count + |entries| <= MAX_ENTRIES)
    decreases |entries|
  {
    if entries != [] && s.ok {
      var next := ExtractEntry(s, dest, entries[0], n);
      if next.ok {
        BudgetHolds(next, dest, entries[1..], n);
      } else {
        assert ExtractEntries(next, dest, entries[1..], n) == next;
      }
    }
  }

  /** The bytes of a file that an entry put on disk. */
  function Written(s: Pass, dest: Path, e: Entry, n: nat): nat {
    if e.kind != Regular || s.count >= MAX_ENTRIES || !ValidEntry(e.name) || s.total > MAX_BYTES then 0
    else
      var target := JoinPath(dest, e.name);
      var made := MkdirAll(s.fs, Parent(target), n);
      var after := ExtractEntry(s, dest, e, n).fs;
      if !made.ok || Follow(made.fs, [], target, n).Nowhere? then 0
      else
        var q := Follow(made.fs, [], target, n).path;
        if q in after && after[q].File? then |after[q].data| else 0
  }

  function AllWritten(s: Pass, dest: Path, entries: seq<Entry>, n: nat): nat
    decreases |entries|
  {
    if entries == [] || !s.ok then 0
    else Written(s, dest, entries[0], n) + AllWritten(ExtractEntry(s, dest, entries[0], n), dest, entries[1..], n)
  }

  lemma EntryCounts(s: Pass, dest: Path, e: Entry, n: nat)
    requires Canonical(dest) && s.total <= MAX_BYTES
    ensures ExtractEntry(s, dest, e, n).total == s.total + Written(s, dest, e, n)
  {
    if e.kind == Regular && s.count < MAX_ENTRIES && ValidEntry(e.name) {
      var c := TargetBelow(dest, e.name);
      var made := MkdirAll(s.fs, Parent(dest + c), n);
      if made.ok {
        RegularCopies(s, dest, e, dest + c, n);
        FreshIsFree(made.fs, [], dest + c, n);
        CopyCounts(s.(count := s.count + 1, fs := made.fs), dest + c, e, n);
      }
    }
  }

  lemma CopyCounts(s: Pass, target: Path, e: Entry, n: nat)
    requires s.total <= MAX_BYTES
    requires var w := Follow(s.fs, [], target, n); w.Fresh? ==> w.path !in s.fs
    ensures var w, after := Follow(s.fs, [], target, n), CopyFile(s, target, e, n);
      after.total == s.total + if !w.Nowhere? && w.path in after.fs && after.fs[w.path].File?
                               then |after.fs[w.path].data| else 0
  {
  }

  /** The count is what is written, so a pass puts at most one byte over the cap on disk, however it ends. */
  lemma {:induction false} BytesAreCounted(s: Pass, dest: Path, entries: seq<Entry>, n: nat)
    requires Canonical(dest) && s.total <= MAX_BYTES && s.count <= MAX_ENTRIES
    ensures ExtractEntries(s, dest, entries, n).total == s.total + AllWritten(s, dest, entries, n) <= MAX_BYTES + 1
    decreases |entries|
  {
    BudgetHolds(s, dest, entries, n);
    if entries != [] && s.ok {
      EntryCounts(s, dest, entries[0], n);
      var next := ExtractEntry(s, dest, entries[0], n);
      if next.ok {
        BudgetHolds(s, dest, [entries[0]], n);
        assert [entries[0]][1..] == [];
        BytesAreCounted(next, dest, entries[1..], n);
      } else {
        assert ExtractEntries(next, dest, entries[1..], n) == next;
      }
    }
  }
}
