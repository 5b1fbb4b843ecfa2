/** What a write and a mkdir achieve when they succeed, and when they do. */
module JailWrites {
  import opened Basics
  import opened Strings
  import opened Paths
  import opened Filesystem
  import opened Containment
  import opened Archive
  import ArchiveSafety
  import opened JailAnswers
  import opened JailEffects

  // ---------------------------------------------------------------- success

  /** A walk that ended at a file, or at a free name, ends at the file once it is written. */
  lemma {:induction false} FollowAfterWrite(fs: Fs, cur: Path, todo: seq<string>, q: Path, data: string, n: nat)
    requires var w := Follow(fs, cur, todo, n); w == Fresh(q) || (w == Found(q) && q in fs && fs[q].File?)
    requires q !in fs || fs[q].File?
    ensures Follow(fs[q := File(data)], cur, todo, n) == Found(q)
    decreases n, |todo|
  {
    var after := fs[q := File(data)];
    if todo != [] {
      var c, rest := todo[0], todo[1..];
      var next := cur + [c];
      if c == "" || c == "." {
        FollowAfterWrite(fs, cur, rest, q, data, n);
      } else if c == ".." {
        FollowAfterWrite(fs, Parent(cur), rest, q, data, n);
      } else if next in fs {
        if fs[next].Link? {
          var t := fs[next].target;
          FollowAfterWrite(fs, Origin(next, t), Split(t, '/') + rest, q, data, n - 1);
        } else {
          FollowAfterWrite(fs, next, rest, q, data, n);
        }
      }
    }
  }

  /** But for the file, there are only new directories. */
  ghost predicate OnlyDirsBut(fs: Fs, after: Fs, q: Path) {
    && (forall p :: p in fs && p != q ==> p in after && after[p] == fs[p])
    && (forall p :: p in after && p !in fs && p != q ==> after[p] == Dir)
  }

  /** A write that succeeds is found under its path, whole; all else it did was to make directories. */
  lemma WriteReadsBack(fs: Fs, full: Path, data: string, n: nat) returns (q: Path)
    requires WriteRequest(fs, full, data, n).ok
    ensures var after := WriteRequest(fs, full, data, n).fs;
      && Follow(after, [], full, n) == Found(q) && q in after && after[q] == File(data)
      && OnlyDirsBut(fs, after, q)
  {
    var made := MkdirAll(fs, Parent(full), n).fs;
    ArchiveSafety.MkdirAllAdds(fs, Parent(full), n);
    q := Follow(made, [], full, n).path;
    FreshIsFree(made, [], full, n);
    FollowAfterWrite(made, [], full, q, data, n);
  }

  /** A directory that was made, or was there, is found under its path. */
  lemma {:induction false} MkdirMakes(fs: Fs, p: Path, n: nat)
    requires Canonical(p) && MkdirRequest(fs, p, n).ok
    ensures var after := MkdirRequest(fs, p, n).fs;
      var w := Follow(after, [], p, n); w.Found? && IsDir(after, w.path)
    decreases |p|
  {
    if !Follow(fs, [], p, n).Found? {
      MkdirMakes(fs, Parent(p), n);
      MadeIsThere(MkdirAll(fs, Parent(p), n).fs, p, n);
    }
  }

  lemma MadeIsThere(fs: Fs, p: Path, n: nat)
    requires Canonical(p) && p != [] && Mkdir(fs, p, n).ok
    ensures var after := Mkdir(fs, p, n).fs;
      var w := Follow(after, [], p, n); w.Found? && IsDir(after, w.path)
  {
    var d, after, c := Follow(fs, [], Parent(p), n).path, Mkdir(fs, p, n).fs, Last(p);
    assert p == Parent(p) + [c] && [c][1..] == [];
    FollowGrows(fs, after, [], Parent(p), n);
    var m := FollowOnward(after, [], Parent(p), [c], n);
    assert d + [c] in after && after[d + [c]].Dir?;
  }

  // ---------------------------------------------------------------- when

  /** Nothing but directories is in the way down to p. */
  predicate ClearTo(fs: Fs, p: Path) {
    forall i :: 0 <= i <= |p| && p[..i] in fs ==> fs[p[..i]].Dir?
  }

  /** Without links, making a directory succeeds exactly when nothing else is in its way. */
  lemma {:induction false} MkdirExactly(fs: Fs, p: Path, n: nat)
    requires Tree(fs) && NoLinks(fs) && IsDir(fs, []) && Canonical(p)
    ensures MkdirRequest(fs, p, n).ok <==> ClearTo(fs, p)
    ensures ClearTo(fs, p) ==> IsDir(MkdirRequest(fs, p, n).fs, p)
    ensures Tree(MkdirRequest(fs, p, n).fs) && NoLinks(MkdirRequest(fs, p, n).fs)
    decreases |p|
  {
    assert p[..|p|] == p;
    if p in fs {
      FoundByName(fs, p, n);
      PrefixesAreDirs(fs, p);
    } else {
      NotFoundByName(fs, p, n);
      MkdirExactly(fs, Parent(p), n);
      ClearStep(fs, p);
      MkdirStep(fs, p, n);
    }
  }

  lemma NotFoundByName(fs: Fs, p: Path, n: nat)
    requires Tree(fs) && NoLinks(fs) && IsDir(fs, []) && Canonical(p) && p !in fs
    ensures !Follow(fs, [], p, n).Found?
  {
    FoundIsThere(fs, [], p, n);
    SquashNames([], p);
    assert [] + p == p;
    if Follow(fs, [], p, n).Found? {
      WalkIsClean(fs, [], p, n);
    }
  }

  lemma PrefixesAreDirs(fs: Fs, p: Path)
    requires Tree(fs) && p in fs
    ensures ClearTo(fs, p) <==> fs[p].Dir?
  {
    assert p[..|p|] == p;
    forall i | 0 <= i < |p|
      ensures IsDir(fs, p[..i])
    {
      AboveAreDirs(fs, p, i);
    }
  }

  lemma ClearStep(fs: Fs, p: Path)
    requires p != [] && p !in fs
    ensures ClearTo(fs, p) <==> ClearTo(fs, Parent(p))
  {
    assert p[..|p|] == p;
    assert forall i :: 0 <= i <= |p| - 1 ==> Parent(p)[..i] == p[..i];
  }

  /** The last directory of a path, once the ones above are there. */
  lemma MkdirStep(fs: Fs, p: Path, n: nat)
    requires Tree(fs) && NoLinks(fs) && IsDir(fs, []) && Canonical(p) && p != [] && p !in fs
    requires !Follow(fs, [], p, n).Found?
    requires var up := MkdirRequest(fs, Parent(p), n);
      Tree(up.fs) && NoLinks(up.fs) && (up.ok ==> IsDir(up.fs, Parent(p)))
    ensures var up, all := MkdirRequest(fs, Parent(p), n), MkdirRequest(fs, p, n);
      && all.ok == up.ok && (up.ok ==> IsDir(all.fs, p)) && Tree(all.fs) && NoLinks(all.fs)
  {
    var up := MkdirRequest(fs, Parent(p), n);
    ArchiveSafety.MkdirAllAdds(fs, Parent(p), n);
    if up.ok {
      var c := Last(p);
      assert p == Parent(p) + [c];
      FoundByName(up.fs, Parent(p), n);
      NewDirKeeps(up.fs, Parent(p), c);
      assert !IsLink(up.fs, p);
      assert p in up.fs ==> up.fs[p] == Dir;
    }
  }

  lemma NewDirKeeps(fs: Fs, up: Path, c: string)
    requires Tree(fs) && NoLinks(fs) && IsDir(fs, up) && (up + [c] in fs ==> fs[up + [c]].Dir?)
    ensures Tree(fs[up + [c] := Dir]) && NoLinks(fs[up + [c] := Dir])
  {
    var after := fs[up + [c] := Dir];
    assert Parent(up + [c]) == up;
    forall p
      ensures !IsLink(after, p)
    {
      assert !IsLink(fs, p);
    }
  }

  /** Without links, a write succeeds exactly when directories lead to its place and no directory is there. */
  lemma WriteExactly(fs: Fs, p: Path, data: string, n: nat)
    requires Tree(fs) && NoLinks(fs) && IsDir(fs, []) && Canonical(p) && p != []
    ensures WriteRequest(fs, p, data, n).ok <==> ClearTo(fs, Parent(p)) && (p in fs ==> fs[p].File?)
    ensures WriteRequest(fs, p, data, n).ok ==> p in WriteRequest(fs, p, data, n).fs
                                                && WriteRequest(fs, p, data, n).fs[p] == File(data)
  {
    MkdirExactly(fs, Parent(p), n);
    ArchiveSafety.MkdirAllAdds(fs, Parent(p), n);
    if ClearTo(fs, Parent(p)) {
      var made, c := MkdirRequest(fs, Parent(p), n).fs, Last(p);
      assert p == Parent(p) + [c];
      ArchiveSafety.MkdirAllAdds(fs, Parent(p), n);
      NotMadeItself(fs, p, n);
      WritesByName(made, Parent(p), c, data, n);
    }
  }

  /** Making the directories above makes nothing in the place itself. */
  lemma NotMadeItself(fs: Fs, p: Path, n: nat)
    requires Tree(fs) && NoLinks(fs) && IsDir(fs, []) && Canonical(p) && p != [] && ClearTo(fs, Parent(p))
    ensures p in MkdirRequest(fs, Parent(p), n).fs <==> p in fs
  {
    MadeAbove(fs, Parent(p), n);
    ArchiveSafety.MkdirAllAdds(fs, Parent(p), n);
  }

  /** MkdirAll makes only prefixes of its path. */
  lemma {:induction false} MadeAbove(fs: Fs, p: Path, n: nat)
    requires Tree(fs) && NoLinks(fs) && IsDir(fs, []) && Canonical(p)
    ensures forall q :: q in MkdirRequest(fs, p, n).fs && q !in fs ==> q <= p
    decreases |p|
  {
    if p in fs {
      FoundByName(fs, p, n);
    } else {
      MadeAbove(fs, Parent(p), n);
      MadeLast(fs, p, n);
    }
  }

  lemma MadeLast(fs: Fs, p: Path, n: nat)
    requires Tree(fs) && NoLinks(fs) && IsDir(fs, []) && Canonical(p) && p !in fs
    ensures var up, all := MkdirRequest(fs, Parent(p), n).fs, MkdirRequest(fs, p, n).fs;
      all == up || all == up[p := Dir]
  {
    NotFoundByName(fs, p, n);
    var up := MkdirRequest(fs, Parent(p), n);
    if up.ok {
      PrefixesClear(fs, Parent(p), n);
      FoundByName(up.fs, Parent(p), n);
      MadeAt(up.fs, p, Parent(p), n);
      assert p == Parent(p) + [Last(p)];
    }
  }

  lemma PrefixesClear(fs: Fs, p: Path, n: nat)
    requires Tree(fs) && NoLinks(fs) && IsDir(fs, []) && Canonical(p) && MkdirRequest(fs, p, n).ok
    ensures var after := MkdirRequest(fs, p, n).fs;
      IsDir(after, p) && IsDir(after, []) && Tree(after) && NoLinks(after)
  {
    MkdirExactly(fs, p, n);
    ArchiveSafety.MkdirAllAdds(fs, p, n);
  }

  lemma WritesByName(fs: Fs, up: Path, c: string, data: string, n: nat)
    requires Tree(fs) && NoLinks(fs) && IsDir(fs, []) && IsDir(fs, up) && Canonical(up) && Name(c)
    ensures var w := WriteFile(fs, up + [c], data, n);
      && (w.ok <==> (up + [c] in fs ==> fs[up + [c]].File?))
      && (w.ok ==> w.fs == fs[up + [c] := File(data)])
  {
    if up + [c] in fs {
      FoundByName(fs, up + [c], n);
    } else {
      FreeByName(fs, up, c, n);
    }
  }
}
