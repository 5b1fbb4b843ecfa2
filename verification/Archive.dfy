/**
 * validateTarEntry and extractTarGz: the archive is the decoded entry stream, the host filesystem
 * is changed in place. limit is the kernel's bound on followed links.
 */
module Archive {
  import opened Strings
  import opened Paths
  import opened Filesystem

  const MAX_BYTES: nat := 64 * 0x4000_0000
  const MAX_ENTRIES: nat := 0x10_0000

  datatype Kind = Directory | Regular | Symlink | Other

  /** body is what the entry holds (before an error when fault is set, for a regular file). */
  datatype Entry = Entry(name: string, kind: Kind, linkname: string, body: string, fault: bool)

  /** broken: the stream ends in a tar error instead of EOF. */
  datatype Stream = Stream(entries: seq<Entry>, broken: bool)

  datatype LinkPlan = LinkPlan(path: Path, target: string)

  /** The filesystem after an operation, and whether the operation succeeded. */
  datatype Effect = Effect(fs: Fs, ok: bool)

  // ---------------------------------------------------------------- entry names

  predicate ValidEntry(name: string) {
    var n := ReplaceAll(name, "\\", "/");
    var clean := Text(CleanRooted("/" + n));
    && !(n == "" || n == "." || "/" <= n || clean != "/" + TrimPrefix(n, "./"))
    && forall i :: 0 <= i < |Split(n, '/')| ==> Split(n, '/')[i] != ".."
  }

  /** A nonempty relative path in canonical form. */
  predicate CanonicalRelative(s: string) {
    Canonical(Split(s, '/'))
  }

  /** Cleaning "/" + n squashes the parts of n; a leading "./" is one part that vanishes. */
  lemma CleanParts(n: string)
    ensures CleanRooted("/" + n) == Squash([], Split(n, '/'))
    ensures "./" <= n ==> Split(n, '/') == ["."] + Split(TrimPrefix(n, "./"), '/')
  {
    SplitConcat("", n, '/');
    assert "/" + n == "" + ['/'] + n;
    assert Split("/" + n, '/')[1..] == Split(n, '/');
    if "./" <= n {
      assert n == "." + ['/'] + TrimPrefix(n, "./");
      SplitConcat(".", TrimPrefix(n, "./"), '/');
    }
  }

  lemma CanonicalIsAccepted(name: string)
    requires var n := ReplaceAll(name, "\\", "/"); n == "./" || CanonicalRelative(TrimPrefix(n, "./"))
    ensures ValidEntry(name)
  {
    var n := ReplaceAll(name, "\\", "/");
    var n' := TrimPrefix(n, "./");
    var names := if n == "./" then [] else Split(n', '/');
    CleanParts(n);
    JoinSplit(n', '/');
    SquashNames([], names);
    if n == "./" {
      assert Split(n', '/') == [""];
      assert Squash([], Split(n, '/')) == Squash([], Split(n, '/')[1..]) == [];
    } else if "./" <= n {
      assert Split(n, '/')[1..] == names;
      assert Squash([], Split(n, '/')) == names;
    }
    assert CleanRooted("/" + n) == names;
    assert Text(names) == "/" + n';
    assert n == "./" || Split(n, '/')[0] != "";
  }

  lemma AcceptedIsCanonical(name: string)
    requires ValidEntry(name)
    ensures var n := ReplaceAll(name, "\\", "/"); n == "./" || CanonicalRelative(TrimPrefix(n, "./"))
  {
    var n := ReplaceAll(name, "\\", "/");
    var n' := TrimPrefix(n, "./");
    var clean := CleanRooted("/" + n);
    CleanRootedCanonical("/" + n);
    assert Join(clean, '/') == n' by {
      assert Text(clean)[1..] == Join(clean, '/');
      assert ("/" + n')[1..] == n';
    }
    if clean != [] {
      SplitJoin(clean, '/');
    }
  }

  /** A name is accepted exactly when, past one leading "./", it is canonical, or it is "./" itself. */
  lemma EntryAccepted(name: string)
    ensures var n := ReplaceAll(name, "\\", "/");
      ValidEntry(name) <==> n == "./" || CanonicalRelative(TrimPrefix(n, "./"))
  {
    var n := ReplaceAll(name, "\\", "/");
    if ValidEntry(name) {
      AcceptedIsCanonical(name);
    }
    if n == "./" || CanonicalRelative(TrimPrefix(n, "./")) {
      CanonicalIsAccepted(name);
    }
  }

  /** A part without a backslash survives the turning of backslashes into slashes. */
  lemma {:induction false} BackslashFreePartsSurvive(s: string)
    ensures var parts, turned := Split(s, '/'), Split(ReplaceAll(s, "\\", "/"), '/');
      && ('\\' !in parts[0] ==> turned[0] == parts[0])
      && forall i :: 0 < i < |parts| && '\\' !in parts[i] ==> parts[i] in turned[1..]
    decreases |s|
  {
    if s != "" {
      var s' := s[1..];
      BackslashFreePartsSurvive(s');
      var parts', turned' := Split(s', '/'), Split(ReplaceAll(s', "\\", "/"), '/');
      var n := ReplaceAll(s, "\\", "/");
      if s[0] == '\\' {
        assert "\\" <= s;
        assert n == "/" + ReplaceAll(s', "\\", "/");
        assert n[1..] == ReplaceAll(s', "\\", "/");
        assert Split(n, '/')[1..] == turned';
      } else {
        assert !("\\" <= s);
        assert n[1..] == ReplaceAll(s', "\\", "/");
      }
    }
  }

  /** Without ".." a cleaned path is empty only if every part vanishes. */
  lemma {:induction false} SquashEmpty(parts: seq<string>)
    requires forall i :: 0 <= i < |parts| ==> parts[i] != ".."
    requires Squash([], parts) == []
    ensures forall i :: 0 <= i < |parts| ==> parts[i] == "" || parts[i] == "."
    decreases |parts|
  {
    if parts != [] {
      SquashBelow(Push([], parts[0]), parts[1..]);
      SquashEmpty(parts[1..]);
    }
  }

  /** An accepted name has no ".." part even before its backslashes are turned. */
  lemma AcceptedPartsClimbFree(name: string)
    requires ValidEntry(name)
    ensures forall i :: 0 <= i < |Split(name, '/')| ==> Split(name, '/')[i] != ".."
  {
    BackslashFreePartsSurvive(name);
    var turned := Split(ReplaceAll(name, "\\", "/"), '/');
    assert forall i :: 0 <= i < |turned| ==> turned[i] != "..";
    assert ".." !in turned[1..];
  }

  /** An accepted name other than "./" has a part that does not vanish. */
  lemma AcceptedHasName(name: string)
    requires ValidEntry(name) && name != "./"
    ensures exists i :: 0 <= i < |Split(name, '/')| && Split(name, '/')[i] != "" && Split(name, '/')[i] != "."
  {
    var parts := Split(name, '/');
    if i :| 0 <= i < |parts| && '\\' in parts[i] {
      assert parts[i] != "" && parts[i] != ".";
    } else {
      BackslashFree(name);
      EntryAccepted(name);
      CleanParts(name);
      var rest := Split(TrimPrefix(name, "./"), '/');
      assert Name(rest[0]);
      if "./" <= name {
        assert parts[1] == rest[0];
      } else {
        assert parts[0] == rest[0];
      }
    }
  }

  /** An accepted name joins to a place below dest, and to dest itself only as "./". */
  lemma TargetBelow(dest: Path, name: string) returns (c: Path)
    requires ValidEntry(name)
    ensures Canonical(c) && JoinPath(dest, name) == dest + c
    ensures c == [] <==> name == "./"
    ensures Canonical(dest) ==> !Escapes(Rel(dest, JoinPath(dest, name)))
  {
    AcceptedPartsClimbFree(name);
    var parts := Split(name, '/');
    c := Squash([], parts);
    SquashBelow(dest, parts);
    SplitParts(name, '/');
    SquashCanonical([], parts);
    if Canonical(dest) {
      RelEscapes(dest, dest + c);
    }
    if name != "./" {
      AcceptedHasName(name);
      if c == [] {
        SquashEmpty(parts);
      }
    }
    if name == "./" {
      SplitConcat(".", "", '/');
      assert name == "." + ['/'] + "";
      assert parts == [".", ""];
      assert Squash([], parts) == Squash([], [""]) == [];
    }
  }

  /** Without a backslash in any part, turning changes nothing. */
  lemma {:induction false} BackslashFree(s: string)
    requires forall i :: 0 <= i < |Split(s, '/')| ==> '\\' !in Split(s, '/')[i]
    ensures ReplaceAll(s, "\\", "/") == s
    decreases |s|
  {
    if s != "" {
      var rest := Split(s[1..], '/');
      if s[0] == '/' {
        forall i | 0 <= i < |rest|
          ensures '\\' !in rest[i]
        {
          assert rest[i] == Split(s, '/')[i + 1];
        }
      } else {
        forall i | 0 <= i < |rest|
          ensures '\\' !in rest[i]
        {
          if i > 0 {
            assert rest[i] == Split(s, '/')[i];
          } else {
            assert Split(s, '/')[0] == [s[0]] + rest[0];
          }
        }
        assert Split(s, '/')[0][0] == s[0];
      }
      BackslashFree(s[1..]);
      assert !("\\" <= s);
    }
  }

  // ---------------------------------------------------------------- host operations

  /** os.Mkdir, with MkdirAll's second look: an existing directory is no error. */
  function Mkdir(fs: Fs, p: Path, limit: nat): Effect
    requires p != []
  {
    var d := Follow(fs, [], Parent(p), limit);
    if !d.Found? || !IsDir(fs, d.path) then Effect(fs, false)
    else
      var x := d.path + [p[|p| - 1]];
      if x in fs then Effect(fs, fs[x].Dir?) else Effect(fs[x := Dir], true)
  }

  function MkdirAll(fs: Fs, p: Path, limit: nat): Effect
    decreases |p|
  {
    var there := Follow(fs, [], p, limit);
    if there.Found? then Effect(fs, IsDir(fs, there.path))
    else if p == [] then Effect(fs, false)
    else
      var up := MkdirAll(fs, Parent(p), limit);
      if !up.ok then up else Mkdir(up.fs, p, limit)
  }

  /** OpenFile with O_CREATE and O_TRUNC, then the copied bytes. */
  function WriteFile(fs: Fs, p: Path, data: string, limit: nat): Effect {
    match Follow(fs, [], p, limit)
    case Found(q) => if q in fs && fs[q].File? then Effect(fs[q := File(data)], true) else Effect(fs, false)
    case Fresh(q) => Effect(fs[q := File(data)], true)
    case Nowhere => Effect(fs, false)
  }

  predicate EmptyBelow(fs: Fs, p: Path) {
    forall q :: q in fs ==> !(p < q)
  }

  /** os.Remove: the last name is not followed, and a directory must be empty. */
  function Remove(fs: Fs, p: Path, limit: nat): Fs {
    if p == [] then fs
    else
      var d := Follow(fs, [], Parent(p), limit);
      if !d.Found? || !IsDir(fs, d.path) then fs
      else
        var x := d.path + [p[|p| - 1]];
        if x !in fs || (fs[x].Dir? && !EmptyBelow(fs, x)) then fs else fs - {x}
  }

  /** os.Symlink: the last name must be free. */
  function MakeLink(fs: Fs, target: string, p: Path, limit: nat): Effect {
    if p == [] then Effect(fs, false)
    else
      var d := Follow(fs, [], Parent(p), limit);
      if !d.Found? || !IsDir(fs, d.path) || d.path + [p[|p| - 1]] in fs then Effect(fs, false)
      else Effect(fs[d.path + [p[|p| - 1]] := Link(target)], true)
  }

  // ---------------------------------------------------------------- extraction

  /** The state of the entry loop. */
  datatype Pass = Pass(fs: Fs, total: nat, count: nat, links: seq<LinkPlan>, ok: bool)

  /** The filters a symlink entry must pass to be recorded. */
  predicate LinkKept(dest: Path, target: Path, linkname: string) {
    && linkname != "" && !("/" <= linkname)
    && (forall i :: 0 <= i < |Split(linkname, '/')| ==> Split(linkname, '/')[i] != "..")
    && !Escapes(Rel(dest, JoinPath(Parent(target), linkname)))
  }

  /** How much of a body is copied when total bytes have been written: one byte over the cap at most. */
  function CopyLength(total: nat, body: string): (n: nat)
    requires total <= MAX_BYTES
    ensures n <= |body|
  {
    if |body| <= MAX_BYTES - total + 1 then |body| else MAX_BYTES - total + 1
  }

  /** A regular entry, once its directory is there. */
  function CopyFile(s: Pass, target: Path, e: Entry, limit: nat): Pass
    requires s.total <= MAX_BYTES
  {
    var n := CopyLength(s.total, e.body);
    var wrote := WriteFile(s.fs, target, e.body[..n], limit);
    if !wrote.ok then s.(fs := wrote.fs, ok := false)
    else s.(fs := wrote.fs, total := s.total + n, ok := !e.fault && s.total + n <= MAX_BYTES)
  }

  /** One turn of the entry loop. */
  function ExtractEntry(s: Pass, dest: Path, e: Entry, limit: nat): Pass {
    var s := s.(count := s.count + 1);
    if s.count > MAX_ENTRIES || !ValidEntry(e.name) then s.(ok := false)
    else
      var target := JoinPath(dest, e.name);
      if Escapes(Rel(dest, target)) then s.(ok := false)
      else match e.kind
        case Directory =>
          var made := MkdirAll(s.fs, target, limit);
          s.(fs := made.fs, ok := made.ok)
        case Regular =>
          var made := MkdirAll(s.fs, Parent(target), limit);
          if !made.ok || s.total > MAX_BYTES then s.(fs := made.fs, ok := false)
          else CopyFile(s.(fs := made.fs), target, e, limit)
        case Symlink =>
          if LinkKept(dest, target, e.linkname) then s.(links := s.links + [LinkPlan(target, e.linkname)]) else s
        case Other => s
  }

  function ExtractEntries(s: Pass, dest: Path, entries: seq<Entry>, limit: nat): Pass
    decreases |entries|
  {
    if entries == [] || !s.ok then s
    else ExtractEntries(ExtractEntry(s, dest, entries[0], limit), dest, entries[1..], limit)
  }

  /** One turn of the link loop. */
  function PlaceLink(fs: Fs, l: LinkPlan, limit: nat): Effect {
    var made := MkdirAll(Remove(fs, l.path, limit), Parent(l.path), limit);
    if !made.ok then made else MakeLink(made.fs, l.target, l.path, limit)
  }

  function PlaceLinks(fs: Fs, links: seq<LinkPlan>, limit: nat): Effect
    decreases |links|
  {
    if links == [] then Effect(fs, true)
    else
      var placed := PlaceLink(fs, links[0], limit);
      if !placed.ok then placed else PlaceLinks(placed.fs, links[1..], limit)
  }

  function Start(fs: Fs): Pass {
    Pass(fs, 0, 0, [], true)
  }

  function Extract(fs: Fs, dest: Path, src: Stream, limit: nat): Effect {
    var s := ExtractEntries(Start(fs), dest, src.entries, limit);
    if !s.ok || src.broken then Effect(s.fs, false) else PlaceLinks(s.fs, s.links, limit)
  }

  class Host {
    var fs: Fs

    method Mkdirs(p: Path, limit: nat) returns (ok: bool)
      modifies this
      ensures Effect(fs, ok) == MkdirAll(old(fs), p, limit)
    {
      var made := MkdirAll(fs, p, limit);
      fs := made.fs;
      return made.ok;
    }

    /** The body of the entry loop. */
    method ExtractOne(dest: Path, e: Entry, total: nat, count: nat, links: seq<LinkPlan>, limit: nat)
      returns (total': nat, count': nat, links': seq<LinkPlan>, ok: bool)
      requires total <= MAX_BYTES
      modifies this
      ensures Pass(fs, total', count', links', ok)
           == ExtractEntry(Pass(old(fs), total, count, links, true), dest, e, limit)
      ensures ok ==> total' <= MAX_BYTES
    {
      total', count', links', ok := total, count + 1, links, false;
      if count' > MAX_ENTRIES || !ValidEntry(e.name) {
        return;
      }
      var target := JoinPath(dest, e.name);
      if Escapes(Rel(dest, target)) {
        return;
      }
      match e.kind
      case Directory =>
        ok := Mkdirs(target, limit);
      case Regular =>
        var made := Mkdirs(Parent(target), limit);
        if !made {
          return;
        }
        var n := if |e.body| <= MAX_BYTES - total + 1 then |e.body| else MAX_BYTES - total + 1;
        var wrote := WriteFile(fs, target, e.body[..n], limit);
        fs := wrote.fs;
        if !wrote.ok {
          return;
        }
        total' := total + n;
        ok := !e.fault && total' <= MAX_BYTES;
      case Symlink =>
        if LinkKept(dest, target, e.linkname) {
          links' := links + [LinkPlan(target, e.linkname)];
        }
        ok := true;
      case Other =>
        ok := true;
    }

    method ExtractTarGz(dest: Path, src: Stream, limit: nat) returns (ok: bool)
      modifies this
      ensures Effect(fs, ok) == Extract(old(fs), dest, src, limit)
    {
      var total: nat, count: nat, links: seq<LinkPlan> := 0, 0, [];
      var i := 0;
      while i < |src.entries|
        invariant 0 <= i <= |src.entries|
        invariant total <= MAX_BYTES
        invariant ExtractEntries(Pass(fs, total, count, links, true), dest, src.entries[i..], limit)
               == ExtractEntries(Start(old(fs)), dest, src.entries, limit)
      {
        assert src.entries[i..][1..] == src.entries[i + 1..];
        var going;
        total, count, links, going := ExtractOne(dest, src.entries[i], total, count, links, limit);
        if !going {
          return false;
        }
        i := i + 1;
      }
      if src.broken {
        return false;
      }
      ok := PlaceAll(links, limit);
    }

    /** The link loop. */
    method PlaceAll(links: seq<LinkPlan>, limit: nat) returns (ok: bool)
      modifies this
      ensures Effect(fs, ok) == PlaceLinks(old(fs), links, limit)
    {
      var j := 0;
      while j < |links|
        invariant 0 <= j <= |links|
        invariant PlaceLinks(fs, links[j..], limit) == PlaceLinks(old(fs), links, limit)
      {
        var l := links[j];
        assert links[j..][1..] == links[j + 1..];
        fs := Remove(fs, l.path, limit);
        var made := Mkdirs(Parent(l.path), limit);
        if !made {
          return false;
        }
        var linked := MakeLink(fs, l.target, l.path, limit);
        fs := linked.fs;
        if !linked.ok {
          return false;
        }
        j := j + 1;
      }
      return true;
    }
  }
}
