/**
 * isMounted over the text of mountinfo: which mount point it reads on each line, exactly when its
 * answers are true, and what the mounts of a setup owe to that.
 */
module MountTest {
  import opened Basics
  import opened Strings
  import opened Paths
  import opened Quoting
  import opened MountSession

  // ---------------------------------------------------------------- strings.Fields

  /** unicode.IsSpace. */
  predicate IsSpace(c: char) {
    var n := c as int;
    9 <= n <= 13 || n == 0x20 || n == 0x85 || n == 0xA0 || n == 0x1680 || 0x2000 <= n <= 0x200A
    || n == 0x2028 || n == 0x2029 || n == 0x202F || n == 0x205F || n == 0x3000
  }

  /** The spaces that the kernel writes as they are. */
  predicate OddSpace(c: char) {
    IsSpace(c) && c != ' ' && c != '\t' && c != '\n'
  }

  function WordLength(s: string, space: char -> bool): (k: nat)
    ensures k <= |s| && (forall i :: 0 <= i < k ==> !space(s[i])) && (k < |s| ==> space(s[k]))
    ensures s != "" && !space(s[0]) ==> k > 0
  {
    if s == "" || space(s[0]) then 0 else 1 + WordLength(s[1..], space)
  }

  /** The words between the spaces. */
  function Words(s: string, space: char -> bool): seq<string>
    decreases |s|
  {
    if s == "" then []
    else if space(s[0]) then Words(s[1..], space)
    else
      var k := WordLength(s, space);
      [s[..k]] + Words(s[k..], space)
  }

  /** strings.Fields. */
  function Fields(s: string): seq<string> {
    Words(s, IsSpace)
  }

  // ---------------------------------------------------------------- isMounted

  /** Some line of the text shows the target. */
  predicate Sees(data: Option<string>, target: string) {
    data.Some? && exists i :: 0 <= i < |Split(data.value, '\n')| && LineShows(Split(data.value, '\n')[i], target)
  }

  predicate LineShows(line: string, target: string) {
    var fields := Fields(line);
    |fields| >= 6 && UnescapeMountField(fields[4]) == CleanText(target)
  }

  /** isMounted; no data when mountinfo cannot be read. */
  method IsMounted(data: Option<string>, target: string) returns (found: bool)
    ensures found <==> Sees(data, target)
  {
    if data.None? {
      return false;
    }
    var clean := CleanText(target);
    var lines := Split(data.value, '\n');
    for i := 0 to |lines|
      invariant forall j :: 0 <= j < i ==> !LineShows(lines[j], target)
    {
      var fields := Fields(lines[i]);
      if |fields| < 6 {
        continue;
      }
      if UnescapeMountField(fields[4]) == clean {
        assert LineShows(lines[i], target);
        return true;
      }
    }
    return false;
  }

  // ---------------------------------------------------------------- what the kernel writes

  /** One mount: the first three fields, what is mounted, where, and all that follows. */
  datatype Row = Row(id: string, parent: string, device: string, root: string, point: Path, options: string)

  predicate Word(s: string) {
    s != "" && forall i :: 0 <= i < |s| ==> !IsSpace(s[i])
  }

  predicate Proper(r: Row) {
    && Word(r.id) && Word(r.parent) && Word(r.device)
    && r.root != "" && !IsSpace(r.root[0])
    && Canonical(r.point)
    && r.options != "" && !IsSpace(r.options[0]) && '\n' !in r.options
  }

  ghost predicate AllProper(rows: seq<Row>) {
    forall i :: 0 <= i < |rows| ==> Proper(rows[i])
  }

  function Line(r: Row): string {
    r.id + " " + (r.parent + " " + (r.device + " "
      + (KernelEscape(r.root) + " " + (KernelEscape(Text(r.point)) + " " + r.options))))
  }

  function MountInfo(rows: seq<Row>): string {
    if rows == [] then "" else Line(rows[0]) + "\n" + MountInfo(rows[1..])
  }

  /** The mount points, oldest first. */
  function TableOf(rows: seq<Row>): (t: Table)
    ensures |t| == |rows| && forall i :: 0 <= i < |rows| ==> t[i] == rows[i].point
  {
    seq(|rows|, i requires 0 <= i < |rows| => rows[i].point)
  }

  /** The pieces between odd spaces, as the fields show them. */
  function Pieces(s: string): seq<string> {
    Words(s, OddSpace)
  }

  /** The root breaks into pieces, so the fifth field is not the mount point. */
  predicate Shifted(r: Row) {
    |Pieces(r.root)| > 1
  }

  /** What is read as the mount point. */
  function Shown(r: Row): string
    requires Proper(r)
  {
    NonEmptyPieces(r.root);
    NonEmptyPieces(Text(r.point));
    Coded(if Shifted(r) then Pieces(r.root)[1] else Pieces(Text(r.point))[0])
  }

  lemma NonEmptyPieces(s: string)
    requires s != "" && !OddSpace(s[0])
    ensures Pieces(s) != []
  {
  }

  /** A path that the fields show as it is. */
  predicate Tidy(s: string) {
    forall i :: 0 <= i < |s| ==> IsSpace(s[i]) ==> s[i] == ' ' || s[i] == '\t'
  }

  /** The 23 characters with the White_Space property of Unicode that are neither blank nor tab. */
  const ODD_SPACES: set<int> := {
    0x0A, 0x0B, 0x0C, 0x0D, 0x85, 0xA0, 0x1680,
    0x2000, 0x2001, 0x2002, 0x2003, 0x2004, 0x2005, 0x2006, 0x2007, 0x2008, 0x2009, 0x200A,
    0x2028, 0x2029, 0x202F, 0x205F, 0x3000}

  lemma TidyCharacters(s: string)
    ensures Tidy(s) <==> forall i :: 0 <= i < |s| ==> s[i] as int !in ODD_SPACES
  {
    forall i | 0 <= i < |s|
      ensures (IsSpace(s[i]) ==> s[i] == ' ' || s[i] == '\t') <==> s[i] as int !in ODD_SPACES
    {
      OddCharacter(s[i]);
    }
  }

  lemma OddCharacter(c: char)
    ensures (IsSpace(c) && c != ' ' && c != '\t') <==> c as int in ODD_SPACES
  {
    var n := c as int;
    assert c == n as char;
  }

  // ---------------------------------------------------------------- words

  lemma WordEnds(w: string, rest: string, space: char -> bool)
    requires (forall i :: 0 <= i < |w| ==> !space(w[i])) && (rest == "" || space(rest[0]))
    ensures WordLength(w + rest, space) == |w|
  {
    assert forall i :: 0 <= i < |w| ==> (w + rest)[i] == w[i];
    assert rest != "" ==> (w + rest)[|w|] == rest[0];
  }

  lemma WordFirst(w: string, rest: string, space: char -> bool)
    requires w != "" && (forall i :: 0 <= i < |w| ==> !space(w[i])) && (rest == "" || space(rest[0]))
    ensures Words(w + rest, space) == [w] + Words(rest, space)
  {
    WordEnds(w, rest, space);
    assert (w + rest)[0] == w[0] && (w + rest)[..|w|] == w && (w + rest)[|w|..] == rest;
  }

  /** A space separates. */
  lemma {:induction false} WordsJoin(a: string, b: string, c: char, space: char -> bool)
    requires space(c)
    ensures Words(a + [c] + b, space) == Words(a, space) + Words(b, space)
    decreases |a|
  {
    var s := a + [c] + b;
    if a == "" {
      assert s[0] == c && s[1..] == b;
    } else if space(a[0]) {
      assert s[0] == a[0] && s[1..] == a[1..] + [c] + b;
      WordsJoin(a[1..], b, c, space);
    } else {
      var k := WordLength(a, space);
      WordsJoin(a[k..], b, c, space);
      WordThenRest(a[..k], a[k..], b, c, space);
      assert a == a[..k] + a[k..];
    }
  }

  lemma WordThenRest(w: string, more: string, b: string, c: char, space: char -> bool)
    requires space(c) && w != "" && (forall i :: 0 <= i < |w| ==> !space(w[i])) && (more == "" || space(more[0]))
    requires Words(more + [c] + b, space) == Words(more, space) + Words(b, space)
    ensures Words(w + more + [c] + b, space) == Words(w + more, space) + Words(b, space)
  {
    LaterSpace(w, more, b, c);
    WordBefore(w, more, more + [c] + b, b, space);
  }

  /** What is split off the end stays so behind one more word. */
  lemma WordBefore(w: string, more: string, rest: string, b: string, space: char -> bool)
    requires w != "" && (forall i :: 0 <= i < |w| ==> !space(w[i]))
    requires (more == "" || space(more[0])) && (rest == "" || space(rest[0]))
    requires Words(rest, space) == Words(more, space) + Words(b, space)
    ensures Words(w + rest, space) == Words(w + more, space) + Words(b, space)
  {
    WordFirst(w, more, space);
    WordFirst(w, rest, space);
    FirstOfSum(w, Words(more, space), Words(b, space));
  }

  lemma FirstOfSum(w: string, a: seq<string>, b: seq<string>)
    ensures [w] + (a + b) == [w] + a + b
  {
  }

  lemma LaterSpace(w: string, more: string, b: string, c: char)
    ensures w + more + [c] + b == w + (more + [c] + b)
    ensures (more + [c] + b)[0] == if more == "" then c else more[0]
  {
  }

  lemma {:induction false} WordsHaveNoSpace(s: string, space: char -> bool)
    ensures forall i :: 0 <= i < |Words(s, space)| ==> NoneIs(Words(s, space)[i], space)
    decreases |s|
  {
    if s != "" {
      if space(s[0]) {
        WordsHaveNoSpace(s[1..], space);
      } else {
        WordsHaveNoSpace(s[WordLength(s, space)..], space);
      }
    }
  }

  predicate NoneIs(s: string, space: char -> bool) {
    forall i :: 0 <= i < |s| ==> !space(s[i])
  }

  // ---------------------------------------------------------------- escaped words

  function EscapeAll(words: seq<string>): (es: seq<string>)
    ensures |es| == |words| && forall i :: 0 <= i < |words| ==> es[i] == KernelEscape(words[i])
  {
    seq(|words|, i requires 0 <= i < |words| => KernelEscape(words[i]))
  }

  lemma {:induction false} EscapeConcat(a: string, b: string)
    ensures KernelEscape(a + b) == KernelEscape(a) + KernelEscape(b)
    decreases |a|
  {
    if a == "" {
      assert a + b == b;
    } else {
      EscapeConcat(a[1..], b);
      assert (a + b)[0] == a[0] && (a + b)[1..] == a[1..] + b;
      EscapeFirst(a);
      EscapeFirst(a + b);
      Regrouped(KernelEscape([a[0]]), KernelEscape(a[1..]), KernelEscape(b));
    }
  }

  lemma EscapeFirst(s: string)
    requires s != ""
    ensures KernelEscape(s) == KernelEscape([s[0]]) + KernelEscape(s[1..])
  {
    assert [s[0]][1..] == "" && KernelEscape([s[0]][1..]) == "";
  }

  /** What is escaped has no space but odd ones. */
  lemma {:induction false} EscapedWord(s: string)
    requires NoneIs(s, OddSpace)
    ensures NoneIs(KernelEscape(s), IsSpace) && (s != "" ==> KernelEscape(s) != "")
    decreases |s|
  {
    if s != "" {
      EscapedWord(s[1..]);
      assert !OddSpace(s[0]);
    }
  }

  lemma EscapedOdd(s: string)
    requires s != "" && OddSpace(s[0])
    ensures KernelEscape(s) != "" && KernelEscape(s)[0] == s[0] && KernelEscape(s)[1..] == KernelEscape(s[1..])
  {
  }

  /** The fields of an escaped text are its escaped pieces. */
  lemma {:induction false} EscapedFields(s: string)
    ensures Fields(KernelEscape(s)) == EscapeAll(Pieces(s))
    decreases |s|
  {
    if s == "" {
    } else if OddSpace(s[0]) {
      EscapedOdd(s);
      EscapedFields(s[1..]);
    } else {
      var k := WordLength(s, OddSpace);
      EscapedFields(s[k..]);
      assert s == s[..k] + s[k..];
      FirstEscaped(s[..k], s[k..]);
      MorePieces(s[..k], Pieces(s[k..]));
    }
  }

  lemma MorePieces(w: string, rest: seq<string>)
    ensures EscapeAll([w] + rest) == [KernelEscape(w)] + EscapeAll(rest)
  {
  }

  /** The first field of an escaped text is its first piece, escaped. */
  lemma FirstEscaped(w: string, rest: string)
    requires w != "" && NoneIs(w, OddSpace) && (rest == "" || OddSpace(rest[0]))
    ensures Fields(KernelEscape(w + rest)) == [KernelEscape(w)] + Fields(KernelEscape(rest))
  {
    EscapeConcat(w, rest);
    EscapedWord(w);
    if rest != "" {
      EscapedOdd(rest);
    }
    WordFirst(KernelEscape(w), KernelEscape(rest), IsSpace);
  }

  // ---------------------------------------------------------------- one line

  lemma OneWord(w: string)
    requires Word(w)
    ensures Fields(w) == [w]
  {
    WordFirst(w, "", IsSpace);
    assert w + "" == w;
  }

  /** The fields of a line. */
  lemma LineFields(r: Row)
    requires Proper(r)
    ensures Fields(Line(r)) == [r.id, r.parent, r.device]
      + (EscapeAll(Pieces(r.root)) + (EscapeAll(Pieces(Text(r.point))) + Fields(r.options)))
  {
    var point, root := KernelEscape(Text(r.point)), KernelEscape(r.root);
    var l4 := point + " " + r.options;
    var l3 := root + " " + l4;
    var l2 := r.device + " " + l3;
    var l1 := r.parent + " " + l2;
    FieldsJoin(point, r.options);
    FieldsJoin(root, l4);
    FieldsJoin(r.device, l3);
    FieldsJoin(r.parent, l2);
    FieldsJoin(r.id, l1);
    OneWord(r.id);
    OneWord(r.parent);
    OneWord(r.device);
    EscapedFields(r.root);
    EscapedFields(Text(r.point));
    FiveParts(r.id, r.parent, r.device, Fields(l3));
  }

  lemma FieldsJoin(a: string, b: string)
    ensures Fields(a + " " + b) == Fields(a) + Fields(b)
  {
    WordsJoin(a, b, ' ', IsSpace);
  }

  lemma FiveParts(a: string, b: string, c: string, rest: seq<string>)
    ensures [a] + ([b] + ([c] + rest)) == [a, b, c] + rest
  {
  }

  /** The fifth of them. */
  lemma FifthField(r: Row)
    requires Proper(r)
    ensures |Fields(Line(r))| >= 6
    ensures UnescapeMountField(Fields(Line(r))[4]) == Shown(r)
  {
    LineFields(r);
    NonEmptyPieces(r.root);
    NonEmptyPieces(Text(r.point));
    assert Fields(r.options) != [];
    var piece := if Shifted(r) then Pieces(r.root)[1] else Pieces(Text(r.point))[0];
    assert Fields(Line(r))[4] == KernelEscape(piece);
    UnescapeEscape(piece);
  }

  lemma CleanIsClean(p: Path)
    requires Canonical(p)
    ensures CleanText(Text(p)) == Text(p)
  {
    JoinText([], p);
    assert [] + p == p;
  }

  lemma LineIsOne(r: Row)
    requires Proper(r)
    ensures '\n' !in Line(r)
  {
    var point, root := KernelEscape(Text(r.point)), KernelEscape(r.root);
    EscapeHasNoNewline(r.root);
    EscapeHasNoNewline(Text(r.point));
    assert IsSpace('\n');
    var l4 := point + " " + r.options;
    var l3 := root + " " + l4;
    StillOne(point, r.options);
    StillOne(root, l4);
    StillOne(r.device, l3);
    StillOne(r.parent, r.device + " " + l3);
    StillOne(r.id, r.parent + " " + (r.device + " " + l3));
  }

  lemma StillOne(a: string, b: string)
    requires '\n' !in a && '\n' !in b
    ensures '\n' !in a + " " + b
  {
  }

  lemma {:induction false} EscapeHasNoNewline(path: string)
    ensures '\n' !in KernelEscape(path)
    decreases |path|
  {
    if path != "" {
      EscapeHasNoNewline(path[1..]);
    }
  }

  // ---------------------------------------------------------------- the whole text

  function LinesOf(rows: seq<Row>): (ls: seq<string>)
    ensures |ls| == |rows| && forall i :: 0 <= i < |rows| ==> ls[i] == Line(rows[i])
  {
    seq(|rows|, i requires 0 <= i < |rows| => Line(rows[i]))
  }

  lemma {:induction false} TextLines(rows: seq<Row>)
    requires AllProper(rows)
    ensures Split(MountInfo(rows), '\n') == LinesOf(rows) + [""]
    decreases |rows|
  {
    if rows == [] {
      assert LinesOf(rows) + [""] == [""];
    } else {
      assert Proper(rows[0]);
      LineIsOne(rows[0]);
      LineThenText(Line(rows[0]), MountInfo(rows[1..]));
      TextLines(rows[1..]);
      FirstLine(rows);
    }
  }

  lemma LineThenText(line: string, text: string)
    requires '\n' !in line
    ensures Split(line + "\n" + text, '\n') == [line] + Split(text, '\n')
  {
    SplitSeparatorFree(line, '\n');
    SplitConcat(line, text, '\n');
  }

  lemma FirstLine(rows: seq<Row>)
    requires rows != []
    ensures LinesOf(rows) + [""] == [Line(rows[0])] + (LinesOf(rows[1..]) + [""])
  {
  }

  ghost predicate ShowsSome(rows: seq<Row>, target: string)
    requires AllProper(rows)
  {
    exists i :: 0 <= i < |rows| && Shown(rows[i]) == target
  }

  /** The test sees exactly what the fifth fields show. */
  lemma TestReads(rows: seq<Row>, target: string)
    requires AllProper(rows)
    ensures Sees(Some(MountInfo(rows)), target) <==> ShowsSome(rows, CleanText(target))
  {
    var lines := Split(MountInfo(rows), '\n');
    TextLines(rows);
    forall i | 0 <= i < |rows|
      ensures LineShows(lines[i], target) <==> Shown(rows[i]) == CleanText(target)
    {
      assert lines[i] == Line(rows[i]);
      FifthField(rows[i]);
    }
    assert lines[|rows|] == "" && !LineShows("", target);
  }

  // ---------------------------------------------------------------- what can be read

  lemma {:induction false} DecodedIsTidy(value: string)
    requires NoneIs(value, IsSpace)
    ensures Tidy(DecodeOnce(value))
    decreases |value|
  {
    if value == "" {
    } else if SPACE_CODE <= value || TAB_CODE <= value || BACKSLASH_CODE <= value {
      DecodedIsTidy(value[4..]);
    } else {
      DecodedIsTidy(value[1..]);
    }
  }

  /** A target with a space that the kernel does not escape, or with a newline, is never seen, in any text. */
  lemma UntidyIsUnseen(data: Option<string>, target: string)
    requires !Tidy(CleanText(target))
    ensures !Sees(data, target)
  {
    if data.Some? {
      var lines := Split(data.value, '\n');
      forall i | 0 <= i < |lines|
        ensures !LineShows(lines[i], target)
      {
        var fields := Fields(lines[i]);
        WordsHaveNoSpace(lines[i], IsSpace);
        if |fields| >= 6 {
          assert NoneIs(fields[4], IsSpace);
          UnescapeIsOnePass(fields[4]);
          DecodedIsTidy(fields[4]);
        }
      }
    }
  }

  lemma OneWhole(s: string)
    requires s != "" && NoneIs(s, OddSpace)
    ensures Pieces(s) == [s]
  {
    WordFirst(s, "", OddSpace);
    assert s + "" == s;
  }

  lemma ShownIsTidy(r: Row)
    requires Proper(r)
    ensures Tidy(Shown(r))
  {
    FifthField(r);
    var field := Fields(Line(r))[4];
    WordsHaveNoSpace(Line(r), IsSpace);
    assert NoneIs(field, IsSpace);
    UnescapeIsOnePass(field);
    DecodedIsTidy(field);
  }

  /** Unless its root shifts the fields, a line shows its mount point exactly when that is tidy. */
  lemma ShownIsPoint(r: Row)
    requires Proper(r) && !Shifted(r)
    ensures Shown(r) == Text(r.point) <==> Tidy(Text(r.point))
  {
    ShownIsTidy(r);
    var t := Text(r.point);
    if Tidy(t) {
      assert '\n' !in t by {
        assert IsSpace('\n');
      }
      assert NoneIs(t, OddSpace);
      OneWhole(t);
      CodedHasNoNewline(t);
    }
  }

  lemma SamePath(p: Path, q: Path)
    requires Canonical(p) && Canonical(q) && Text(p) == Text(q)
    ensures p == q
  {
    JoinText([], p);
    JoinText([], q);
    assert [] + p == p && [] + q == q;
  }

  // ---------------------------------------------------------------- when the test is true

  /** What a shifted line shows instead is no path, or a mount point all the same. */
  ghost predicate StrayIsHarmless(rows: seq<Row>, i: nat)
    requires AllProper(rows) && i < |rows|
  {
    forall q :: Canonical(q) && Text(q) == Shown(rows[i]) ==> q in TableOf(rows)
  }

  /** Every mount point is tidy; and where a root shifts the fields, other lines make up for it. */
  ghost predicate Readable(rows: seq<Row>)
    requires AllProper(rows)
  {
    && (forall i :: 0 <= i < |rows| ==> Tidy(Text(rows[i].point)))
    && (forall i :: 0 <= i < |rows| && Shifted(rows[i]) ==>
          StrayIsHarmless(rows, i) && ShowsSome(rows, Text(rows[i].point)))
  }

  ghost predicate TestIsTrue(rows: seq<Row>, p: Path) {
    Sees(Some(MountInfo(rows)), Text(p)) <==> p in TableOf(rows)
  }

  /** For all paths the test tells what is mounted, exactly when mountinfo is readable in that sense. */
  lemma MountTestIsTrue(rows: seq<Row>)
    requires AllProper(rows)
    ensures (forall p :: Canonical(p) ==> TestIsTrue(rows, p)) <==> Readable(rows)
  {
    if Readable(rows) {
      forall p | Canonical(p)
        ensures TestIsTrue(rows, p)
      {
        ReadableIsTrue(rows, p);
      }
    }
    if forall p :: Canonical(p) ==> TestIsTrue(rows, p) {
      TrueIsReadable(rows);
    }
  }

  lemma ReadableIsTrue(rows: seq<Row>, p: Path)
    requires AllProper(rows) && Readable(rows) && Canonical(p)
    ensures TestIsTrue(rows, p)
  {
    TestReads(rows, Text(p));
    CleanIsClean(p);
    if i :| 0 <= i < |rows| && Shown(rows[i]) == Text(p) {
      if Shifted(rows[i]) {
        assert StrayIsHarmless(rows, i);
      } else {
        ShownIsPoint(rows[i]);
        SamePath(rows[i].point, p);
        assert TableOf(rows)[i] == p;
      }
    }
    if p in TableOf(rows) {
      var i :| 0 <= i < |rows| && TableOf(rows)[i] == p;
      if !Shifted(rows[i]) {
        ShownIsPoint(rows[i]);
      }
    }
  }

  lemma TrueIsReadable(rows: seq<Row>)
    requires AllProper(rows) && forall p :: Canonical(p) ==> TestIsTrue(rows, p)
    ensures Readable(rows)
  {
    forall i | 0 <= i < |rows|
      ensures Tidy(Text(rows[i].point)) && ShowsSome(rows, Text(rows[i].point)) && StrayIsHarmless(rows, i)
    {
      PointIsShown(rows, i);
      forall q | Canonical(q) && Text(q) == Shown(rows[i])
        ensures q in TableOf(rows)
      {
        TestReads(rows, Text(q));
        CleanIsClean(q);
        assert TestIsTrue(rows, q);
      }
    }
  }

  lemma PointIsShown(rows: seq<Row>, i: nat)
    requires AllProper(rows) && i < |rows| && TestIsTrue(rows, rows[i].point)
    ensures ShowsSome(rows, Text(rows[i].point)) && Tidy(Text(rows[i].point))
  {
    var p := rows[i].point;
    assert Proper(rows[i]) && TableOf(rows)[i] == p;
    TestReads(rows, Text(p));
    CleanIsClean(p);
    var j :| 0 <= j < |rows| && Shown(rows[j]) == Text(p);
    ShownIsTidy(rows[j]);
  }

  /** Nothing holds a space but blanks and tabs, or a newline in a mount point. */
  ghost predicate AllTidy(rows: seq<Row>) {
    forall i :: 0 <= i < |rows| ==> NoneIs(rows[i].root, OddSpace) && Tidy(Text(rows[i].point))
  }

  lemma TidyIsReadable(rows: seq<Row>)
    requires AllProper(rows) && AllTidy(rows)
    ensures Readable(rows)
  {
    forall i | 0 <= i < |rows|
      ensures !Shifted(rows[i])
    {
      OneWhole(rows[i].root);
    }
  }

  // ---------------------------------------------------------------- the answers a setup gets

  /** isMounted over what the kernel writes for a table. */
  function SeenOf(rows: Table -> seq<Row>): Seen {
    (table: Table, p: Path) => Sees(Some(MountInfo(rows(table))), Text(p))
  }

  /** While only these points are added, the text is that of the table, and readable. */
  ghost predicate ReadableWith(rows: Table -> seq<Row>, table: Table, points: set<Path>) {
    forall made: seq<Path> :: Among(made, points) ==> ReadableAt(rows, table + made)
  }

  ghost predicate ReadableAt(rows: Table -> seq<Row>, table: Table) {
    AllProper(rows(table)) && Readable(rows(table)) && TableOf(rows(table)) == table
  }

  /** Where mountinfo is readable, the answers a setup gets are true. */
  lemma ReadableIsTruthful(rows: Table -> seq<Row>, table: Table, points: set<Path>)
    requires ReadableWith(rows, table, points) && forall p :: p in points ==> Canonical(p)
    ensures Truthful(SeenOf(rows), table, points)
  {
    forall made: seq<Path>, p | Among(made, points) && p in points
      ensures TellsTruth(SeenOf(rows), table + made, p)
    {
      assert ReadableAt(rows, table + made);
      ReadableIsTrue(rows(table + made), p);
    }
  }

  /** A volume whose place is not tidy is never seen, so it is mounted once more each time. */
  lemma UntidyIsMountedAgain(rows: Table -> seq<Row>, table: Table, merged: Path, v: Volume, a: VolumeAnswers)
    requires Canonical(merged) && TryVolume(false, merged, v, a).Mounted?
    requires !Tidy(Text(VolumeTarget(merged, v.target)))
    ensures var t := VolumeTarget(merged, v.target);
      TryVolumes(SeenOf(rows), table, merged, [(v, a), (v, a)]) == Attempt([t, t], true)
  {
    var t := VolumeTarget(merged, v.target);
    JoinPathCanonical(merged, TrimPrefix(CleanText(v.target), "/"));
    CleanIsClean(t);
    UntidyIsUnseen(Some(MountInfo(rows(table))), Text(t));
    UntidyIsUnseen(Some(MountInfo(rows(table + [t]))), Text(t));
    UnseenIsMountedAgain(SeenOf(rows), table, merged, v, a);
  }

  /** A carriage return in a mount point is enough: "/a\rb" is mounted, and the test does not see it. */
  lemma CarriageReturnUnseen(r: Row)
    requires Proper(r) && r.point == ["a\rb"]
    ensures r.point in TableOf([r]) && !Sees(Some(MountInfo([r])), Text(r.point))
  {
    assert TableOf([r])[0] == r.point;
    CleanIsClean(r.point);
    assert Text(r.point) == "/a\rb" && Text(r.point)[2] == '\r' && IsSpace('\r');
    UntidyIsUnseen(Some(MountInfo([r])), Text(r.point));
  }

  /** A no-break space in what is mounted hides any place: here "/x y", bound to "/p". */
  lemma NoBreakSpaceHides(r: Row)
    requires Proper(r) && r.point == ["p"] && r.root == "/x" + [0xA0 as char] + "y"
    ensures r.point in TableOf([r]) && !Sees(Some(MountInfo([r])), Text(r.point))
  {
    assert TableOf([r])[0] == r.point;
    CleanIsClean(r.point);
    TestReads([r], Text(r.point));
    HiddenPieces(r.root);
    assert Shown(r) == Coded("y");
    assert "y"[1..] == "" && Coded("y") == "y" && Text(r.point) == "/p";
  }

  lemma HiddenPieces(root: string)
    requires root == "/x" + [0xA0 as char] + "y"
    ensures Pieces(root) == ["/x", "y"]
  {
    var c := 0xA0 as char;
    assert NoneIs("/x", OddSpace) && NoneIs("y", OddSpace) && OddSpace(c);
    WordsJoin("/x", "y", c, OddSpace);
    OneWhole("/x");
    OneWhole("y");
  }
}
