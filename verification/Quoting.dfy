/** The two escapings of the file manager: mount points in mountinfo, and words for a shell. */
module Quoting {
  import opened Strings

  // ---------------------------------------------------------------- mountinfo

  const SPACE_CODE := "\\040"
  const TAB_CODE := "\\011"
  const BACKSLASH_CODE := "\\134"

  /** unescapeMountField: three replacements, one after the other. */
  function UnescapeMountField(value: string): string {
    ReplaceAll(ReplaceAll(ReplaceAll(value, SPACE_CODE, " "), TAB_CODE, "\t"), BACKSLASH_CODE, "\\")
  }

  /** How the kernel writes a mount point: these four characters as octal codes. */
  function KernelEscape(path: string): string {
    if path == "" then ""
    else
      (if path[0] == ' ' then SPACE_CODE
       else if path[0] == '\t' then TAB_CODE
       else if path[0] == '\n' then "\\012"
       else if path[0] == '\\' then BACKSLASH_CODE
       else [path[0]]) + KernelEscape(path[1..])
  }

  /** One left-to-right pass over the codes. */
  function DecodeOnce(value: string): string
    decreases |value|
  {
    if value == "" then ""
    else if SPACE_CODE <= value then " " + DecodeOnce(value[4..])
    else if TAB_CODE <= value then "\t" + DecodeOnce(value[4..])
    else if BACKSLASH_CODE <= value then "\\" + DecodeOnce(value[4..])
    else [value[0]] + DecodeOnce(value[1..])
  }

  /** Replacing a code neither makes nor breaks a prefix of plain digits. */
  lemma {:induction false} DigitsThrough(s: string, digits: string, code: string, plain: string)
    requires |code| > 0 && code[0] == '\\' && |plain| == 1
    requires forall i :: 0 <= i < |digits| ==> digits[i] != '\\' && digits[i] != plain[0]
    ensures digits <= ReplaceAll(s, code, plain) <==> digits <= s
    decreases |digits|
  {
    if digits != "" && s != "" {
      if code <= s {
        PrefixStep(code, s);
        PrefixStep(digits, s);
        PrefixStep(digits, ReplaceAll(s, code, plain));
      } else {
        DigitsThrough(s[1..], digits[1..], code, plain);
        var r := ReplaceAll(s[1..], code, plain);
        PrefixStep(digits, s);
        PrefixStep(digits, [s[0]] + r);
        assert ([s[0]] + r)[1..] == r;
      }
    }
  }

  lemma PrefixStep(a: string, b: string)
    requires a != "" && b != ""
    ensures a <= b <==> a[0] == b[0] && a[1..] <= b[1..]
  {
    if a[0] == b[0] && a[1..] <= b[1..] {
      assert b[..|a|] == [b[0]] + b[1..][..|a| - 1];
      assert a == [a[0]] + a[1..];
    }
  }

  /** A code starts a string exactly when a backslash and its digits do. */
  lemma CodeSplit(s: string, code: string)
    requires |code| == 4
    ensures code <= s <==> s != "" && s[0] == code[0] && code[1..] <= s[1..]
  {
    if s != "" {
      PrefixStep(code, s);
    }
  }

  /** Replacing one code passes over another one. */
  lemma OtherCode(s: string, code: string, plain: string, other: string)
    requires |code| == |other| == 4 && code[0] == other[0] == '\\' && code[1..] != other[1..]
    requires other[1] != '\\' && other[2] != '\\' && other[3] != '\\'
    ensures ReplaceAll(other + s, code, plain) == other + ReplaceAll(s, code, plain)
  {
    var s3 := [other[3]] + s;
    var s2 := [other[2]] + s3;
    var s1 := [other[1]] + s2;
    assert !(code[1..] <= s1) by {
      assert s1[..3] == other[1..];
    }
    PlainHead(other[3], s, code, plain);
    PlainHead(other[2], s3, code, plain);
    PlainHead(other[1], s2, code, plain);
    PlainHead(other[0], s1, code, plain);
    assert [other[0]] + s1 == other + s;
    var r := ReplaceAll(s, code, plain);
    assert [other[0]] + ([other[1]] + ([other[2]] + ([other[3]] + r))) == other + r;
  }

  lemma PlainHead(c: char, s: string, code: string, plain: string)
    requires |code| == 4 && code[0] == '\\'
    requires c != '\\' || !(code[1..] <= s)
    ensures ReplaceAll([c] + s, code, plain) == [c] + ReplaceAll(s, code, plain)
  {
    var t := [c] + s;
    assert t[1..] == s;
    CodeSplit(t, code);
  }

  lemma CodeHead(s: string, code: string, plain: string)
    requires |code| == 4
    ensures ReplaceAll(code + s, code, plain) == plain + ReplaceAll(s, code, plain)
  {
    assert code <= code + s;
    assert (code + s)[4..] == s;
  }

  /** On every input the three passes decode exactly what a single pass does. */
  lemma {:induction false} UnescapeIsOnePass(value: string)
    ensures UnescapeMountField(value) == DecodeOnce(value)
    decreases |value|
  {
    if value == "" {
    } else if SPACE_CODE <= value || TAB_CODE <= value || BACKSLASH_CODE <= value {
      UnescapeCode(value);
    } else {
      var c, s := value[0], value[1..];
      UnescapeIsOnePass(s);
      assert value == [c] + s;
      CodeSplit(value, SPACE_CODE);
      CodeSplit(value, TAB_CODE);
      CodeSplit(value, BACKSLASH_CODE);
      var r1 := ReplaceAll(s, SPACE_CODE, " ");
      var r2 := ReplaceAll(r1, TAB_CODE, "\t");
      DigitsThrough(s, TAB_CODE[1..], SPACE_CODE, " ");
      DigitsThrough(s, BACKSLASH_CODE[1..], SPACE_CODE, " ");
      DigitsThrough(r1, BACKSLASH_CODE[1..], TAB_CODE, "\t");
      PlainHead(c, s, SPACE_CODE, " ");
      PlainHead(c, r1, TAB_CODE, "\t");
      PlainHead(c, r2, BACKSLASH_CODE, "\\");
    }
  }

  lemma {:induction false} UnescapeCode(value: string)
    requires SPACE_CODE <= value || TAB_CODE <= value || BACKSLASH_CODE <= value
    ensures UnescapeMountField(value) == DecodeOnce(value)
    decreases |value|, 0
  {
    var s := value[4..];
    UnescapeIsOnePass(s);
    var r1 := ReplaceAll(s, SPACE_CODE, " ");
    var r2 := ReplaceAll(r1, TAB_CODE, "\t");
    if SPACE_CODE <= value {
      assert value == SPACE_CODE + s;
      CodeHead(s, SPACE_CODE, " ");
      PlainHead(' ', r1, TAB_CODE, "\t");
      PlainHead(' ', r2, BACKSLASH_CODE, "\\");
    } else if TAB_CODE <= value {
      assert value == TAB_CODE + s;
      OtherCode(s, SPACE_CODE, " ", TAB_CODE);
      CodeHead(r1, TAB_CODE, "\t");
      PlainHead('\t', r2, BACKSLASH_CODE, "\\");
    } else {
      assert value == BACKSLASH_CODE + s;
      OtherCode(s, SPACE_CODE, " ", BACKSLASH_CODE);
      OtherCode(r1, TAB_CODE, "\t", BACKSLASH_CODE);
      CodeHead(r2, BACKSLASH_CODE, "\\");
    }
  }

  /** What the reader makes of a mount point: a newline stays a code. */
  function Coded(path: string): string {
    if path == "" then "" else (if path[0] == '\n' then "\\012" else [path[0]]) + Coded(path[1..])
  }

  /** Whatever the path, the decoder undoes all codes of the kernel but that of a newline. */
  lemma {:induction false} DecodeEscape(path: string)
    ensures DecodeOnce(KernelEscape(path)) == Coded(path)
    decreases |path|
  {
    if path != "" {
      DecodeEscape(path[1..]);
      DecodeFirst(path[0], KernelEscape(path[1..]));
    }
  }

  /** The decoder reads one escaped character and goes on behind it. */
  lemma DecodeFirst(c: char, e: string)
    ensures DecodeOnce(KernelEscape([c]) + e) == Coded([c]) + DecodeOnce(e)
    ensures forall path: string :: path != "" && path[0] == c && KernelEscape(path[1..]) == e
                                   ==> KernelEscape(path) == KernelEscape([c]) + e
  {
    assert [c][1..] == "" && KernelEscape("") == "" && Coded("") == "";
    if c == ' ' {
      assert KernelEscape([c]) == SPACE_CODE && (SPACE_CODE + e)[4..] == e;
    } else if c == '\t' {
      assert KernelEscape([c]) == TAB_CODE && (TAB_CODE + e)[4..] == e && (TAB_CODE + e)[2] == '1';
    } else if c == '\\' {
      assert KernelEscape([c]) == BACKSLASH_CODE && (BACKSLASH_CODE + e)[4..] == e && (BACKSLASH_CODE + e)[1] == '1';
    } else if c == '\n' {
      DecodeNewline(e);
      assert "\\012" + "" == "\\012";
      assert KernelEscape([c]) == "\\012" && Coded([c]) == "\\012";
    } else {
      assert KernelEscape([c]) == [c] && ([c] + e)[0] == c && ([c] + e)[1..] == e;
    }
  }

  /** A character that starts no code is read as itself. */
  lemma DecodePlain(c: char, e: string)
    requires c != '\\' || !(SPACE_CODE[1..] <= e || TAB_CODE[1..] <= e || BACKSLASH_CODE[1..] <= e)
    ensures DecodeOnce([c] + e) == [c] + DecodeOnce(e)
  {
    var s := [c] + e;
    assert s[1..] == e;
    CodeSplit(s, SPACE_CODE);
    CodeSplit(s, TAB_CODE);
    CodeSplit(s, BACKSLASH_CODE);
  }

  lemma NewlineIsNoCode(s3: string)
    requires s3 != "" && s3[0] == '2'
    ensures var s1 := ['0'] + (['1'] + s3);
      !(SPACE_CODE[1..] <= s1) && !(TAB_CODE[1..] <= s1) && !(BACKSLASH_CODE[1..] <= s1)
  {
    var s1 := ['0'] + (['1'] + s3);
    assert s1[0] == '0' && s1[1] == '1' && s1[2] == '2';
    assert SPACE_CODE[1..][1] == '4' && TAB_CODE[1..][2] == '1' && BACKSLASH_CODE[1..][0] == '1';
  }

  /** The code of a newline is read as four plain characters. */
  lemma DecodeNewline(e: string)
    ensures DecodeOnce("\\012" + e) == "\\012" + DecodeOnce(e)
  {
    var s3 := ['2'] + e;
    var s2 := ['1'] + s3;
    var s1 := ['0'] + s2;
    NewlineIsNoCode(s3);
    DecodePlain('2', e);
    DecodePlain('1', s3);
    DecodePlain('0', s2);
    DecodePlain('\\', s1);
    NewlineParts(e);
    NewlineParts(DecodeOnce(e));
  }

  lemma NewlineParts(s: string)
    ensures "\\012" + s == ['\\'] + (['0'] + (['1'] + (['2'] + s)))
  {
  }

  lemma {:induction false} CodedHasNoNewline(path: string)
    ensures '\n' !in Coded(path)
    ensures '\n' !in path ==> Coded(path) == path
    decreases |path|
  {
    if path != "" {
      CodedHasNoNewline(path[1..]);
      assert path == [path[0]] + path[1..];
    }
  }

  /** What is read of an escaped path, whatever it holds. */
  lemma UnescapeEscape(path: string)
    ensures UnescapeMountField(KernelEscape(path)) == Coded(path)
  {
    UnescapeIsOnePass(KernelEscape(path));
    DecodeEscape(path);
  }

  /** The kernel's escaping is undone exactly for the paths without a newline. */
  lemma UnescapeInverts(path: string)
    ensures UnescapeMountField(KernelEscape(path)) == path <==> '\n' !in path
  {
    UnescapeEscape(path);
    CodedHasNoNewline(path);
  }

  // ---------------------------------------------------------------- shell words

  /** shq. */
  function ShellQuote(value: string): string {
    "'" + ReplaceAll(value, "'", "'\\''") + "'"
  }

  datatype Reading = Word(text: string, rest: string) | Unreadable

  predicate Blank(c: char) {
    c == ' ' || c == '\t' || c == '\n'
  }

  /** Characters the shell gives a meaning outside quotes. */
  predicate Special(c: char) {
    c in "\"$`|&;<>()*?[#~=%"
  }

  /**
   * The rest of a word outside quotes, as the Shell Command Language reads it: a backslash keeps
   * the next character (section 2.2.1), a single quote opens a literal run (section 2.2.2).
   */
  function ReadBare(s: string): Reading
    decreases |s|
  {
    if s == "" || Blank(s[0]) then Word("", s)
    else if s[0] == '\'' then ReadSingle(s[1..])
    else if s[0] == '\\' then
      if |s| == 1 then Unreadable
      else if s[1] == '\n' then ReadBare(s[2..])
      else Prepend(s[1], ReadBare(s[2..]))
    else if Special(s[0]) then Unreadable
    else Prepend(s[0], ReadBare(s[1..]))
  }

  function ReadSingle(s: string): Reading
    decreases |s|
  {
    if s == "" then Unreadable
    else if s[0] == '\'' then ReadBare(s[1..])
    else Prepend(s[0], ReadSingle(s[1..]))
  }

  function Prepend(c: char, r: Reading): Reading {
    match r
    case Word(text, rest) => Word([c] + text, rest)
    case Unreadable => Unreadable
  }

  /** Leaving the quotes for one escaped quote and coming back adds that quote. */
  lemma EscapedQuoteReads(more: string)
    ensures ReadSingle("'\\''" + more) == Prepend('\'', ReadSingle(more))
  {
    var s := "'\\''" + more;
    var bare := "\\''" + more;
    assert s[1..] == bare;
    assert bare[2..] == "'" + more;
    assert ("'" + more)[1..] == more;
    assert ReadBare("'" + more) == ReadSingle(more);
    assert bare[0] == '\\' && bare[1] == '\'';
  }

  /** Inside quotes any other character stands for itself. */
  lemma PlainReads(c: char, more: string)
    requires c != '\''
    ensures ReadSingle([c] + more) == Prepend(c, ReadSingle(more))
  {
    assert ([c] + more)[1..] == more;
  }

  /** What shq makes of the first character. */
  lemma FirstQuoted(value: string)
    requires value != ""
    ensures ReplaceAll(value, "'", "'\\''")
         == (if value[0] == '\'' then "'\\''" else [value[0]]) + ReplaceAll(value[1..], "'", "'\\''")
  {
    assert value == [value[0]] + value[1..];
  }

  lemma Regrouped(a: string, b: string, c: string)
    ensures a + b + c == a + (b + c)
  {
  }

  lemma {:induction false} QuotedBodyReads(value: string, body: string, close: string, tail: string)
    requires tail == "" || Blank(tail[0])
    requires body == ReplaceAll(value, "'", "'\\''") && close == "'" + tail
    ensures ReadSingle(body + close) == Word(value, tail)
    decreases |value|
  {
    if value == "" {
      assert body + close == close && close[1..] == tail;
      assert ReadBare(tail) == Word("", tail);
    } else {
      var c, body' := value[0], ReplaceAll(value[1..], "'", "'\\''");
      FirstQuoted(value);
      QuotedBodyReads(value[1..], body', close, tail);
      Regrouped(if c == '\'' then "'\\''" else [c], body', close);
      if c == '\'' {
        EscapedQuoteReads(body' + close);
      } else {
        PlainReads(c, body' + close);
      }
      assert [c] + value[1..] == value;
    }
  }

  /** A quoted value is read back as exactly one word, the value, whatever characters it holds. */
  lemma QuoteReadsBack(value: string, tail: string)
    requires tail == "" || Blank(tail[0])
    ensures ReadBare(ShellQuote(value) + tail) == Word(value, tail)
  {
    var body := ReplaceAll(value, "'", "'\\''");
    QuotedBodyReads(value, body, "'" + tail, tail);
    var s := ShellQuote(value) + tail;
    assert s[1..] == body + ("'" + tail);
  }
}
