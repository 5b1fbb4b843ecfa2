/**
 * The frame codec of the websocket server (RFC 6455 sections 5.2 and 5.3): readFrame over the
 * client's bytes and writeFrame towards the client, each against an independent peer.
 */
module WsFrames {
  type Byte = n: nat | n < 256
  type Bytes = seq<Byte>

  const MAX_PAYLOAD: nat := 4194304

  datatype Frame = Frame(fin: bool, opcode: Byte, payload: Bytes)

  datatype FrameError = ShortRead | Extensions | NotMasked | FrameTooLarge | InvalidControl

  /** The frame or the error, and what is left unread. */
  datatype ParseResult = Parsed(frame: Frame, rest: Bytes) | Failed(error: FrameError, rest: Bytes)

  // ---------------------------------------------------------------- numbers and masks

  function Pow2(n: nat): nat {
    if n == 0 then 1 else 2 * Pow2(n - 1)
  }

  /** Exclusive or of the lowest bits. */
  function Xor(a: nat, b: nat, bits: nat): (r: nat)
    ensures r < Pow2(bits)
    decreases bits
  {
    if bits == 0 then 0 else (a % 2 + b % 2) % 2 + 2 * Xor(a / 2, b / 2, bits - 1)
  }

  lemma {:induction false} XorTwice(a: nat, m: nat, bits: nat)
    requires a < Pow2(bits)
    ensures Xor(Xor(a, m, bits), m, bits) == a
    decreases bits
  {
    if bits > 0 {
      var d, y, x := (a % 2 + m % 2) % 2, Xor(a / 2, m / 2, bits - 1), Xor(a, m, bits);
      XorTwice(a / 2, m / 2, bits - 1);
      Halves(d, y, x);
      Parity(a % 2, m % 2);
    }
  }

  /** The bit worth 2 to the k. */
  predicate Bit(n: nat, k: nat)
    decreases k
  {
    if k == 0 then n % 2 == 1 else Bit(n / 2, k - 1)
  }

  /** A bit is set exactly where the two differ. */
  lemma {:induction false} XorBits(a: nat, b: nat, bits: nat, k: nat)
    requires k < bits
    ensures Bit(Xor(a, b, bits), k) <==> Bit(a, k) != Bit(b, k)
    decreases k
  {
    Halves((a % 2 + b % 2) % 2, Xor(a / 2, b / 2, bits - 1), Xor(a, b, bits));
    if k > 0 {
      XorBits(a / 2, b / 2, bits - 1, k - 1);
    }
  }

  lemma Halves(d: nat, y: nat, x: nat)
    requires d < 2 && x == d + 2 * y
    ensures x % 2 == d && x / 2 == y
  {
  }

  lemma Parity(a: nat, m: nat)
    requires a < 2 && m < 2
    ensures ((a + m) % 2 + m) % 2 == a
  {
  }

  function XorByte(a: Byte, m: Byte): Byte {
    EightBits();
    Xor(a, m, 8)
  }

  lemma EightBits()
    ensures Pow2(8) == 256
  {
    assert Pow2(8) == 2 * (2 * Pow2(6)) && Pow2(6) == 2 * (2 * Pow2(4)) && Pow2(4) == 2 * (2 * Pow2(2)) && Pow2(2) == 4;
  }

  function BigEndian(s: Bytes): nat
    decreases |s|
  {
    if s == [] then 0 else 256 * BigEndian(s[..|s| - 1]) + s[|s| - 1]
  }

  function BigEndianBytes(n: nat, width: nat): (s: Bytes)
    ensures |s| == width
    decreases width
  {
    if width == 0 then [] else BigEndianBytes(n / 256, width - 1) + [n % 256]
  }

  function Pow256(width: nat): nat
    decreases width
  {
    if width == 0 then 1 else 256 * Pow256(width - 1)
  }

  lemma {:induction false} BigEndianReads(n: nat, width: nat)
    requires n < Pow256(width)
    ensures BigEndian(BigEndianBytes(n, width)) == n
    decreases width
  {
    if width > 0 {
      BigEndianReads(n / 256, width - 1);
      var s := BigEndianBytes(n, width);
      assert s[..|s| - 1] == BigEndianBytes(n / 256, width - 1);
    }
  }

  lemma {:induction false} BigEndianWrites(s: Bytes)
    ensures BigEndian(s) < Pow256(|s|) && BigEndianBytes(BigEndian(s), |s|) == s
    decreases |s|
  {
    if s != [] {
      var first, last := s[..|s| - 1], s[|s| - 1];
      BigEndianWrites(first);
      var n := BigEndian(s);
      assert n / 256 == BigEndian(first) && n % 256 == last;
      assert s == first + [last];
    }
  }

  /** The first byte is worth most. */
  lemma {:induction false} FirstIsHighest(b: Byte, s: Bytes)
    ensures BigEndian([b] + s) == b * Pow256(|s|) + BigEndian(s)
    decreases |s|
  {
    if s == [] {
      assert [b][..0] == [];
    } else {
      var k := |s| - 1;
      assert ([b] + s)[..|s|] == [b] + s[..k] && ([b] + s)[|s|] == s[k];
      FirstIsHighest(b, s[..k]);
      assert 256 * (b * Pow256(k)) == b * (256 * Pow256(k));
    }
  }

  /** Payload byte i is xored with mask byte i mod 4. */
  function XorMask(payload: Bytes, mask: Bytes): (r: Bytes)
    requires |mask| == 4
    ensures |r| == |payload| && forall i :: 0 <= i < |r| ==> r[i] == XorByte(payload[i], mask[i % 4])
  {
    seq(|payload|, i requires 0 <= i < |payload| => XorByte(payload[i], mask[i % 4]))
  }

  lemma UnmaskMask(payload: Bytes, mask: Bytes)
    requires |mask| == 4
    ensures XorMask(XorMask(payload, mask), mask) == payload
  {
    forall i | 0 <= i < |payload|
      ensures XorByte(XorByte(payload[i], mask[i % 4]), mask[i % 4]) == payload[i]
    {
      EightBits();
      XorTwice(payload[i], mask[i % 4], 8);
    }
  }

  /** Masking turns over just the bits that the mask sets. */
  lemma MaskBits(payload: Bytes, mask: Bytes, i: nat, k: nat)
    requires |mask| == 4 && i < |payload| && k < 8
    ensures Bit(XorMask(payload, mask)[i], k) <==> Bit(payload[i], k) != Bit(mask[i % 4], k)
  {
    XorBits(payload[i], mask[i % 4], 8, k);
  }

  // ---------------------------------------------------------------- readFrame

  /** b & 0x80 != 0 */
  predicate High(b: Byte) {
    b >= 0x80
  }

  /** (b & 0x70) >> 4 */
  function Rsv(b: Byte): nat {
    b / 16 % 8
  }

  /** b & 0x0f */
  function Opcode(b: Byte): Byte {
    b % 16
  }

  /** b & 0x7f */
  function Low7(b: Byte): nat {
    b % 128
  }

  /** How many bytes of extended length follow. */
  function Extension(short: nat): nat {
    if short == 126 then 2 else if short == 127 then 8 else 0
  }

  function ParsePayload(fin: bool, opcode: Byte, length: nat, s: Bytes): ParseResult {
    if |s| < 4 + length then Failed(ShortRead, [])
    else Parsed(Frame(fin, opcode, XorMask(s[4..4 + length], s[..4])), s[4 + length..])
  }

  function ParseLength(fin: bool, opcode: Byte, short: nat, s: Bytes): ParseResult {
    var n := Extension(short);
    if |s| < n then Failed(ShortRead, [])
    else
      var length := if n == 0 then short else BigEndian(s[..n]);
      if length > MAX_PAYLOAD then Failed(FrameTooLarge, s[n..])
      else if opcode >= 8 && (!fin || length > 125) then Failed(InvalidControl, s[n..])
      else ParsePayload(fin, opcode, length, s[n..])
  }

  function ParseFrame(s: Bytes): ParseResult {
    if |s| < 2 then Failed(ShortRead, [])
    else if Rsv(s[0]) != 0 then Failed(Extensions, s[2..])
    else if !High(s[1]) then Failed(NotMasked, s[2..])
    else ParseLength(High(s[0]), Opcode(s[0]), Low7(s[1]), s[2..])
  }

  // ---------------------------------------------------------------- the client's encoder

  datatype Form = Short | Medium | Long

  predicate FormFits(form: Form, n: nat) {
    match form
    case Short => n <= 125
    case Medium => n <= 0xFFFF
    case Long => n < 0x1_0000_0000_0000_0000
  }

  function FormCode(form: Form, n: nat): (code: nat)
    requires FormFits(form, n)
    ensures code < 128
  {
    match form
    case Short => n
    case Medium => 126
    case Long => 127
  }

  function FormBytes(form: Form, n: nat): Bytes
    requires FormFits(form, n)
  {
    match form
    case Short => []
    case Medium => BigEndianBytes(n, 2)
    case Long => BigEndianBytes(n, 8)
  }

  function FirstByte(fin: bool, opcode: Byte): Byte
    requires opcode < 16
  {
    (if fin then 0x80 else 0) + opcode
  }

  /** A client's frame: masked, its length in any form that can hold it. */
  function Encode(f: Frame, mask: Bytes, form: Form): Bytes
    requires |mask| == 4 && FormFits(form, |f.payload|) && f.opcode < 16
  {
    [FirstByte(f.fin, f.opcode), 0x80 + FormCode(form, |f.payload|)]
    + FormBytes(form, |f.payload|) + mask + XorMask(f.payload, mask)
  }

  /** What readFrame lets through. */
  predicate Acceptable(f: Frame) {
    f.opcode < 16 && |f.payload| <= MAX_PAYLOAD && (f.opcode >= 8 ==> f.fin && |f.payload| <= 125)
  }

  lemma FirstByteBits(fin: bool, opcode: Byte)
    requires opcode < 16
    ensures var b := FirstByte(fin, opcode); High(b) == fin && Rsv(b) == 0 && Opcode(b) == opcode
  {
  }

  lemma FirstByteFrom(b: Byte)
    requires Rsv(b) == 0
    ensures FirstByte(High(b), Opcode(b)) == b
  {
  }

  lemma LengthBits(code: nat)
    requires code < 128
    ensures High(0x80 + code) && Low7(0x80 + code) == code && !High(code) && Low7(code) == code
  {
  }

  lemma LengthFrom(b: Byte)
    requires High(b)
    ensures b == 0x80 + Low7(b) && Low7(b) < 128
  {
  }

  lemma Widths()
    ensures Pow256(2) == 0x1_0000 && Pow256(8) == 0x1_0000_0000_0000_0000
  {
    assert Pow256(2) == 256 * Pow256(1) && Pow256(1) == 256 * Pow256(0);
    assert Pow256(4) == 256 * Pow256(3) && Pow256(3) == 256 * Pow256(2);
    assert Pow256(6) == 256 * Pow256(5) && Pow256(5) == 256 * Pow256(4);
    assert Pow256(8) == 256 * Pow256(7) && Pow256(7) == 256 * Pow256(6);
  }

  /** The extended length reads back. */
  lemma FormReads(form: Form, n: nat)
    requires FormFits(form, n)
    ensures |FormBytes(form, n)| == Extension(FormCode(form, n))
    ensures form == Short ==> FormCode(form, n) == n
    ensures form != Short ==> BigEndian(FormBytes(form, n)) == n && Extension(FormCode(form, n)) != 0
  {
    Widths();
    if form == Medium {
      BigEndianReads(n, 2);
    } else if form == Long {
      BigEndianReads(n, 8);
    }
  }

  lemma HeadReads(b0: Byte, b1: Byte, t: Bytes)
    requires Rsv(b0) == 0 && High(b1)
    ensures ParseFrame([b0, b1] + t) == ParseLength(High(b0), Opcode(b0), Low7(b1), t)
  {
    assert ([b0, b1] + t)[2..] == t;
  }

  lemma LengthReads(fin: bool, opcode: Byte, form: Form, n: nat, t: Bytes)
    requires FormFits(form, n) && n <= MAX_PAYLOAD && (opcode >= 8 ==> fin && n <= 125)
    ensures ParseLength(fin, opcode, FormCode(form, n), FormBytes(form, n) + t) == ParsePayload(fin, opcode, n, t)
  {
    FormReads(form, n);
    var ext := FormBytes(form, n);
    assert (ext + t)[..|ext|] == ext && (ext + t)[|ext|..] == t;
  }

  lemma PayloadReads(f: Frame, mask: Bytes, rest: Bytes)
    requires |mask| == 4
    ensures ParsePayload(f.fin, f.opcode, |f.payload|, mask + XorMask(f.payload, mask) + rest) == Parsed(f, rest)
  {
    var n, body := |f.payload|, XorMask(f.payload, mask);
    var t := mask + body + rest;
    assert t[..4] == mask && t[4..4 + n] == body && t[4 + n..] == rest;
    UnmaskMask(f.payload, mask);
  }

  lemma Regroup(h: Bytes, e: Bytes, m: Bytes, p: Bytes, r: Bytes)
    ensures h + e + m + p + r == h + (e + (m + p + r))
  {
  }

  lemma PrefixReads(b0: Byte, b1: Byte, fin: bool, opcode: Byte, form: Form, n: nat, t: Bytes)
    requires High(b0) == fin && Rsv(b0) == 0 && Opcode(b0) == opcode
    requires FormFits(form, n) && High(b1) && Low7(b1) == FormCode(form, n)
    requires n <= MAX_PAYLOAD && (opcode >= 8 ==> fin && n <= 125)
    ensures ParseFrame([b0, b1] + (FormBytes(form, n) + t)) == ParsePayload(fin, opcode, n, t)
  {
    HeadReads(b0, b1, FormBytes(form, n) + t);
    LengthReads(fin, opcode, form, n, t);
  }

  /** Whatever an acceptable frame is masked with, and in each length form, it parses back and no byte more. */
  lemma ParseEncode(f: Frame, mask: Bytes, form: Form, rest: Bytes)
    requires |mask| == 4 && FormFits(form, |f.payload|) && Acceptable(f)
    ensures ParseFrame(Encode(f, mask, form) + rest) == Parsed(f, rest)
  {
    var n, body := |f.payload|, XorMask(f.payload, mask);
    var b0, b1 := FirstByte(f.fin, f.opcode), 0x80 + FormCode(form, n);
    Regroup([b0, b1], FormBytes(form, n), mask, body, rest);
    FirstByteBits(f.fin, f.opcode);
    LengthBits(FormCode(form, n));
    PrefixReads(b0, b1, f.fin, f.opcode, form, n, mask + body + rest);
    PayloadReads(f, mask, rest);
  }

  lemma PayloadWrites(fin: bool, opcode: Byte, length: nat, t: Bytes)
    requires ParsePayload(fin, opcode, length, t).Parsed?
    ensures var r := ParsePayload(fin, opcode, length, t);
      && |r.frame.payload| == length && r.frame.fin == fin && r.frame.opcode == opcode
      && t == t[..4] + XorMask(r.frame.payload, t[..4]) + r.rest
  {
    UnmaskMask(t[4..4 + length], t[..4]);
    InThree(t, 4, 4 + length);
  }

  lemma InThree(t: Bytes, i: nat, j: nat)
    requires i <= j <= |t|
    ensures t == t[..i] + t[i..j] + t[j..]
  {
  }

  lemma LengthWrites(fin: bool, opcode: Byte, short: nat, t: Bytes) returns (form: Form, n: nat, u: Bytes)
    requires short < 128 && ParseLength(fin, opcode, short, t).Parsed?
    ensures FormFits(form, n) && FormCode(form, n) == short && t == FormBytes(form, n) + u
    ensures n <= MAX_PAYLOAD && (opcode >= 8 ==> fin && n <= 125)
    ensures ParseLength(fin, opcode, short, t) == ParsePayload(fin, opcode, n, u)
  {
    var w := Extension(short);
    form := if w == 0 then Short else if w == 2 then Medium else Long;
    n := if w == 0 then short else BigEndian(t[..w]);
    u := t[w..];
    Widths();
    BigEndianWrites(t[..w]);
    assert t == t[..w] + u;
  }

  lemma HeadWrites(s: Bytes) returns (form: Form, n: nat, u: Bytes)
    requires ParseFrame(s).Parsed?
    ensures var fin, opcode := High(s[0]), Opcode(s[0]);
      && FormFits(form, n) && n <= MAX_PAYLOAD && (opcode >= 8 ==> fin && n <= 125)
      && s == [FirstByte(fin, opcode), 0x80 + FormCode(form, n)] + (FormBytes(form, n) + u)
      && ParseFrame(s) == ParsePayload(fin, opcode, n, u)
  {
    FirstByteFrom(s[0]);
    LengthFrom(s[1]);
    form, n, u := LengthWrites(High(s[0]), Opcode(s[0]), Low7(s[1]), s[2..]);
    assert s == [s[0], s[1]] + s[2..];
  }

  /** Everything readFrame accepts is a client's encoding of the frame it returns. */
  lemma EncodeParse(s: Bytes) returns (mask: Bytes, form: Form)
    requires ParseFrame(s).Parsed?
    ensures var f := ParseFrame(s).frame;
      && |mask| == 4 && FormFits(form, |f.payload|) && Acceptable(f)
      && s == Encode(f, mask, form) + ParseFrame(s).rest
  {
    var n, u;
    form, n, u := HeadWrites(s);
    var f, rest := ParseFrame(s).frame, ParseFrame(s).rest;
    PayloadWrites(f.fin, f.opcode, n, u);
    mask := u[..4];
    var head := [FirstByte(f.fin, f.opcode), 0x80 + FormCode(form, n)];
    Regroup(head, FormBytes(form, n), mask, XorMask(f.payload, mask), rest);
  }

  // ---------------------------------------------------------------- what is refused

  /** The two bytes at the head of any frame. */
  function HeadOf(fin: bool, rsv: nat, opcode: Byte, masked: bool, code: nat): Bytes
    requires rsv < 8 && opcode < 16 && code < 128
  {
    [(if fin then 0x80 else 0) + 16 * rsv + opcode, (if masked then 0x80 else 0) + code]
  }

  lemma HeadBits(fin: bool, rsv: nat, opcode: Byte, masked: bool, code: nat)
    requires rsv < 8 && opcode < 16 && code < 128
    ensures var h := HeadOf(fin, rsv, opcode, masked, code);
      && High(h[0]) == fin && Rsv(h[0]) == rsv && Opcode(h[0]) == opcode
      && High(h[1]) == masked && Low7(h[1]) == code
  {
  }

  lemma HeadParses(fin: bool, rsv: nat, opcode: Byte, masked: bool, code: nat, t: Bytes)
    requires rsv < 8 && opcode < 16 && code < 128
    ensures ParseFrame(HeadOf(fin, rsv, opcode, masked, code) + t) ==
      if rsv != 0 then Failed(Extensions, t)
      else if !masked then Failed(NotMasked, t)
      else ParseLength(fin, opcode, code, t)
  {
    HeadBits(fin, rsv, opcode, masked, code);
    assert (HeadOf(fin, rsv, opcode, masked, code) + t)[2..] == t;
  }

  lemma LengthParses(fin: bool, opcode: Byte, form: Form, n: nat, t: Bytes)
    requires FormFits(form, n)
    ensures ParseLength(fin, opcode, FormCode(form, n), FormBytes(form, n) + t) ==
      if n > MAX_PAYLOAD then Failed(FrameTooLarge, t)
      else if opcode >= 8 && (!fin || n > 125) then Failed(InvalidControl, t)
      else ParsePayload(fin, opcode, n, t)
  {
    FormReads(form, n);
    var ext := FormBytes(form, n);
    assert (ext + t)[..|ext|] == ext && (ext + t)[|ext|..] == t;
  }

  /**
   * What readFrame says to a frame head with anything behind it: which fault is named where there are
   * several, and from where the rest is left unread.
   */
  lemma HeadJudged(fin: bool, rsv: nat, opcode: Byte, masked: bool, form: Form, n: nat, t: Bytes)
    requires rsv < 8 && opcode < 16 && FormFits(form, n)
    ensures var r := ParseFrame(HeadOf(fin, rsv, opcode, masked, FormCode(form, n)) + (FormBytes(form, n) + t));
      && (rsv != 0 ==> r == Failed(Extensions, FormBytes(form, n) + t))
      && (rsv == 0 && !masked ==> r == Failed(NotMasked, FormBytes(form, n) + t))
      && (rsv == 0 && masked ==>
            && (n > 4194304 ==> r == Failed(FrameTooLarge, t))
            && (n <= 4194304 && opcode >= 8 && (!fin || n > 125) ==> r == Failed(InvalidControl, t))
            && (n <= 4194304 && (opcode >= 8 ==> fin && n <= 125) && |t| < 4 + n ==> r == Failed(ShortRead, []))
            && (n <= 4194304 && (opcode >= 8 ==> fin && n <= 125) && |t| >= 4 + n ==> r.Parsed?))
  {
    HeadParses(fin, rsv, opcode, masked, FormCode(form, n), FormBytes(form, n) + t);
    LengthParses(fin, opcode, form, n, t);
  }

  /** The input ends inside the head of a frame that shows no fault so far. */
  predicate HeadCut(s: Bytes) {
    |s| < 2 || exists fin, opcode: Byte, code: nat ::
      opcode < 16 && code < 128 && |s| < 2 + Extension(code) && HeadOf(fin, 0, opcode, true, code) <= s
  }

  /** All input is cut inside the head, shows a fault in its first two bytes, or has a whole head. */
  lemma EveryInput(s: Bytes) returns (fin: bool, rsv: nat, opcode: Byte, masked: bool, code: nat)
    ensures rsv < 8 && opcode < 16 && code < 128
    ensures |s| >= 2 ==> s == HeadOf(fin, rsv, opcode, masked, code) + s[2..]
    ensures HeadCut(s) ==> ParseFrame(s) == Failed(ShortRead, [])
    ensures !HeadCut(s) && rsv == 0 && masked ==> |s| >= 2 + Extension(code)
  {
    fin, rsv, opcode, masked, code := false, 0, 0, false, 0;
    if |s| >= 2 {
      fin, rsv, opcode, masked, code := High(s[0]), Rsv(s[0]), Opcode(s[0]), High(s[1]), Low7(s[1]);
      assert s == [s[0], s[1]] + s[2..];
      var h := HeadOf(fin, rsv, opcode, masked, code);
      assert h[0] == s[0] && h[1] == s[1];
      assert h == s[..2];
      if HeadCut(s) {
        CutIsShort(s);
      }
    }
  }

  lemma CutIsShort(s: Bytes)
    requires HeadCut(s) && |s| >= 2
    ensures ParseFrame(s) == Failed(ShortRead, [])
  {
    var fin, opcode: Byte, code: nat :|
      opcode < 16 && code < 128 && |s| < 2 + Extension(code) && HeadOf(fin, 0, opcode, true, code) <= s;
    HeadParses(fin, 0, opcode, true, code, s[2..]);
    assert s == HeadOf(fin, 0, opcode, true, code) + s[2..];
  }

  // ---------------------------------------------------------------- writeFrame

  function MinimalForm(n: nat): Form {
    if n <= 125 then Short else if n <= 0xFFFF then Medium else Long
  }

  function HeaderBytes(opcode: Byte, n: nat): Bytes
    requires opcode < 16 && n < 0x8000_0000_0000_0000
  {
    [FirstByte(true, opcode), FormCode(MinimalForm(n), n)] + FormBytes(MinimalForm(n), n)
  }

  /** What writeFrame sends: final, unmasked, the length in the shortest form. */
  function ServerFrame(opcode: Byte, payload: Bytes): Bytes
    requires opcode < 16 && |payload| < 0x8000_0000_0000_0000
  {
    HeaderBytes(opcode, |payload|) + payload
  }

  datatype ClientResult = Delivered(frame: Frame, rest: Bytes) | Refused

  function ClientPayload(fin: bool, opcode: Byte, length: nat, s: Bytes): ClientResult {
    if |s| < length then Refused else Delivered(Frame(fin, opcode, s[..length]), s[length..])
  }

  /** No length form longer than needed. */
  predicate Minimal(width: nat, length: nat) {
    (width == 2 ==> length > 125) && (width == 8 ==> 0xFFFF < length < 0x8000_0000_0000_0000)
  }

  function ClientLength(fin: bool, opcode: Byte, short: nat, s: Bytes): ClientResult {
    var n := Extension(short);
    if |s| < n then Refused
    else
      var length := if n == 0 then short else BigEndian(s[..n]);
      if Minimal(n, length) then ClientPayload(fin, opcode, length, s[n..]) else Refused
  }

  /** A strict client: no reserved bits, no mask, and no length form longer than needed. */
  function ClientParse(s: Bytes): ClientResult {
    if |s| < 2 || Rsv(s[0]) != 0 || High(s[1]) then Refused
    else ClientLength(High(s[0]), Opcode(s[0]), Low7(s[1]), s[2..])
  }

  lemma ClientHead(b0: Byte, b1: Byte, t: Bytes)
    requires Rsv(b0) == 0 && !High(b1)
    ensures ClientParse([b0, b1] + t) == ClientLength(High(b0), Opcode(b0), Low7(b1), t)
  {
    assert ([b0, b1] + t)[2..] == t;
  }

  lemma ClientLengthReads(fin: bool, opcode: Byte, n: nat, t: Bytes)
    requires n < 0x8000_0000_0000_0000
    ensures ClientLength(fin, opcode, FormCode(MinimalForm(n), n), FormBytes(MinimalForm(n), n) + t)
         == ClientPayload(fin, opcode, n, t)
  {
    FormReads(MinimalForm(n), n);
    var ext := FormBytes(MinimalForm(n), n);
    assert (ext + t)[..|ext|] == ext && (ext + t)[|ext|..] == t;
  }

  lemma ClientPrefix(b0: Byte, b1: Byte, opcode: Byte, n: nat, t: Bytes)
    requires High(b0) && Rsv(b0) == 0 && Opcode(b0) == opcode && n < 0x8000_0000_0000_0000
    requires !High(b1) && Low7(b1) == FormCode(MinimalForm(n), n)
    ensures ClientParse([b0, b1] + (FormBytes(MinimalForm(n), n) + t)) == ClientPayload(true, opcode, n, t)
  {
    ClientHead(b0, b1, FormBytes(MinimalForm(n), n) + t);
    ClientLengthReads(true, opcode, n, t);
  }

  lemma RegroupServer(h: Bytes, e: Bytes, p: Bytes, r: Bytes)
    ensures h + e + p + r == h + (e + (p + r))
  {
  }

  /** A strict client recovers opcode and payload from what writeFrame sends, and no byte more. */
  lemma ClientReads(opcode: Byte, payload: Bytes, rest: Bytes)
    requires opcode < 16 && |payload| < 0x8000_0000_0000_0000
    ensures ClientParse(ServerFrame(opcode, payload) + rest) == Delivered(Frame(true, opcode, payload), rest)
  {
    var n, form := |payload|, MinimalForm(|payload|);
    var b0, b1 := FirstByte(true, opcode), FormCode(form, n);
    RegroupServer([b0, b1], FormBytes(form, n), payload, rest);
    FirstByteBits(true, opcode);
    LengthBits(FormCode(form, n));
    ClientPrefix(b0, b1, opcode, n, payload + rest);
    assert (payload + rest)[..n] == payload && (payload + rest)[n..] == rest;
  }

  // ---------------------------------------------------------------- the socket

  /** What has been sent, how much more the socket will take, and whether a write has failed. */
  datatype Out = Out(wire: Bytes, accepts: nat, broken: bool)

  /** A buffered write: what fits goes out, and after a failure nothing more does. */
  function Put(o: Out, p: Bytes): Out {
    if o.broken then o
    else if |p| <= o.accepts then Out(o.wire + p, o.accepts - |p|, false)
    else Out(o.wire + p[..o.accepts], 0, true)
  }

  lemma PutConcat(o: Out, a: Bytes, b: Bytes)
    ensures Put(Put(o, a), b) == Put(o, a + b)
  {
    if !o.broken {
      if |a + b| <= o.accepts {
        assert o.wire + a + b == o.wire + (a + b);
      } else if |a| <= o.accepts {
        assert (a + b)[..o.accepts] == a + b[..o.accepts - |a|];
        assert o.wire + a + b[..o.accepts - |a|] == o.wire + (a + b[..o.accepts - |a|]);
      } else {
        assert (a + b)[..o.accepts] == a[..o.accepts];
      }
    }
  }

  class Writer {
    var wire: Bytes
    var accepts: nat
    var broken: bool

    constructor (accepts: nat)
      ensures State() == Out([], accepts, false)
    {
      wire, this.accepts, broken := [], accepts, false;
    }

    function State(): Out
      reads this
    {
      Out(wire, accepts, broken)
    }

    method Write(p: Bytes) returns (ok: bool)
      modifies this
      ensures State() == Put(old(State()), p) && ok == !broken
    {
      if !broken {
        if |p| <= accepts {
          wire, accepts := wire + p, accepts - |p|;
        } else {
          wire, accepts, broken := wire + p[..accepts], 0, true;
        }
      }
      ok := !broken;
    }

    /** The socket is closed under the writer. */
    method Shut()
      modifies this`accepts
      ensures State() == old(State()).(accepts := 0)
    {
      accepts := 0;
    }

    /** writeFrame: the header is built in place, then header and payload go out. */
    method WriteFrame(opcode: Byte, payload: Bytes) returns (ok: bool)
      requires opcode < 16 && |payload| < 0x8000_0000_0000_0000
      modifies this
      ensures State() == Put(old(State()), ServerFrame(opcode, payload)) && ok == !broken
    {
      var hdr := new Byte[10](_ => 0);
      var idx := FillHeader(hdr, opcode, |payload|);
      assert hdr[..idx] + payload == ServerFrame(opcode, payload);
      PutConcat(State(), hdr[..idx], payload);
      ok := Write(hdr[..idx]);
      if ok {
        ok := Write(payload);
      }
    }
  }

  method FillHeader(hdr: array<Byte>, opcode: Byte, n: nat) returns (idx: nat)
    requires hdr.Length == 10 && opcode < 16 && n < 0x8000_0000_0000_0000
    modifies hdr
    ensures idx <= 10 && hdr[..idx] == HeaderBytes(opcode, n)
  {
    hdr[0] := 0x80 + opcode;
    idx := FillLength(hdr, n);
    assert hdr[..idx] == [hdr[0], hdr[1]] + hdr[2..idx];
  }

  method FillLength(hdr: array<Byte>, n: nat) returns (idx: nat)
    requires hdr.Length == 10 && n < 0x8000_0000_0000_0000
    modifies hdr
    ensures 2 <= idx <= 10 && hdr[0] == old(hdr[0])
    ensures hdr[1] == FormCode(MinimalForm(n), n) && hdr[2..idx] == FormBytes(MinimalForm(n), n)
  {
    if n <= 125 {
      hdr[1] := n;
      idx := 2;
    } else if n <= 0xFFFF {
      hdr[1] := 126;
      PutBigEndian(hdr, 2, 2, n);
      idx := 4;
      assert hdr[2..2 + 2] == hdr[2..idx];
    } else {
      hdr[1] := 127;
      PutBigEndian(hdr, 2, 8, n);
      idx := 10;
      assert hdr[2..2 + 8] == hdr[2..idx];
    }
  }

  /** binary.BigEndian.PutUint16 and PutUint64. */
  method PutBigEndian(a: array<Byte>, at: nat, width: nat, n: nat)
    requires at + width <= a.Length
    modifies a
    ensures a[at..at + width] == BigEndianBytes(n, width)
    ensures forall i :: 0 <= i < a.Length && (i < at || i >= at + width) ==> a[i] == old(a[i])
    decreases width
  {
    if width > 0 {
      a[at + width - 1] := n % 256;
      PutBigEndian(a, at, width - 1, n / 256);
      assert a[at..at + width] == a[at..at + width - 1] + [a[at + width - 1]];
    }
  }

  class Reader {
    var input: Bytes

    constructor (input: Bytes)
      ensures this.input == input
    {
      this.input := input;
    }

    /** io.ReadFull: the whole buffer, or nothing is left. */
    method ReadFull(buf: array<Byte>) returns (ok: bool)
      modifies this, buf
      ensures ok == (buf.Length <= |old(input)|)
      ensures ok ==> buf[..] == old(input)[..buf.Length] && input == old(input)[buf.Length..]
      ensures !ok ==> input == []
    {
      ok := buf.Length <= |input|;
      if ok {
        var taken := input[..buf.Length];
        forall i | 0 <= i < buf.Length {
          buf[i] := taken[i];
        }
        input := input[buf.Length..];
      } else {
        input := [];
      }
    }

    method ReadFrame() returns (r: ParseResult)
      modifies this
      ensures r == ParseFrame(old(input)) && input == r.rest
    {
      var b := new Byte[2];
      var ok := ReadFull(b);
      if !ok {
        return Failed(ShortRead, input);
      }
      assert b[0] == b[..][0] && b[1] == b[..][1];
      var fin, rsv, opcode := High(b[0]), Rsv(b[0]), Opcode(b[0]);
      if rsv != 0 {
        return Failed(Extensions, input);
      }
      if !High(b[1]) {
        return Failed(NotMasked, input);
      }
      r := ReadBody(fin, opcode, Low7(b[1]));
    }

    method ReadBody(fin: bool, opcode: Byte, short: nat) returns (r: ParseResult)
      modifies this
      ensures r == ParseLength(fin, opcode, short, old(input)) && input == r.rest
    {
      var length := short;
      if length == 126 || length == 127 {
        var ext := new Byte[if length == 126 then 2 else 8];
        var ok := ReadFull(ext);
        if !ok {
          return Failed(ShortRead, input);
        }
        length := BigEndian(ext[..]);
      }
      if length > MAX_PAYLOAD {
        return Failed(FrameTooLarge, input);
      }
      if opcode >= 8 && (!fin || length > 125) {
        return Failed(InvalidControl, input);
      }
      r := ReadPayload(fin, opcode, length);
    }

    method ReadPayload(fin: bool, opcode: Byte, length: nat) returns (r: ParseResult)
      modifies this
      ensures r == ParsePayload(fin, opcode, length, old(input)) && input == r.rest
    {
      var mask := new Byte[4];
      var ok := ReadFull(mask);
      if !ok {
        return Failed(ShortRead, input);
      }
      var payload := new Byte[length];
      ok := ReadFull(payload);
      if !ok {
        return Failed(ShortRead, input);
      }
      assert payload[..] == old(input)[4..4 + length];
      Unmask(payload, mask);
      r := Parsed(Frame(fin, opcode, payload[..]), input);
    }
  }

  /** The payload is unmasked in place. */
  method Unmask(payload: array<Byte>, mask: array<Byte>)
    requires mask.Length == 4 && mask != payload
    modifies payload
    ensures payload[..] == XorMask(old(payload[..]), mask[..])
  {
    var i := 0;
    while i < payload.Length
      invariant 0 <= i <= payload.Length
      invariant forall j :: 0 <= j < i ==> payload[j] == XorByte(old(payload[j]), mask[j % 4])
      invariant forall j :: i <= j < payload.Length ==> payload[j] == old(payload[j])
    {
      payload[i] := XorByte(payload[i], mask[i % 4]);
      i := i + 1;
    }
  }
}
