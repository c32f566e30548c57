/**
 The multimeter frame decoder of `at-btmeter.py`.

 The meter sends blocks of bytes. The high nibble of every byte is its
 one-based position in the block; the low nibble carries data. Byte 0 holds
 the mode, bytes 1..8 hold four seven-segment digits (a pair of nibbles per
 digit, with a decimal-point flag in the first nibble of each pair), and the
 bytes from 9 on hold flag nibbles. `DecodeBuffer` turns a block into the
 line the script prints; `"*"` marks a rejected block.
 */
module MeterDecode {
  import opened Basics

  newtype Byte = x: int | 0 <= x < 256

  /** The position tag: the high nibble of a byte. */
  function Tag(b: Byte): int {
    b as int / 16
  }

  /** The payload: the low nibble of a byte. */
  function Low(b: Byte): int {
    b as int % 16
  }

  /** Every byte carries its one-based position in its high nibble. */
  predicate PositionsValid(buffer: seq<Byte>) {
    forall i :: 0 <= i < |buffer| ==> Tag(buffer[i]) - 1 == i
  }

  /** The segment code the meter sends for each decimal digit, indexed by digit value. */
  const SegmentCodes: seq<int> := [0x7d, 0x05, 0x5b, 0x1f, 0x27, 0x3e, 0x7e, 0x15, 0x7f, 0x3f]

  /** The segment code of a decimal digit: the encoding side of the digit table. */
  function SegmentCode(d: char): int
    requires IsDigit(d)
  {
    SegmentCodes[DigitValue(d)]
  }

  /**
   The digit table of the script: one of the ten segment codes gives its digit,
   every other value gives `'#'`.
   */
  function DecodeDigit(code: int): (c: char)
    ensures c == '#' || IsDigit(c)
    ensures c != '#' ==> SegmentCode(c) == code
  {
    if code == 0x7d then '0'
    else if code == 0x05 then '1'
    else if code == 0x5b then '2'
    else if code == 0x1f then '3'
    else if code == 0x27 then '4'
    else if code == 0x3e then '5'
    else if code == 0x7e then '6'
    else if code == 0x15 then '7'
    else if code == 0x7f then '8'
    else if code == 0x3f then '9'
    else '#'
  }

  /** Each digit's segment code decodes back to that digit. */
  lemma DecodeSegmentCode(d: char)
    requires IsDigit(d)
    ensures DecodeDigit(SegmentCode(d)) == d
  {
  }

  /**
   A code decodes to a digit exactly when it is one of the ten segment codes,
   and different codes never decode to the same digit.
   */
  lemma DecodeDigitExact(code: int, other: int)
    ensures DecodeDigit(code) != '#' <==> code in SegmentCodes
    ensures DecodeDigit(code) != '#' && DecodeDigit(code) == DecodeDigit(other) ==> code == other
  {
    if code in SegmentCodes {
      var k :| 0 <= k < |SegmentCodes| && SegmentCodes[k] == code;
      DecodeSegmentCode('0' + k as char);
    }
  }

  /** The decimal-point flag of a nibble: its bit 0x08. */
  predicate HasDot(nibble: int)
    requires 0 <= nibble < 16
  {
    nibble >= 8
  }

  /** A nibble with its decimal-point bit cleared: the three low bits. */
  function ClearDot(nibble: int): int
    requires 0 <= nibble < 16
  {
    nibble % 8
  }

  /**
   The script tests the point with `nibble & 0x08` and clears it with
   `nibble & ~0x08`; on a nibble these are the two functions above.
   */
  lemma DotMask(nibble: int)
    requires 0 <= nibble < 16
    ensures HasDot(nibble) <==> (nibble as bv8) & 0x08 != 0
    ensures ClearDot(nibble) == ((nibble as bv8) & !0x08) as int
  {
    var b := nibble as bv8;
    assert b < 16;
  }

  /** Clearing the point bit leaves the three segment bits, and loses nothing else. */
  lemma ClearDotBounds(nibble: int)
    requires 0 <= nibble < 16
    ensures 0 <= ClearDot(nibble) < 8
    ensures nibble == ClearDot(nibble) + (if HasDot(nibble) then 8 else 0)
  {
  }

  /** The segment code carried by the pair of bytes `first`, `second` of one digit. */
  function DigitCode(first: Byte, second: Byte): (code: int)
    ensures 0 <= code < 128
  {
    ClearDotBounds(Low(first));
    ClearDot(Low(first)) * 16 + Low(second)
  }

  predicate IsPointPosition(i: int) {
    i == 1 || i == 3 || i == 5 || i == 7
  }

  predicate IsDigitPosition(i: int) {
    i == 2 || i == 4 || i == 6 || i == 8
  }

  function ModeLabel(mode: int): string {
    if mode == 7 then "Volts " else "? "
  }

  /**
   The script's decoder: reject the buffer when any byte is out of place,
   otherwise scan it byte by byte.
   */
  function DecodeBuffer(buffer: seq<Byte>): (image: string)
    ensures image == "*" <==> !PositionsValid(buffer)
    ensures |buffer| == 0 ==> image == ""
    ensures PositionsValid(buffer) && |buffer| > 0 ==>
      |image| >= |ModeLabel(Low(buffer[0]))| && image[..|ModeLabel(Low(buffer[0]))|] == ModeLabel(Low(buffer[0]))
  {
    if !PositionsValid(buffer) then "*" else Scan(buffer, 0, 0)
  }

  /**
   The byte loop of the decoder from position `i` on. `digit` is the script's
   `Digit` variable: set from the first nibble of a digit pair and completed by
   the second. Its initial value is never read on a positionally valid buffer.
   */
  function Scan(buffer: seq<Byte>, i: nat, digit: int): string
    requires i <= |buffer|
    decreases |buffer| - i
  {
    if i == |buffer| then ""
    else
      var nibble := Low(buffer[i]);
      if i == 0 then
        ModeLabel(nibble) + Scan(buffer, i + 1, digit)
      else if IsPointPosition(i) then
        (if HasDot(nibble) then "." else "") + Scan(buffer, i + 1, ClearDot(nibble) * 16)
      else if IsDigitPosition(i) then
        [DecodeDigit(digit + nibble)] + Scan(buffer, i + 1, digit + nibble)
      else
        (if i == 9 then " " else "") + [HexDigit(nibble)] + Scan(buffer, i + 1, digit)
  }

  /**
   What byte `i` contributes to the display line, stated without the carried
   `Digit` state: a digit is decoded from its own byte and the one before.
   */
  function Piece(buffer: seq<Byte>, i: nat): string
    requires i < |buffer|
  {
    var nibble := Low(buffer[i]);
    if i == 0 then ModeLabel(nibble)
    else if IsPointPosition(i) then (if HasDot(nibble) then "." else "")
    else if IsDigitPosition(i) then [DecodeDigit(DigitCode(buffer[i - 1], buffer[i]))]
    else (if i == 9 then " " else "") + [HexDigit(nibble)]
  }

  /** The display line as the concatenation of the pieces of bytes `i` onwards. */
  function Render(buffer: seq<Byte>, i: nat): string
    requires i <= |buffer|
    decreases |buffer| - i
  {
    if i == |buffer| then "" else Piece(buffer, i) + Render(buffer, i + 1)
  }

  /** The `Digit` value the scan carries past byte `i`. */
  function NextDigit(buffer: seq<Byte>, i: nat, digit: int): int
    requires i < |buffer|
  {
    if i == 0 then digit
    else if IsPointPosition(i) then ClearDot(Low(buffer[i])) * 16
    else if IsDigitPosition(i) then digit + Low(buffer[i])
    else digit
  }

  /** One turn of the scan emits the piece of byte `i`, when `Digit` holds the previous byte's segment bits. */
  lemma ScanStep(buffer: seq<Byte>, i: nat, digit: int)
    requires i < |buffer|
    requires IsDigitPosition(i) ==> digit == ClearDot(Low(buffer[i - 1])) * 16
    ensures Scan(buffer, i, digit) == Piece(buffer, i) + Scan(buffer, i + 1, NextDigit(buffer, i, digit))
  {
    if IsDigitPosition(i) {
      assert digit + Low(buffer[i]) == DigitCode(buffer[i - 1], buffer[i]);
    }
  }

  /**
   The scan with its carried `Digit` produces the stateless rendering, for any
   buffer: the state is always in step with the previous byte when it is read.
   */
  lemma {:induction false} ScanIsRender(buffer: seq<Byte>, i: nat, digit: int)
    requires i <= |buffer|
    requires IsDigitPosition(i) && i < |buffer| ==> digit == ClearDot(Low(buffer[i - 1])) * 16
    ensures Scan(buffer, i, digit) == Render(buffer, i)
    decreases |buffer| - i
  {
    if i < |buffer| {
      ScanStep(buffer, i, digit);
      ScanIsRender(buffer, i + 1, NextDigit(buffer, i, digit));
    }
  }

  /** A positionally valid buffer decodes to its stateless rendering. */
  lemma DecodeIsRender(buffer: seq<Byte>)
    requires PositionsValid(buffer)
    ensures DecodeBuffer(buffer) == Render(buffer, 0)
  {
    ScanIsRender(buffer, 0, 0);
  }

  /** A byte's position tag is at most 15, so no valid buffer is longer than 15 bytes. */
  lemma LongBufferRejected(buffer: seq<Byte>)
    requires |buffer| >= 16
    ensures !PositionsValid(buffer)
    ensures DecodeBuffer(buffer) == "*"
  {
    assert Tag(buffer[15]) - 1 != 15;
  }

  /** One digit of the frame: the point flag shown before it and its segment code. */
  datatype Group = Group(point: bool, code: int)

  /** The content of one fourteen-byte frame, as the decoder reads it. */
  datatype Fields = Fields(mode: int, groups: seq<Group>, flags: seq<int>)

  predicate ValidFields(f: Fields) {
    && 0 <= f.mode < 16
    && |f.groups| == 4
    && (forall k :: 0 <= k < 4 ==> 0 <= f.groups[k].code < 128)
    && |f.flags| == 5
    && (forall k :: 0 <= k < 5 ==> 0 <= f.flags[k] < 16)
  }

  /** The byte that carries `low` at zero-based position `i`. */
  function MakeByte(i: int, low: int): (b: Byte)
    requires 0 <= i < 15 && 0 <= low < 16
    ensures Tag(b) == i + 1 && Low(b) == low
  {
    ((i + 1) * 16 + low) as Byte
  }

  lemma ByteParts(b: Byte)
    requires 1 <= Tag(b)
    ensures b == MakeByte(Tag(b) - 1, Low(b))
  {
  }

  /** The low nibble the meter puts at position `i` of the frame for content `f`. */
  function NibbleAt(f: Fields, i: int): (n: int)
    requires ValidFields(f) && 0 <= i < 14
    ensures 0 <= n < 16
  {
    if i == 0 then f.mode
    else if i < 9 then
      var g := f.groups[(i - 1) / 2];
      if i % 2 == 1 then (if g.point then 8 else 0) + g.code / 16 else g.code % 16
    else f.flags[i - 9]
  }

  /** The frame the meter sends for the given content. */
  function Encode(f: Fields): (buffer: seq<Byte>)
    requires ValidFields(f)
    ensures |buffer| == 14
    ensures PositionsValid(buffer)
  {
    seq(14, i requires 0 <= i < 14 => MakeByte(i, NibbleAt(f, i)))
  }

  /** The content a fourteen-byte buffer carries, read field by field. */
  function FieldsOf(buffer: seq<Byte>): (f: Fields)
    requires |buffer| == 14
    ensures ValidFields(f)
  {
    Fields(
      Low(buffer[0]),
      seq(4, k requires 0 <= k < 4 =>
        Group(HasDot(Low(buffer[2 * k + 1])), DigitCode(buffer[2 * k + 1], buffer[2 * k + 2]))),
      seq(5, k requires 0 <= k < 5 => Low(buffer[9 + k])))
  }

  /** The two bytes of a digit give back the point flag and the segment code they were made from. */
  lemma PairRoundTrip(point: bool, code: int, first: Byte, second: Byte)
    requires 0 <= code < 128
    requires Low(first) == (if point then 8 else 0) + code / 16
    requires Low(second) == code % 16
    ensures HasDot(Low(first)) == point
    ensures DigitCode(first, second) == code
  {
    ClearDotBounds(Low(first));
  }

  /** Reading the content back from an encoded frame gives the content again. */
  lemma FieldsOfEncode(f: Fields)
    requires ValidFields(f)
    ensures FieldsOf(Encode(f)) == f
  {
    var b := Encode(f);
    var g := FieldsOf(b);
    forall k | 0 <= k < 4
      ensures g.groups[k] == f.groups[k]
    {
      EncodedGroup(f, k);
    }
    forall k | 0 <= k < 5
      ensures g.flags[k] == f.flags[k]
    {
      assert Low(b[9 + k]) == NibbleAt(f, 9 + k);
    }
    assert g.groups == f.groups;
    assert g.flags == f.flags;
  }

  /** Digit `k` read back from an encoded frame. */
  lemma EncodedGroup(f: Fields, k: int)
    requires ValidFields(f) && 0 <= k < 4
    ensures FieldsOf(Encode(f)).groups[k] == f.groups[k]
  {
    EncodeCarries(f);
    CarriedGroup(Encode(f), f, k);
  }

  /** The encoder puts every nibble of the content in its place. */
  lemma EncodeCarries(f: Fields)
    requires ValidFields(f)
    ensures Carries(Encode(f), f)
  {
  }

  /** The two bytes of digit `k` of a carried frame give back its point flag and segment code. */
  lemma CarriedGroup(b: seq<Byte>, f: Fields, k: int)
    requires Carries(b, f) && 0 <= k < 4
    ensures HasDot(Low(b[2 * k + 1])) == f.groups[k].point
    ensures DigitCode(b[2 * k + 1], b[2 * k + 2]) == f.groups[k].code
  {
    GroupNibbles(f, k);
    assert Low(b[2 * k + 1]) == NibbleAt(f, 2 * k + 1);
    assert Low(b[2 * k + 2]) == NibbleAt(f, 2 * k + 2);
    PairRoundTrip(f.groups[k].point, f.groups[k].code, b[2 * k + 1], b[2 * k + 2]);
  }

  /** The point flag and the segment code of a digit determine both of its nibbles. */
  lemma PairSplit(first: Byte, second: Byte)
    ensures (if HasDot(Low(first)) then 8 else 0) + DigitCode(first, second) / 16 == Low(first)
    ensures DigitCode(first, second) % 16 == Low(second)
  {
    ClearDotBounds(Low(first));
  }

  lemma FieldsOfNibble(buffer: seq<Byte>, i: int)
    requires |buffer| == 14 && 0 <= i < 14
    ensures NibbleAt(FieldsOf(buffer), i) == Low(buffer[i])
  {
    var f := FieldsOf(buffer);
    if 1 <= i < 9 {
      var k := (i - 1) / 2;
      assert f.groups[k] == Group(HasDot(Low(buffer[2 * k + 1])), DigitCode(buffer[2 * k + 1], buffer[2 * k + 2]));
      GroupNibbles(f, k);
      PairSplit(buffer[2 * k + 1], buffer[2 * k + 2]);
    }
  }

  /** Every positionally valid fourteen-byte buffer is the encoding of its content. */
  lemma EncodeFieldsOf(buffer: seq<Byte>)
    requires |buffer| == 14 && PositionsValid(buffer)
    ensures Encode(FieldsOf(buffer)) == buffer
  {
    var e := Encode(FieldsOf(buffer));
    forall i | 0 <= i < 14
      ensures e[i] == buffer[i]
    {
      FieldsOfNibble(buffer, i);
      ByteParts(buffer[i]);
    }
  }

  function GroupText(g: Group): string {
    (if g.point then "." else "") + [DecodeDigit(g.code)]
  }

  /** The hexadecimal text of the flag nibbles. */
  function FlagText(flags: seq<int>): (s: string)
    requires forall k :: 0 <= k < |flags| ==> 0 <= flags[k] < 16
    ensures |s| == |flags|
  {
    if |flags| == 0 then "" else [HexDigit(flags[0])] + FlagText(flags[1..])
  }

  /**
   The line a frame is displayed as: the mode label, the four digits each
   preceded by its decimal point when flagged, a space, and the five flag
   nibbles in hexadecimal.
   */
  function Display(f: Fields): string
    requires ValidFields(f)
  {
    ModeLabel(f.mode) + DigitsText(f.groups) + " " + FlagText(f.flags)
  }

  /** The digits of a frame, each preceded by its decimal point when flagged. */
  function DigitsText(groups: seq<Group>): string {
    if |groups| == 0 then "" else GroupText(groups[0]) + DigitsText(groups[1..])
  }

  /** `buffer` carries the nibbles of the content `f` in their places. */
  predicate Carries(buffer: seq<Byte>, f: Fields) {
    && ValidFields(f)
    && |buffer| == 14
    && forall i {:trigger NibbleAt(f, i)} :: 0 <= i < 14 ==> Low(buffer[i]) == NibbleAt(f, i)
  }

  /** A flag byte after the first renders as its hexadecimal digit. */
  lemma FlagPiece(buffer: seq<Byte>, i: nat)
    requires 10 <= i < |buffer|
    ensures Render(buffer, i) == [HexDigit(Low(buffer[i]))] + Render(buffer, i + 1)
  {
    assert Piece(buffer, i) == [HexDigit(Low(buffer[i]))];
  }

  lemma {:induction false} RenderFlags(buffer: seq<Byte>, f: Fields, i: nat)
    requires Carries(buffer, f) && 10 <= i <= 14
    ensures Render(buffer, i) == FlagText(f.flags[i - 9..])
    decreases 14 - i
  {
    if i < 14 {
      RenderFlags(buffer, f, i + 1);
      FlagStep(buffer, f, i);
      FlagTextCons(f.flags, i - 9);
    }
  }

  /** Flag byte `i` of a carried frame renders as the hexadecimal digit of its flag. */
  lemma FlagStep(buffer: seq<Byte>, f: Fields, i: nat)
    requires Carries(buffer, f) && 10 <= i < 14
    ensures Render(buffer, i) == [HexDigit(f.flags[i - 9])] + Render(buffer, i + 1)
  {
    assert Low(buffer[i]) == NibbleAt(f, i) == f.flags[i - 9];
    FlagPiece(buffer, i);
  }

  lemma FlagTextCons(flags: seq<int>, j: nat)
    requires j < |flags| && forall k :: 0 <= k < |flags| ==> 0 <= flags[k] < 16
    ensures FlagText(flags[j..]) == [HexDigit(flags[j])] + FlagText(flags[j + 1..])
  {
    assert flags[j..][1..] == flags[j + 1..];
  }

  /** The two bytes of digit `k` render as the digit's text. */
  lemma RenderPair(b: seq<Byte>, k: int, g: Group)
    requires 0 <= k < 4 && 2 * k + 3 <= |b|
    requires HasDot(Low(b[2 * k + 1])) == g.point && DigitCode(b[2 * k + 1], b[2 * k + 2]) == g.code
    ensures Render(b, 2 * k + 1) == GroupText(g) + Render(b, 2 * k + 3)
  {
    PairPieces(b, 2 * k + 1);
    var dot, digit, rest := (if g.point then "." else ""), [DecodeDigit(g.code)], Render(b, 2 * k + 3);
    assert dot + (digit + rest) == (dot + digit) + rest;
  }

  /** The two bytes of a digit pair render as the optional point followed by the decoded digit. */
  lemma PairPieces(b: seq<Byte>, i: nat)
    requires IsPointPosition(i) && i + 2 <= |b|
    ensures Render(b, i) == (if HasDot(Low(b[i])) then "." else "")
                          + ([DecodeDigit(DigitCode(b[i], b[i + 1]))] + Render(b, i + 2))
  {
    assert Piece(b, i + 1) == [DecodeDigit(DigitCode(b[i], b[i + 1]))];
  }

  /** The nibbles the encoder writes for digit `k`. */
  lemma GroupNibbles(f: Fields, k: int)
    requires ValidFields(f) && 0 <= k < 4
    ensures NibbleAt(f, 2 * k + 1) == (if f.groups[k].point then 8 else 0) + f.groups[k].code / 16
    ensures NibbleAt(f, 2 * k + 2) == f.groups[k].code % 16
  {
    assert (2 * k + 1 - 1) / 2 == k && (2 * k + 2 - 1) / 2 == k by {
      assert k == 0 || k == 1 || k == 2 || k == 3;
    }
  }

  /** Digit `k` of a carried frame renders as its text. */
  lemma RenderGroupStep(buffer: seq<Byte>, f: Fields, k: int)
    requires Carries(buffer, f) && 0 <= k < 4
    ensures Render(buffer, 2 * k + 1) == GroupText(f.groups[k]) + Render(buffer, 2 * k + 3)
  {
    CarriedGroup(buffer, f, k);
    RenderPair(buffer, k, f.groups[k]);
  }

  /** The four digit pairs of a carried frame render as its digits. */
  lemma RenderDigits(buffer: seq<Byte>, f: Fields)
    requires Carries(buffer, f)
    ensures Render(buffer, 1) == DigitsText(f.groups) + Render(buffer, 9)
  {
    RenderGroupStep(buffer, f, 0);
    RenderGroupStep(buffer, f, 1);
    RenderGroupStep(buffer, f, 2);
    RenderGroupStep(buffer, f, 3);
    DigitsFour(f.groups);
    var g := f.groups;
    Regroup(GroupText(g[0]), GroupText(g[1]), GroupText(g[2]), GroupText(g[3]), Render(buffer, 9));
  }

  lemma Regroup(a: string, b: string, c: string, d: string, e: string)
    ensures a + (b + (c + (d + e))) == (a + (b + (c + d))) + e
  {
    assert c + (d + e) == (c + d) + e;
    assert b + ((c + d) + e) == (b + (c + d)) + e;
  }

  /** A positionally valid buffer that carries the nibbles of `f` decodes to the display of `f`. */
  lemma DecodeCarried(b: seq<Byte>, f: Fields)
    requires Carries(b, f) && PositionsValid(b)
    ensures DecodeBuffer(b) == Display(f)
  {
    DecodeIsRender(b);
    RenderDisplay(b, f);
  }

  /** A carried frame renders as the display of its content. */
  lemma RenderDisplay(b: seq<Byte>, f: Fields)
    requires Carries(b, f)
    ensures Render(b, 0) == Display(f)
  {
    RenderFlagBytes(b, f);
    RenderDigits(b, f);
    ModeStep(b, f);
    Regroup3(ModeLabel(f.mode), DigitsText(f.groups), " ", FlagText(f.flags));
  }

  /** The mode byte of a carried frame renders as the label of its mode. */
  lemma ModeStep(b: seq<Byte>, f: Fields)
    requires Carries(b, f)
    ensures Render(b, 0) == ModeLabel(f.mode) + Render(b, 1)
  {
    assert Low(b[0]) == NibbleAt(f, 0) == f.mode;
    ModePiece(b);
  }

  lemma Regroup3(a: string, b: string, c: string, d: string)
    ensures a + (b + (c + d)) == a + b + c + d
  {
    assert b + (c + d) == (b + c) + d;
  }

  /** The five flag bytes of a carried frame render as a space and the flags in hexadecimal. */
  lemma RenderFlagBytes(b: seq<Byte>, f: Fields)
    requires Carries(b, f)
    ensures Render(b, 9) == " " + FlagText(f.flags)
  {
    RenderFlags(b, f, 10);
    FlagsPiece(b);
    assert Low(b[9]) == NibbleAt(f, 9) == f.flags[0];
    FlagTextCons(f.flags, 0);
    assert f.flags[0..] == f.flags;
    var x, rest := [HexDigit(f.flags[0])], FlagText(f.flags[1..]);
    assert " " + x + rest == " " + (x + rest);
  }

  /** The mode byte renders as its label. */
  lemma ModePiece(b: seq<Byte>)
    requires 1 <= |b|
    ensures Render(b, 0) == ModeLabel(Low(b[0])) + Render(b, 1)
  {
    assert Piece(b, 0) == ModeLabel(Low(b[0]));
  }

  /** The first flag byte renders as a space and its hexadecimal digit. */
  lemma FlagsPiece(b: seq<Byte>)
    requires 10 <= |b|
    ensures Render(b, 9) == " " + [HexDigit(Low(b[9]))] + Render(b, 10)
  {
    assert Piece(b, 9) == " " + [HexDigit(Low(b[9]))];
  }

  /** Decoding an encoded frame displays its content. */
  lemma DecodeEncoded(f: Fields)
    requires ValidFields(f)
    ensures DecodeBuffer(Encode(f)) == Display(f)
  {
    DecodeCarried(Encode(f), f);
  }

  /** Decoding a positionally valid fourteen-byte buffer displays its content. */
  lemma DecodeFrame(buffer: seq<Byte>)
    requires |buffer| == 14 && PositionsValid(buffer)
    ensures DecodeBuffer(buffer) == Display(FieldsOf(buffer))
  {
    EncodeFieldsOf(buffer);
    DecodeEncoded(FieldsOf(buffer));
  }

  /** A buffer that carries `f` decodes to any text known to be the display of `f`. */
  lemma DecodeShows(b: seq<Byte>, f: Fields, text: string)
    requires Carries(b, f) && PositionsValid(b) && Display(f) == text
    ensures DecodeBuffer(b) == text
  {
    DecodeCarried(b, f);
  }

  /** Every position of a frame is one of the fourteen literal positions. */
  lemma FramePosition(i: int)
    requires 0 <= i < 14
    ensures i == 0 || i == 1 || i == 2 || i == 3 || i == 4 || i == 5 || i == 6
         || i == 7 || i == 8 || i == 9 || i == 10 || i == 11 || i == 12 || i == 13
  {
  }

  /** The display of `f` in three parts: the mode label, the digits, and the flags. */
  lemma RowText(f: Fields, digits: string, flags: string)
    requires ValidFields(f) && DigitsText(f.groups) == digits && FlagText(f.flags) == flags
    ensures Display(f) == ModeLabel(f.mode) + digits + " " + flags
  {
  }

  /** The digits of four groups, one after the other. */
  lemma DigitsFour(groups: seq<Group>)
    requires |groups| == 4
    ensures DigitsText(groups) == GroupText(groups[0]) + (GroupText(groups[1]) + (GroupText(groups[2]) + GroupText(groups[3])))
  {
    var t0, t1, t2, t3 := GroupText(groups[0]), GroupText(groups[1]), GroupText(groups[2]), GroupText(groups[3]);
    assert groups[3..][1..] == [];
    assert DigitsText(groups[3..]) == t3;
    assert groups[2..][1..] == groups[3..];
    assert DigitsText(groups[2..]) == t2 + t3;
    assert groups[1..][1..] == groups[2..];
    assert DigitsText(groups[1..]) == t1 + (t2 + t3);
  }

  /** The hexadecimal text of five flag nibbles, one after the other. */
  lemma FlagsFive(flags: seq<int>)
    requires |flags| == 5 && forall k :: 0 <= k < 5 ==> 0 <= flags[k] < 16
    ensures FlagText(flags) == [HexDigit(flags[0]), HexDigit(flags[1]), HexDigit(flags[2]), HexDigit(flags[3]), HexDigit(flags[4])]
  {
    assert flags[4..][1..] == [];
    assert FlagText(flags[4..]) == [HexDigit(flags[4])];
    assert flags[3..][1..] == flags[4..];
    assert FlagText(flags[3..]) == [HexDigit(flags[3]), HexDigit(flags[4])];
    assert flags[2..][1..] == flags[3..];
    assert FlagText(flags[2..]) == [HexDigit(flags[2]), HexDigit(flags[3]), HexDigit(flags[4])];
    assert flags[1..][1..] == flags[2..];
    assert FlagText(flags[1..]) == [HexDigit(flags[1]), HexDigit(flags[2]), HexDigit(flags[3]), HexDigit(flags[4])];
  }

  /*
   The rows of the table of observed frames in the script's comments
   (at-btmeter.py:183-195), each as its content, the line that content is
   displayed as, and the fourteen bytes the meter sends for it. The script
   prints `? ` for the mode of the row the table labels `Ohms`.
   */

  const RowVolts548 := Fields(7, [Group(false, 0x7d), Group(false, 0x3e), Group(true, 0x27), Group(false, 0x7f)], [0, 0, 0, 4, 1])

  lemma ObservedTextVolts548()
    ensures ValidFields(RowVolts548)
    ensures Display(RowVolts548) == "Volts " + "05.48" + " " + "00041"
  {
    DigitsFour(RowVolts548.groups);
    FlagsFive(RowVolts548.flags);
    assert DigitsText(RowVolts548.groups) == "05.48";
    assert FlagText(RowVolts548.flags) == "00041";
    RowText(RowVolts548, "05.48", "00041");
  }

  lemma ObservedFrameVolts548()
    ensures DecodeBuffer([0x17, 0x27, 0x3d, 0x43, 0x5e, 0x6a, 0x77, 0x87, 0x9f, 0xa0, 0xb0, 0xc0, 0xd4, 0xe1])
         == "Volts " + "05.48" + " " + "00041"
  {
    var b: seq<Byte> := [0x17, 0x27, 0x3d, 0x43, 0x5e, 0x6a, 0x77, 0x87, 0x9f, 0xa0, 0xb0, 0xc0, 0xd4, 0xe1];
    forall i | 0 <= i < 14 ensures Tag(b[i]) == i + 1 && Low(b[i]) == NibbleAt(RowVolts548, i) { FramePosition(i); }
    ObservedTextVolts548();
    DecodeShows(b, RowVolts548, "Volts " + "05.48" + " " + "00041");
  }

  const RowVolts0000 := Fields(7, [Group(false, 0x7d), Group(false, 0x7d), Group(false, 0x7d), Group(true, 0x7d)], [0, 8, 0, 4, 1])

  lemma ObservedTextVolts0000()
    ensures ValidFields(RowVolts0000)
    ensures Display(RowVolts0000) == "Volts " + "000.0" + " " + "08041"
  {
    DigitsFour(RowVolts0000.groups);
    FlagsFive(RowVolts0000.flags);
    assert DigitsText(RowVolts0000.groups) == "000.0";
    assert FlagText(RowVolts0000.flags) == "08041";
    RowText(RowVolts0000, "000.0", "08041");
  }

  lemma ObservedFrameVolts0000()
    ensures DecodeBuffer([0x17, 0x27, 0x3d, 0x47, 0x5d, 0x67, 0x7d, 0x8f, 0x9d, 0xa0, 0xb8, 0xc0, 0xd4, 0xe1])
         == "Volts " + "000.0" + " " + "08041"
  {
    var b: seq<Byte> := [0x17, 0x27, 0x3d, 0x47, 0x5d, 0x67, 0x7d, 0x8f, 0x9d, 0xa0, 0xb8, 0xc0, 0xd4, 0xe1];
    forall i | 0 <= i < 14 ensures Tag(b[i]) == i + 1 && Low(b[i]) == NibbleAt(RowVolts0000, i) { FramePosition(i); }
    ObservedTextVolts0000();
    DecodeShows(b, RowVolts0000, "Volts " + "000.0" + " " + "08041");
  }

  const RowOhms0000 := Fields(3, [Group(false, 0x7d), Group(false, 0x7d), Group(false, 0x7d), Group(true, 0x7d)], [0, 0, 4, 0, 1])

  lemma ObservedTextOhms0000()
    ensures ValidFields(RowOhms0000)
    ensures Display(RowOhms0000) == "? " + "000.0" + " " + "00401"
  {
    DigitsFour(RowOhms0000.groups);
    FlagsFive(RowOhms0000.flags);
    assert DigitsText(RowOhms0000.groups) == "000.0";
    assert FlagText(RowOhms0000.flags) == "00401";
    RowText(RowOhms0000, "000.0", "00401");
  }

  lemma ObservedFrameOhms0000()
    ensures DecodeBuffer([0x13, 0x27, 0x3d, 0x47, 0x5d, 0x67, 0x7d, 0x8f, 0x9d, 0xa0, 0xb0, 0xc4, 0xd0, 0xe1])
         == "? " + "000.0" + " " + "00401"
  {
    var b: seq<Byte> := [0x13, 0x27, 0x3d, 0x47, 0x5d, 0x67, 0x7d, 0x8f, 0x9d, 0xa0, 0xb0, 0xc4, 0xd0, 0xe1];
    forall i | 0 <= i < 14 ensures Tag(b[i]) == i + 1 && Low(b[i]) == NibbleAt(RowOhms0000, i) { FramePosition(i); }
    ObservedTextOhms0000();
    DecodeShows(b, RowOhms0000, "? " + "000.0" + " " + "00401");
  }

  const RowVolts389 := Fields(7, [Group(false, 0x7d), Group(false, 0x1f), Group(true, 0x7f), Group(false, 0x3f)], [0, 0, 0, 4, 1])

  lemma ObservedTextVolts389()
    ensures ValidFields(RowVolts389)
    ensures Display(RowVolts389) == "Volts " + "03.89" + " " + "00041"
  {
    DigitsFour(RowVolts389.groups);
    FlagsFive(RowVolts389.flags);
    assert DigitsText(RowVolts389.groups) == "03.89";
    assert FlagText(RowVolts389.flags) == "00041";
    RowText(RowVolts389, "03.89", "00041");
  }

  lemma ObservedFrameVolts389()
    ensures DecodeBuffer([0x17, 0x27, 0x3d, 0x41, 0x5f, 0x6f, 0x7f, 0x83, 0x9f, 0xa0, 0xb0, 0xc0, 0xd4, 0xe1])
         == "Volts " + "03.89" + " " + "00041"
  {
    var b: seq<Byte> := [0x17, 0x27, 0x3d, 0x41, 0x5f, 0x6f, 0x7f, 0x83, 0x9f, 0xa0, 0xb0, 0xc0, 0xd4, 0xe1];
    forall i | 0 <= i < 14 ensures Tag(b[i]) == i + 1 && Low(b[i]) == NibbleAt(RowVolts389, i) { FramePosition(i); }
    ObservedTextVolts389();
    DecodeShows(b, RowVolts389, "Volts " + "03.89" + " " + "00041");
  }

  const RowVolts390 := Fields(7, [Group(false, 0x7d), Group(false, 0x1f), Group(true, 0x3f), Group(false, 0x7d)], [0, 0, 0, 4, 1])

  lemma ObservedTextVolts390()
    ensures ValidFields(RowVolts390)
    ensures Display(RowVolts390) == "Volts " + "03.90" + " " + "00041"
  {
    DigitsFour(RowVolts390.groups);
    FlagsFive(RowVolts390.flags);
    assert DigitsText(RowVolts390.groups) == "03.90";
    assert FlagText(RowVolts390.flags) == "00041";
    RowText(RowVolts390, "03.90", "00041");
  }

  lemma ObservedFrameVolts390()
    ensures DecodeBuffer([0x17, 0x27, 0x3d, 0x41, 0x5f, 0x6b, 0x7f, 0x87, 0x9d, 0xa0, 0xb0, 0xc0, 0xd4, 0xe1])
         == "Volts " + "03.90" + " " + "00041"
  {
    var b: seq<Byte> := [0x17, 0x27, 0x3d, 0x41, 0x5f, 0x6b, 0x7f, 0x87, 0x9d, 0xa0, 0xb0, 0xc0, 0xd4, 0xe1];
    forall i | 0 <= i < 14 ensures Tag(b[i]) == i + 1 && Low(b[i]) == NibbleAt(RowVolts390, i) { FramePosition(i); }
    ObservedTextVolts390();
    DecodeShows(b, RowVolts390, "Volts " + "03.90" + " " + "00041");
  }

  const RowVolts376 := Fields(7, [Group(false, 0x7d), Group(false, 0x1f), Group(true, 0x15), Group(false, 0x7e)], [0, 0, 0, 4, 1])

  lemma ObservedTextVolts376()
    ensures ValidFields(RowVolts376)
    ensures Display(RowVolts376) == "Volts " + "03.76" + " " + "00041"
  {
    DigitsFour(RowVolts376.groups);
    FlagsFive(RowVolts376.flags);
    assert DigitsText(RowVolts376.groups) == "03.76";
    assert FlagText(RowVolts376.flags) == "00041";
    RowText(RowVolts376, "03.76", "00041");
  }

  lemma ObservedFrameVolts376()
    ensures DecodeBuffer([0x17, 0x27, 0x3d, 0x41, 0x5f, 0x69, 0x75, 0x87, 0x9e, 0xa0, 0xb0, 0xc0, 0xd4, 0xe1])
         == "Volts " + "03.76" + " " + "00041"
  {
    var b: seq<Byte> := [0x17, 0x27, 0x3d, 0x41, 0x5f, 0x69, 0x75, 0x87, 0x9e, 0xa0, 0xb0, 0xc0, 0xd4, 0xe1];
    forall i | 0 <= i < 14 ensures Tag(b[i]) == i + 1 && Low(b[i]) == NibbleAt(RowVolts376, i) { FramePosition(i); }
    ObservedTextVolts376();
    DecodeShows(b, RowVolts376, "Volts " + "03.76" + " " + "00041");
  }

  const RowVolts2152 := Fields(7, [Group(false, 0x5b), Group(true, 0x05), Group(false, 0x3e), Group(false, 0x5b)], [0, 0, 0, 4, 1])

  lemma ObservedTextVolts2152()
    ensures ValidFields(RowVolts2152)
    ensures Display(RowVolts2152) == "Volts " + "2.152" + " " + "00041"
  {
    DigitsFour(RowVolts2152.groups);
    FlagsFive(RowVolts2152.flags);
    assert DigitsText(RowVolts2152.groups) == "2.152";
    assert FlagText(RowVolts2152.flags) == "00041";
    RowText(RowVolts2152, "2.152", "00041");
  }

  lemma ObservedFrameVolts2152()
    ensures DecodeBuffer([0x17, 0x25, 0x3b, 0x48, 0x55, 0x63, 0x7e, 0x85, 0x9b, 0xa0, 0xb0, 0xc0, 0xd4, 0xe1])
         == "Volts " + "2.152" + " " + "00041"
  {
    var b: seq<Byte> := [0x17, 0x25, 0x3b, 0x48, 0x55, 0x63, 0x7e, 0x85, 0x9b, 0xa0, 0xb0, 0xc0, 0xd4, 0xe1];
    forall i | 0 <= i < 14 ensures Tag(b[i]) == i + 1 && Low(b[i]) == NibbleAt(RowVolts2152, i) { FramePosition(i); }
    ObservedTextVolts2152();
    DecodeShows(b, RowVolts2152, "Volts " + "2.152" + " " + "00041");
  }

  const RowVolts1924 := Fields(7, [Group(false, 0x05), Group(true, 0x3f), Group(false, 0x5b), Group(false, 0x27)], [0, 0, 0, 4, 1])

  lemma ObservedTextVolts1924()
    ensures ValidFields(RowVolts1924)
    ensures Display(RowVolts1924) == "Volts " + "1.924" + " " + "00041"
  {
    DigitsFour(RowVolts1924.groups);
    FlagsFive(RowVolts1924.flags);
    assert DigitsText(RowVolts1924.groups) == "1.924";
    assert FlagText(RowVolts1924.flags) == "00041";
    RowText(RowVolts1924, "1.924", "00041");
  }

  lemma ObservedFrameVolts1924()
    ensures DecodeBuffer([0x17, 0x20, 0x35, 0x4b, 0x5f, 0x65, 0x7b, 0x82, 0x97, 0xa0, 0xb0, 0xc0, 0xd4, 0xe1])
         == "Volts " + "1.924" + " " + "00041"
  {
    var b: seq<Byte> := [0x17, 0x20, 0x35, 0x4b, 0x5f, 0x65, 0x7b, 0x82, 0x97, 0xa0, 0xb0, 0xc0, 0xd4, 0xe1];
    forall i | 0 <= i < 14 ensures Tag(b[i]) == i + 1 && Low(b[i]) == NibbleAt(RowVolts1924, i) { FramePosition(i); }
    ObservedTextVolts1924();
    DecodeShows(b, RowVolts1924, "Volts " + "1.924" + " " + "00041");
  }
}
