/**
 The binary terminal frame (backend/ws_agent_manager.py and backend/agent_server.py):
 a kind byte, two canonical UUID texts, a 64-bit big-endian sequence number and a payload.
 */
module TerminalFrame {
  import opened Common
  import opened Numerals

  type Byte = b: int | 0 <= b < 256

  const INPUT: int := 1
  const OUTPUT: int := 2
  const MAX_PAYLOAD: nat := 65536
  const HEADER: nat := 81
  const SEQUENCE_LIMIT: nat := 0x1_0000_0000_0000_0000

  // ----- canonical UUID text -----------------------------------------------------------

  predicate LowerHex(c: char) {
    '0' <= c <= '9' || 'a' <= c <= 'f'
  }

  predicate DashAt(i: int) {
    i == 8 || i == 13 || i == 18 || i == 23
  }

  /** The 8-4-4-4-12 lower-case text of section 4 of RFC 9562. */
  predicate IsCanonicalUuid(s: string) {
    && |s| == 36
    && forall i :: 0 <= i < 36 ==> if DashAt(i) then s[i] == '-' else LowerHex(s[i])
  }

  function HexDigit(n: nat): (c: char)
    requires n < 16
    ensures LowerHex(c) && HexValue(c) == n
  {
    if n < 10 then (n + 48) as char else (n + 87) as char
  }

  function HexValue(c: char): (n: nat)
    requires LowerHex(c)
    ensures n < 16
  {
    if c <= '9' then c as int - 48 else c as int - 87
  }

  lemma HexRoundTrip(c: char)
    requires LowerHex(c)
    ensures HexDigit(HexValue(c)) == c
  {
  }

  predicate AllHex(s: string) {
    forall i :: 0 <= i < |s| ==> LowerHex(s[i])
  }

  function HexValues(s: string): (ds: seq<nat>)
    requires AllHex(s)
    ensures |ds| == |s| && AreDigits(16, ds)
  {
    seq(|s|, i requires 0 <= i < |s| => HexValue(s[i]))
  }

  function HexText(ds: seq<nat>): (s: string)
    requires AreDigits(16, ds)
    ensures |s| == |ds| && AllHex(s)
  {
    seq(|ds|, i requires 0 <= i < |ds| => HexDigit(ds[i]))
  }

  /** `text.replace('-', '')`. */
  function WithoutDashes(s: string): string {
    if s == [] then [] else WithoutDashes(s[..|s| - 1]) + (if s[|s| - 1] == '-' then [] else [s[|s| - 1]])
  }

  /**
   `uuid.UUID(value)` as a 128-bit number.  Text that is 32 lower-case hex digits once its
   dashes are gone denotes their value; what the constructor makes of any other text
   (upper case, braces, a `urn:` prefix, a `ValueError`) is the parameter `lenient`.
   */
  function ParseUuid(value: string, lenient: string -> Option<nat>): Option<nat> {
    var h := WithoutDashes(value);
    if |h| == 32 && AllHex(h) then Some(Value(16, HexValues(h))) else lenient(value)
  }

  function Dashed(h: string): (s: string)
    requires |h| == 32
  {
    h[..8] + "-" + h[8..12] + "-" + h[12..16] + "-" + h[16..20] + "-" + h[20..]
  }

  /** `str(uuid)`. */
  function FormatUuid(n: nat): string {
    Dashed(HexText(Digits(16, 32, n)))
  }

  /** `_canonical_uuid`: parse, format, and accept only text that comes back unchanged. */
  function CanonicalUuid(value: string, lenient: string -> Option<nat>): Result<string, ()> {
    var parsed := ParseUuid(value, lenient);
    if parsed.Some? && FormatUuid(parsed.value) == value then Ok(value) else Err(())
  }

  lemma {:induction false} WithoutDashesAppend(a: string, b: string)
    ensures WithoutDashes(a + b) == WithoutDashes(a) + WithoutDashes(b)
  {
    if b == [] {
      assert a + b == a;
    } else {
      assert (a + b)[..|a + b| - 1] == a + b[..|b| - 1];
      WithoutDashesAppend(a, b[..|b| - 1]);
    }
  }

  lemma {:induction false} WithoutDashesHex(s: string)
    requires AllHex(s)
    ensures WithoutDashes(s) == s
  {
    if s != [] {
      WithoutDashesHex(s[..|s| - 1]);
    }
  }

  lemma DashedIsCanonical(h: string)
    requires |h| == 32 && AllHex(h)
    ensures IsCanonicalUuid(Dashed(h))
  {
  }

  lemma DashVanishes()
    ensures WithoutDashes("-") == []
  {
    assert "-"[..|"-"| - 1] == [];
  }

  lemma UndashPart(a: string, part: string)
    requires AllHex(part)
    ensures WithoutDashes(a + "-" + part) == WithoutDashes(a) + part
  {
    WithoutDashesAppend(a + "-", part);
    WithoutDashesAppend(a, "-");
    WithoutDashesHex(part);
    DashVanishes();
  }

  lemma UndashDashed(h: string)
    requires |h| == 32 && AllHex(h)
    ensures WithoutDashes(Dashed(h)) == h
  {
    var p1, p2, p3, p4, p5 := h[..8], h[8..12], h[12..16], h[16..20], h[20..];
    var q2 := p1 + "-" + p2;
    var q3 := q2 + "-" + p3;
    var q4 := q3 + "-" + p4;
    WithoutDashesHex(p1);
    UndashPart(p1, p2);
    UndashPart(q2, p3);
    UndashPart(q3, p4);
    UndashPart(q4, p5);
    PartsJoin(h);
  }

  lemma PartsJoin(h: string)
    requires |h| == 32
    ensures h[..8] + h[8..12] + h[12..16] + h[16..20] + h[20..] == h
  {
    assert h[..8] + h[8..12] == h[..12];
    assert h[..12] + h[12..16] == h[..16];
    assert h[..16] + h[16..20] == h[..20];
    assert h[..20] + h[20..] == h;
  }

  /** A canonical text is the dashed form of its own hex digits. */
  lemma CanonicalSplits(s: string) returns (h: string)
    requires IsCanonicalUuid(s)
    ensures |h| == 32 && AllHex(h) && Dashed(h) == s
  {
    h := s[..8] + s[9..13] + s[14..18] + s[19..23] + s[24..];
    assert DashAt(8) && DashAt(13) && DashAt(18) && DashAt(23);
    assert h[..8] == s[..8];
    assert h[8..12] == s[9..13];
    assert h[12..16] == s[14..18];
    assert h[16..20] == s[19..23];
    assert h[20..] == s[24..];
    assert s[..14] == s[..8] + "-" + s[9..13] + "-";
    assert s[14..24] == s[14..18] + "-" + s[19..23] + "-";
    assert s == s[..14] + s[14..24] + s[24..];
  }

  /** Whatever else the UUID constructor tolerates, exactly the canonical texts are accepted. */
  lemma CanonicalUuidIff(value: string, lenient: string -> Option<nat>)
    ensures CanonicalUuid(value, lenient).Ok? <==> IsCanonicalUuid(value)
  {
    if IsCanonicalUuid(value) {
      var h := CanonicalSplits(value);
      UndashDashed(h);
      var ds := HexValues(h);
      DigitsOfValue(16, ds);
      forall i | 0 <= i < 32 ensures HexText(ds)[i] == h[i] {
        HexRoundTrip(h[i]);
      }
      assert HexText(ds) == h;
    } else if CanonicalUuid(value, lenient).Ok? {
      var n := ParseUuid(value, lenient).value;
      DashedIsCanonical(HexText(Digits(16, 32, n)));
      assert false;
    }
  }

  // ----- the codec -----------------------------------------------------------------------

  datatype Frame = Frame(kind: int, session: string, attachment: string, sequence: int, payload: seq<Byte>)

  datatype FrameError = ValueError | StructError

  predicate Valid(f: Frame) {
    && (f.kind == INPUT || f.kind == OUTPUT)
    && IsCanonicalUuid(f.session)
    && IsCanonicalUuid(f.attachment)
    && 0 <= f.sequence < SEQUENCE_LIMIT
    && 0 < |f.payload| <= MAX_PAYLOAD
  }

  predicate IsAscii(s: string) {
    forall i :: 0 <= i < |s| ==> s[i] as int < 128
  }

  function AsciiEncode(s: string): (bs: seq<Byte>)
    requires IsAscii(s)
    ensures |bs| == |s|
  {
    seq(|s|, i requires 0 <= i < |s| => s[i] as int)
  }

  /** `raw.decode("ascii")`; bytes above 127 raise. */
  function AsciiDecode(bs: seq<Byte>): (s: Option<string>)
    ensures s.Some? ==> |s.value| == |bs|
  {
    if forall i :: 0 <= i < |bs| ==> bs[i] < 128
    then Some(seq(|bs|, i requires 0 <= i < |bs| => bs[i] as char))
    else None
  }

  function BigEndian(n: nat): (bs: seq<Byte>)
    ensures |bs| == 8
  {
    var ds := Digits(256, 8, n);
    seq(8, i requires 0 <= i < 8 => ds[i])
  }

  function ByteDigits(bs: seq<Byte>): (ds: seq<nat>)
    ensures |ds| == |bs| && AreDigits(256, ds)
    ensures forall i :: 0 <= i < |bs| ==> ds[i] == bs[i]
  {
    seq(|bs|, i requires 0 <= i < |bs| => bs[i])
  }

  function FromBigEndian(bs: seq<Byte>): (n: nat)
    requires |bs| == 8
  {
    Value(256, ByteDigits(bs))
  }

  /** `Struct("!B36s36sQ").pack(...) + payload` for fields that fit. */
  function Pack(f: Frame): (bs: seq<Byte>)
    requires 0 <= f.kind < 256 && 0 <= f.sequence < SEQUENCE_LIMIT
    requires |f.session| == 36 && |f.attachment| == 36 && IsAscii(f.session) && IsAscii(f.attachment)
  {
    [f.kind] + AsciiEncode(f.session) + AsciiEncode(f.attachment) + BigEndian(f.sequence) + f.payload
  }

  lemma CanonicalIsAscii(s: string)
    requires IsCanonicalUuid(s)
    ensures IsAscii(s)
  {
    forall i | 0 <= i < |s| ensures s[i] as int < 128 {
      assert if DashAt(i) then s[i] == '-' else LowerHex(s[i]);
    }
  }

  function Encode(f: Frame): Result<seq<Byte>, FrameError> {
    if !IsCanonicalUuid(f.session) then Err(ValueError)
    else if !IsCanonicalUuid(f.attachment) then Err(ValueError)
    else if f.kind != INPUT && f.kind != OUTPUT then Err(ValueError)
    else if !(0 < |f.payload| <= MAX_PAYLOAD) then Err(ValueError)
    else if f.sequence < 0 then Err(ValueError)
    else if f.sequence >= SEQUENCE_LIMIT then Err(StructError)
    else
      CanonicalIsAscii(f.session);
      CanonicalIsAscii(f.attachment);
      Ok(Pack(f))
  }

  function Decode(bs: seq<Byte>): Result<Frame, FrameError> {
    if |bs| <= HEADER then Err(ValueError)
    else
      var session, attachment := AsciiDecode(bs[1..37]), AsciiDecode(bs[37..73]);
      if session.None? || !IsCanonicalUuid(session.value) then Err(ValueError)
      else if attachment.None? || !IsCanonicalUuid(attachment.value) then Err(ValueError)
      else if (bs[0] != INPUT && bs[0] != OUTPUT) || |bs[HEADER..]| > MAX_PAYLOAD then Err(ValueError)
      else Ok(Frame(bs[0], session.value, attachment.value, FromBigEndian(bs[73..HEADER]), bs[HEADER..]))
  }

  lemma AsciiRoundTrip(s: string)
    requires IsAscii(s)
    ensures AsciiDecode(AsciiEncode(s)) == Some(s)
  {
    assert AsciiDecode(AsciiEncode(s)).value == s;
  }

  lemma SequenceRoundTrip(n: nat)
    requires n < SEQUENCE_LIMIT
    ensures FromBigEndian(BigEndian(n)) == n
  {
    assert Pow(256, 8) == SEQUENCE_LIMIT by {
      assert Pow(256, 2) == 0x1_0000;
      assert Pow(256, 4) == 0x1_0000_0000;
      assert Pow(256, 6) == 0x1_0000_0000_0000;
    }
    ValueOfDigits(256, 8, n);
    assert ByteDigits(BigEndian(n)) == Digits(256, 8, n);
  }

  lemma SequenceBytes(bs: seq<Byte>)
    requires |bs| == 8
    ensures FromBigEndian(bs) < SEQUENCE_LIMIT && BigEndian(FromBigEndian(bs)) == bs
  {
    var ds := ByteDigits(bs);
    ValueBound(256, ds);
    assert Pow(256, 8) == SEQUENCE_LIMIT by {
      assert Pow(256, 2) == 0x1_0000;
      assert Pow(256, 4) == 0x1_0000_0000;
      assert Pow(256, 6) == 0x1_0000_0000_0000;
    }
    DigitsOfValue(256, ds);
  }

  lemma UnpackPack(f: Frame)
    requires Valid(f) && IsAscii(f.session) && IsAscii(f.attachment)
    ensures var bs := Pack(f);
            && |bs| == HEADER + |f.payload|
            && bs[0] == f.kind
            && bs[1..37] == AsciiEncode(f.session)
            && bs[37..73] == AsciiEncode(f.attachment)
            && bs[73..HEADER] == BigEndian(f.sequence)
            && bs[HEADER..] == f.payload
  {
  }

  lemma EncodeAcceptsExactlyValid(f: Frame)
    ensures Encode(f).Ok? <==> Valid(f)
  {
  }

  /** Every frame the center encodes decodes to the same fields. */
  lemma DecodeEncode(f: Frame)
    requires Valid(f)
    ensures Encode(f).Ok? && Decode(Encode(f).value) == Ok(f)
  {
    CanonicalIsAscii(f.session);
    CanonicalIsAscii(f.attachment);
    UnpackPack(f);
    AsciiRoundTrip(f.session);
    AsciiRoundTrip(f.attachment);
    SequenceRoundTrip(f.sequence);
  }

  /** Every accepted byte string is the encoding of the valid frame it decodes to. */
  lemma EncodeDecode(bs: seq<Byte>)
    requires Decode(bs).Ok?
    ensures Valid(Decode(bs).value) && Encode(Decode(bs).value) == Ok(bs)
  {
    var f := Decode(bs).value;
    SequenceBytes(bs[73..HEADER]);
    CanonicalIsAscii(f.session);
    CanonicalIsAscii(f.attachment);
    UnpackPack(f);
    assert AsciiEncode(f.session) == bs[1..37];
    assert AsciiEncode(f.attachment) == bs[37..73];
    assert bs == [bs[0]] + bs[1..37] + bs[37..73] + bs[73..HEADER] + bs[HEADER..];
  }

  // ----- the edge's side --------------------------------------------------------------------

  /** `_handle_terminal_input` up to the session lookup: the parsed fields, or nothing. */
  function EdgeParseInput(bs: seq<Byte>): Option<Frame> {
    if |bs| <= HEADER then None
    else
      var session, attachment := AsciiDecode(bs[1..37]), AsciiDecode(bs[37..73]);
      if session.None? || attachment.None? then None
      else if !IsCanonicalUuid(session.value) || !IsCanonicalUuid(attachment.value) then None
      else if bs[0] != INPUT || !(0 < |bs[HEADER..]| <= MAX_PAYLOAD) then None
      else Some(Frame(bs[0], session.value, attachment.value, FromBigEndian(bs[73..HEADER]), bs[HEADER..]))
  }

  /** `_encode_terminal_output`: no checks beyond the ones `struct` itself makes. */
  function EdgeEncodeOutput(session: string, attachment: string, sequence: nat, payload: seq<Byte>): Option<seq<Byte>>
    requires IsCanonicalUuid(session) && IsCanonicalUuid(attachment)
  {
    CanonicalIsAscii(session);
    CanonicalIsAscii(attachment);
    if sequence < SEQUENCE_LIMIT then Some(Pack(Frame(OUTPUT, session, attachment, sequence, payload))) else None
  }

  /** The edge and the center accept the same input frames and read the same fields from them. */
  lemma EdgeAgreesWithCenter(bs: seq<Byte>)
    ensures EdgeParseInput(bs).Some? <==> Decode(bs).Ok? && Decode(bs).value.kind == INPUT
    ensures EdgeParseInput(bs).Some? ==> EdgeParseInput(bs).value == Decode(bs).value
  {
  }

  /** Center to edge: an encoded frame is taken by the edge exactly when it is an input frame, unchanged. */
  lemma CenterInputReachesEdge(f: Frame)
    requires Valid(f)
    ensures EdgeParseInput(Encode(f).value) == if f.kind == INPUT then Some(f) else None
  {
    DecodeEncode(f);
    EdgeAgreesWithCenter(Encode(f).value);
  }

  /** Edge to center: an output frame is accepted exactly when it exists and its payload has 1 to 65536 bytes. */
  lemma EdgeOutputReachesCenter(session: string, attachment: string, sequence: nat, payload: seq<Byte>)
    requires IsCanonicalUuid(session) && IsCanonicalUuid(attachment)
    ensures EdgeEncodeOutput(session, attachment, sequence, payload).Some? <==> sequence < SEQUENCE_LIMIT
    ensures sequence < SEQUENCE_LIMIT ==>
      var decoded := Decode(EdgeEncodeOutput(session, attachment, sequence, payload).value);
      && (decoded.Ok? <==> 0 < |payload| <= MAX_PAYLOAD)
      && (decoded.Ok? ==> decoded.value == Frame(OUTPUT, session, attachment, sequence, payload))
  {
    CanonicalIsAscii(session);
    CanonicalIsAscii(attachment);
    if sequence < SEQUENCE_LIMIT {
      var f := Frame(OUTPUT, session, attachment, sequence, payload);
      if Valid(f) {
        DecodeEncode(f);
      } else {
        assert |Pack(f)| == HEADER + |payload|;
        assert Pack(f)[HEADER..] == payload;
      }
    }
  }
}
