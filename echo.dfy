/**
 * The round trip between the encoder and the decoder. The command frame and the status frame
 * share their byte layout: characters 8-13 carry the three packed bytes and characters 28-35
 * the four filter bytes. A status frame made of the status preamble followed by a command's
 * payload therefore decodes to the values the command packed, with the input bit set (the
 * low bit of B5 is always 1), odor, wifi, reserved bits, alarms and sensors zero, and the
 * filter records the reset bytes spell.
 */
module Echo {
  import opened Wrappers
  import opened Bitwise
  import opened Hex
  import opened Strings
  import opened Protocol
  import opened Command

  // ------------------------------------------------------------------------------------------
  // Packed bytes read back through the status layout

  /** The five fields of B5, read back at the bit positions the decoder uses for characters 8-9. */
  lemma ByteFiveBits(p: nat, s: nat, a: nat, l: nat)
    requires p < 2 && s < 8 && a < 2 && l < 4
    ensures var x := 128 * p + 16 * s + 8 * a + 2 * l + 1;
      Bits(x, 7, 1) == p && Bits(x, 4, 3) == s && Bits(x, 3, 1) == a && Bits(x, 1, 2) == l
      && Bits(x, 0, 1) == 1
  {
    Pow2Table();
    ExtractField(0, p, 16 * s + 8 * a + 2 * l + 1, 7, 1);
    ExtractField(p, s, 8 * a + 2 * l + 1, 4, 3);
    ExtractField(8 * p + s, a, 2 * l + 1, 3, 1);
    ExtractField(16 * p + 2 * s + a, l, 1, 1, 2);
    ExtractField(64 * p + 8 * s + 4 * a + l, 1, 0, 0, 1);
  }

  /** B6 read back at characters 10-11: odor and wifi zero, the pressure code in bits 4-5. */
  lemma ByteSixBits(m: nat)
    requires m < 4
    ensures var x := 16 * m;
      Bits(x, 6, 2) == 0 && Bits(x, 4, 2) == m && Bits(x, 0, 3) == 0
  {
    Pow2Table();
    ExtractField(0, 0, 16 * m, 6, 2);
    ExtractField(0, m, 0, 4, 2);
    ExtractField(2 * m, 0, 0, 0, 3);
  }

  /** B7 read back at characters 12-13: fan in, fan out, and zero reserved bits. */
  lemma ByteSevenBits(i: nat, o: nat)
    requires i < 2 && o < 2
    ensures var x := 128 * i + 64 * o;
      Bits(x, 7, 1) == i && Bits(x, 6, 1) == o && Bits(x, 0, 6) == 0
  {
    Pow2Table();
    ExtractField(0, i, 64 * o, 7, 1);
    ExtractField(i, o, 0, 6, 1);
    ExtractField(2 * i + o, 0, 0, 0, 6);
  }

  /**
   * Packing round trip: when every value fits its width, the status layout's fields of the
   * three packed bytes are the packed values, with the input bit 1 and odor, wifi and reserved
   * bits 0.
   */
  lemma PackedFields(f: Fields)
    requires Fits(f)
    ensures Bits(B5(f), 7, 1) == f.power && Bits(B5(f), 4, 3) == f.fanSpeed
    ensures Bits(B5(f), 3, 1) == f.aiMode && Bits(B5(f), 1, 2) == f.sleepMode
    ensures Bits(B5(f), 0, 1) == 1
    ensures Bits(B6(f), 6, 2) == 0 && Bits(B6(f), 4, 2) == f.pressureMode && Bits(B6(f), 0, 3) == 0
    ensures Bits(B7(f), 7, 1) == f.fanIn && Bits(B7(f), 6, 1) == f.fanOut && Bits(B7(f), 0, 6) == 0
  {
    PackBytes(f);
    ByteFiveBits(f.power, f.fanSpeed, f.aiMode, f.sleepMode);
    ByteSixBits(f.pressureMode);
    ByteSevenBits(f.fanIn, f.fanOut);
  }

  /** Every field of a zero window is zero. */
  lemma ZeroBits(shift: nat, width: nat)
    ensures Bits(0, shift, width) == 0
  {
    DivModUnique(0, Pow2(shift), 0, 0);
    DivModUnique(0, Pow2(width), 0, 0);
  }

  // ------------------------------------------------------------------------------------------
  // Filter bytes read back

  /** The 32-bit number the four filter bytes spell, B15 most significant. */
  function ResetValue(r: ResetBytes): nat {
    ((r.b15 * 256 + r.b16) * 256 + r.b17) * 256 + r.b18
  }

  /** The prefilter record a reset target reads back as: set with 2000 hours after "prefilter". */
  function PrefilterEcho(target: Option<string>): FilterStatus {
    if target == Some("prefilter") then FilterStatus(true, 2000) else FilterStatus(false, 0)
  }

  /** The HEPA record a reset target reads back as: set with 4000 hours after "hepafilter". */
  function HepaEcho(target: Option<string>): FilterStatus {
    if target == Some("hepafilter") then FilterStatus(true, 4000) else FilterStatus(false, 0)
  }

  /** The eight filter digits are worth the number the four bytes spell. */
  lemma ResetDigitsValue(r: ResetBytes)
    requires r.b15 < 256 && r.b16 < 256 && r.b17 < 256 && r.b18 < 256
    ensures HexValue(ResetDigits(r)) == ResetValue(r)
  {
    assert Pow2(8) == 256;
    var w, x, y, z := FormatHex(r.b15, 2), FormatHex(r.b16, 2), FormatHex(r.b17, 2), FormatHex(r.b18, 2);
    ByteAppend(w, x, r.b15, r.b16);
    ByteAppend(w + x, y, r.b15 * 256 + r.b16, r.b17);
    ByteAppend(w + x + y, z, (r.b15 * 256 + r.b16) * 256 + r.b17, r.b18);
  }

  /** Appending the two digits of a byte multiplies the value by 256 and adds the byte. */
  lemma ByteAppend(a: seq<HexDigit>, b: seq<HexDigit>, va: nat, vb: nat)
    requires HexValue(a) == va && |b| == 2 && HexValue(b) == vb
    ensures HexValue(a + b) == va * 256 + vb
  {
    HexValueConcat(a, b);
    assert Pow2(8) == 256;
  }

  /**
   * The filter bytes of each valid target read back, through the filter layout, as the
   * records "prefilter" and "hepafilter" aim at: 87 D0 is flag 1 and 2000 hours in the
   * prefilter half, 8F A0 flag 1 and 4000 hours in the HEPA half, and no target reads zero.
   * The two bits between each flag and its hours are 0, so the four bytes are fixed.
   */
  lemma ResetFilters(target: Option<string>)
    requires FilterResetBytes(target).Some?
    ensures var v := ResetValue(FilterResetBytes(target).value);
      FilterStatus(Bits(v, 31, 1) == 1, Bits(v, 16, 14)) == PrefilterEcho(target)
      && FilterStatus(Bits(v, 15, 1) == 1, Bits(v, 0, 14)) == HepaEcho(target)
      && Bits(v, 30, 1) == 0 && Bits(v, 14, 1) == 0
  {
    Pow2Table();
    var v := ResetValue(FilterResetBytes(target).value);
    if target == Some("prefilter") {
      assert v == 2278555648;
    } else if target == Some("hepafilter") {
      assert v == 36768;
    } else {
      assert v == 0;
    }
  }

  // ------------------------------------------------------------------------------------------
  // The echo frame

  /** A window of the preamble followed by hex digits `s` is the matching part of `s`. */
  lemma PreambleWindow(p: string, s: seq<HexDigit>, a: nat, b: nat)
    requires p == StatusPreamble + s && 8 <= a < b <= |p|
    ensures WindowValue(p, a, b) == HexValue(s[a - 8..b - 8])
  {
    var w := s[a - 8..b - 8];
    assert Slice(p, a, b) == p[a..b] == w;
    assert IsHex(w);
  }

  /** Any part of a zero string is worth 0. */
  lemma ZeroSlice(n: nat, i: nat, j: nat)
    requires i <= j <= n
    ensures HexValue(ZeroDigits(n)[i..j]) == 0
  {
    assert ZeroDigits(n)[i..j] == ZeroDigits(j - i);
  }

  /** The status preamble followed by a payload is a full-length hex frame. */
  lemma EchoFrameShape(s: seq<HexDigit>)
    requires |s| == 38
    ensures var p := StatusPreamble + s;
      |p| == 46 && StartsWith(p, StatusPreamble) && IsHex(p[8..36])
  {
    var p := StatusPreamble + s;
    assert p[..8] == StatusPreamble;
    assert p[8..36] == s[..28];
  }

  /**
   * The windows of the status preamble followed by a command payload: the three packed bytes,
   * a zero alarm byte, zero sensors and the filter bytes.
   */
  lemma EchoWindows(b5: nat, b6: nat, b7: nat, r: ResetBytes)
    requires b5 < 256 && b6 < 256 && b7 < 256
    requires r.b15 < 256 && r.b16 < 256 && r.b17 < 256 && r.b18 < 256
    ensures var p := StatusPreamble + Payload(b5, b6, b7, r);
      |p| == 46 && StartsWith(p, StatusPreamble) && IsHex(p[8..36])
      && WindowValue(p, 8, 10) == b5 && WindowValue(p, 10, 12) == b6 && WindowValue(p, 12, 14) == b7
      && WindowValue(p, 14, 16) == 0 && WindowValue(p, 16, 28) == 0
      && WindowValue(p, 28, 36) == ResetValue(r)
  {
    var s := Payload(b5, b6, b7, r);
    var p := StatusPreamble + s;
    PayloadLayout(b5, b6, b7, r);
    EchoFrameShape(s);
    ByteDigitsLayout(b5, b6, b7);
    ByteWindows(p, s, ByteDigits(b5, b6, b7), b5, b6, b7);
    ZeroWindows(p, s);
    PreambleWindow(p, s, 28, 36);
    ResetDigitsValue(r);
  }

  /** The byte windows at characters 8-13. */
  lemma ByteWindows(p: string, s: seq<HexDigit>, d: seq<HexDigit>, b5: nat, b6: nat, b7: nat)
    requires p == StatusPreamble + s && |s| == 38 && s[..6] == d
    requires d[0..2] == FormatHex(b5, 2) && d[2..4] == FormatHex(b6, 2) && d[4..6] == FormatHex(b7, 2)
    ensures WindowValue(p, 8, 10) == b5 && WindowValue(p, 10, 12) == b6 && WindowValue(p, 12, 14) == b7
  {
    ByteWindow(p, s, d, 0, b5);
    ByteWindow(p, s, d, 2, b6);
    ByteWindow(p, s, d, 4, b7);
  }

  /** The byte whose two digits sit at `i` of the first six payload digits. */
  lemma ByteWindow(p: string, s: seq<HexDigit>, d: seq<HexDigit>, i: nat, b: nat)
    requires p == StatusPreamble + s && |s| == 38 && s[..6] == d && i + 2 <= 6
    requires d[i..i + 2] == FormatHex(b, 2)
    ensures WindowValue(p, 8 + i, 10 + i) == b
  {
    assert s[i..i + 2] == d[i..i + 2];
    PreambleWindow(p, s, 8 + i, 10 + i);
  }

  /** The alarm and sensor windows at characters 14-27 fall in the fourteen zero digits. */
  lemma ZeroWindows(p: string, s: seq<HexDigit>)
    requires p == StatusPreamble + s && |s| == 38 && s[6..20] == ZeroDigits(14)
    ensures WindowValue(p, 14, 16) == 0 && WindowValue(p, 16, 28) == 0
  {
    var z := ZeroDigits(14);
    assert s[6..8] == z[0..2] && s[8..20] == z[2..14];
    ZeroSlice(14, 0, 2);
    ZeroSlice(14, 2, 14);
    PreambleWindow(p, s, 14, 16);
    PreambleWindow(p, s, 16, 28);
  }

  // ------------------------------------------------------------------------------------------
  // The round trip

  /**
   * The status a device reporting a command's payload back would send: the command's values,
   * the input bit set, odor, wifi, reserved bits, alarms and sensors zero, and the filter
   * records the reset target spells.
   */
  function EchoStatus(f: Fields, target: Option<string>): Status {
    Status(f.power, f.fanSpeed, f.aiMode, f.sleepMode, 1, 0, f.pressureMode, 0, f.fanIn, f.fanOut, 0,
      0, 0, 0, 0, 0, 0, 0, 0, 0, 0, PrefilterEcho(target), HepaEcho(target))
  }

  /** The status layout of the packed bytes, zero alarms and sensors, and the reset bytes. */
  lemma EchoLayout(f: Fields, target: Option<string>)
    requires Fits(f) && FilterResetBytes(target).Some?
    ensures FieldLayout(B5(f), B6(f), B7(f), 0, 0, ResetValue(FilterResetBytes(target).value))
      == EchoStatus(f, target)
  {
    PackedFields(f);
    ResetFilters(target);
    ZeroBits(7, 1);
    ZeroBits(6, 1);
    ZeroBits(5, 1);
    ZeroBits(4, 1);
    ZeroBits(3, 1);
    ZeroBits(2, 1);
    ZeroBits(34, 13);
    ZeroBits(24, 10);
    ZeroBits(14, 10);
    ZeroBits(4, 10);
  }

  /** The status preamble followed by a payload decodes through the layout of its windows. */
  lemma EchoDecodes(b5: nat, b6: nat, b7: nat, r: ResetBytes)
    requires b5 < 256 && b6 < 256 && b7 < 256
    requires r.b15 < 256 && r.b16 < 256 && r.b17 < 256 && r.b18 < 256
    ensures ParseStatusPacket(StatusPreamble + Payload(b5, b6, b7, r))
      == Some(FieldLayout(b5, b6, b7, 0, 0, ResetValue(r)))
  {
    EchoWindows(b5, b6, b7, r);
    StatusLayout(StatusPreamble + Payload(b5, b6, b7, r));
  }

  /** What follows a command frame's header is its payload. */
  lemma FramePayload(b5: nat, b6: nat, b7: nat, r: ResetBytes)
    ensures Frame(b5, b6, b7, r)[8..] == Payload(b5, b6, b7, r)
  {
    assert |CommandHeader| == 8;
  }

  /**
   * Encoder-decoder round trip: whenever the encoder produces a command and the merged values
   * fit their widths, the command has 46 characters, and its payload behind the status preamble
   * decodes to exactly the merged values, with the input bit set, everything the command does
   * not carry zero, and the filter records of the reset target.
   */
  lemma CommandEcho(prior: Option<Status>, req: Request)
    requires CommandContents(prior, req).Some? && Fits(Merge(prior, Rewrite(req)))
    ensures var c := CommandContents(prior, req).value;
      |c| == 46 && ParseStatusPacket(StatusPreamble + c[8..])
        == Some(EchoStatus(Merge(prior, Rewrite(req)), req.filterReset))
  {
    var f := Merge(prior, Rewrite(req));
    CommandFrame(prior, req);
    FrameEcho(f, req.filterReset);
  }

  /** The command's contents are the frame of the merged values and the reset bytes. */
  lemma CommandFrame(prior: Option<Status>, req: Request)
    requires CommandContents(prior, req).Some?
    ensures FilterResetBytes(req.filterReset).Some?
    ensures var f := Merge(prior, Rewrite(req));
      CommandContents(prior, req).value == Frame(B5(f), B6(f), B7(f), FilterResetBytes(req.filterReset).value)
  {
  }

  /** The frame of fitting values and a valid reset target echoes back as `EchoStatus`. */
  lemma FrameEcho(f: Fields, target: Option<string>)
    requires Fits(f) && FilterResetBytes(target).Some?
    ensures var c := Frame(B5(f), B6(f), B7(f), FilterResetBytes(target).value);
      |c| == 46 && ParseStatusPacket(StatusPreamble + c[8..]) == Some(EchoStatus(f, target))
  {
    var r := FilterResetBytes(target).value;
    PackBytes(f);
    FrameLength(B5(f), B6(f), B7(f), r);
    FramePayload(B5(f), B6(f), B7(f), r);
    EchoDecodes(B5(f), B6(f), B7(f), r);
    EchoLayout(f, target);
  }
}
