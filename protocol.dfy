/**
 * The appliance wire codec: the status-frame decoder and the command-frame encoder.
 *
 * A status frame is a hex string whose first eight characters are the preamble `a8a81721`;
 * the decoder cuts fixed character windows out of the whole frame, expands each window into
 * its bits (most significant first) and reads unsigned bit fields. The encoder rewrites a
 * sparse request, merges it over the last decoded state, packs three bytes, adds the
 * filter-reset bytes and a checksum, and writes a 46-character hex frame.
 */
module Protocol {
  import opened Wrappers
  import opened Bitwise
  import opened Hex
  import opened Strings

  // ------------------------------------------------------------------------------------------
  // Decoded status

  /** One filter's sub-record: the reset flag and the elapsed hours. */
  datatype FilterStatus = FilterStatus(resetFlag: bool, hours: nat)

  /** The record `parse_status_packet` returns, one field per key. */
  datatype Status = Status(
    power: nat, fanSpeed: nat, aiMode: nat, sleepMode: nat, inputOccurred: nat,
    odor: nat, pressureMode: nat, wifi: nat,
    fanIn: nat, fanOut: nat, reservedBits: nat,
    fan1Alarm: nat, fan2Alarm: nat, dustSensorAlarm: nat, co2SensorAlarm: nat,
    filterAlarm: nat, heatExchangerAlarm: nat,
    co2: nat, pm1: nat, pm25: nat, pm10: nat,
    prefilter: FilterStatus, hepafilter: FilterStatus)

  /** Every field is below two to the power of its bit width. */
  predicate WellFormed(s: Status) {
    s.power < 2 && s.fanSpeed < 8 && s.aiMode < 2 && s.sleepMode < 4 && s.inputOccurred < 2
    && s.odor < 4 && s.pressureMode < 4 && s.wifi < 8
    && s.fanIn < 2 && s.fanOut < 2 && s.reservedBits < 64
    && s.fan1Alarm < 2 && s.fan2Alarm < 2 && s.dustSensorAlarm < 2 && s.co2SensorAlarm < 2
    && s.filterAlarm < 2 && s.heatExchangerAlarm < 2
    && s.co2 < 8192 && s.pm1 < 1024 && s.pm25 < 1024 && s.pm10 < 1024
    && s.prefilter.hours < 16384 && s.hepafilter.hours < 16384
  }

  /** The lower-case preamble the message handler requires before it decodes a frame. */
  const StatusPreamble: string := "a8a81721"

  // ------------------------------------------------------------------------------------------
  // Decoder

  /**
   * `_parse_bits(h, start, length)`: expand `h` to `4 * |h|` bits through `int(h, 16)`, `bin`
   * and `zfill`, cut bits `start .. start + length - 1` (fewer if that runs past the end) and
   * read them with `int(_, 2)`. It raises (here: `None`) exactly when `h` is not a hex numeral
   * or the cut is empty; the value it yields is below `2^length`.
   */
  function ParseBits(h: string, start: nat, length: nat): (r: Option<nat>)
    ensures r.Some? <==> IsHexNumeral(h) && start < 4 * |h| && length > 0
    ensures r.Some? ==> r.value < Pow2(length)
  {
    if !IsHexNumeral(h) then None
    else
      var full := ZFill(BinaryString(HexValue(h)), 4 * |h|);
      var bits := Slice(full, start, start + length);
      if |bits| == 0 then None
      else
        HexBits(h);
        Pow2Monotone(|bits|, length);
        Some(BinaryValue(bits))
  }

  /**
   * What `_parse_bits` reads is the window `start .. start + length - 1` of the digit-by-digit
   * expansion of `h` (four bits per digit, most significant first), cut short at its end.
   */
  lemma ParseBitsExpansion(h: string, start: nat, length: nat)
    requires IsHexNumeral(h) && start < 4 * |h| && length > 0
    ensures ParseBits(h, start, length) == Some(BinaryValue(Nibbles(h)[start..Min(start + length, 4 * |h|)]))
  {
    HexBits(h);
  }

  /**
   * `_parse_filter(h, start, length)`: the reset flag is the single bit two places before the
   * hours field, and the hours are the `length` bits from `start`.
   */
  function ParseFilter(h: string, start: nat, length: nat): (r: Option<FilterStatus>)
    requires start >= 2
    ensures r.Some? <==> IsHexNumeral(h) && start < 4 * |h| && length > 0
    ensures r.Some? ==> r.value.hours < Pow2(length)
  {
    var flag := ParseBits(h, start - 2, 1);
    var hours := ParseBits(h, start, length);
    if flag.Some? && hours.Some? then
      Some(FilterStatus(flag.value != 0, hours.value))
    else
      None
  }

  /** The reset flag of `_parse_filter` is set exactly when bit `start - 2` of the expansion is 1. */
  lemma ParseFilterFlag(h: string, start: nat, length: nat)
    requires start >= 2 && IsHexNumeral(h) && start < 4 * |h| && length > 0
    ensures ParseFilter(h, start, length).Some?
    ensures ParseFilter(h, start, length).value.resetFlag == (Nibbles(h)[start - 2] == '1')
  {
    FlagBit(h, start - 2);
  }

  /** A one-bit read is non-zero exactly when that bit of the expansion is 1. */
  lemma FlagBit(h: string, i: nat)
    requires IsHexNumeral(h) && i < 4 * |h|
    ensures ParseBits(h, i, 1).Some? && (ParseBits(h, i, 1).value != 0) == (Nibbles(h)[i] == '1')
  {
    assert Min(i + 1, 4 * |h|) == i + 1;
    ParseBitsExpansion(h, i, 1);
    SingleBit(ParseBits(h, i, 1), Nibbles(h), i);
  }

  lemma SingleBit(x: Option<nat>, b: seq<Bit>, i: nat)
    requires i < |b| && x == Some(BinaryValue(b[i..i + 1]))
    ensures x.Some? && (x.value != 0) == (b[i] == '1')
  {
    assert b[i..i + 1] == [b[i]];
  }

  /**
   * `parse_status_packet(payload)` on a frame that starts with the status preamble (the message
   * handler checks it; the decoder itself never looks at characters 0-7). Each field is read
   * from a fixed window of the whole frame; when any read raises, decoding raises (`None`).
   */
  function ParseStatusPacket(payload: string): (r: Option<Status>)
    requires StartsWith(payload, StatusPreamble)
    ensures r.Some? ==> WellFormed(r.value)
  {
    var b0 := Slice(payload, 8, 10);
    var b1 := Slice(payload, 10, 12);
    var b2 := Slice(payload, 12, 14);
    var b3 := Slice(payload, 14, 16);
    var sensors := Slice(payload, 16, 28);
    var filters := Slice(payload, 28, 36);
    var power := ParseBits(b0, 0, 1);
    var fanSpeed := ParseBits(b0, 1, 3);
    var aiMode := ParseBits(b0, 4, 1);
    var sleepMode := ParseBits(b0, 5, 2);
    var inputOccurred := ParseBits(b0, 7, 1);
    var odor := ParseBits(b1, 0, 2);
    var pressureMode := ParseBits(b1, 2, 2);
    var wifi := ParseBits(b1, 5, 3);
    var fanIn := ParseBits(b2, 0, 1);
    var fanOut := ParseBits(b2, 1, 1);
    var reservedBits := ParseBits(b2, 2, 6);
    var fan1Alarm := ParseBits(b3, 0, 1);
    var fan2Alarm := ParseBits(b3, 1, 1);
    var dustSensorAlarm := ParseBits(b3, 2, 1);
    var co2SensorAlarm := ParseBits(b3, 3, 1);
    var filterAlarm := ParseBits(b3, 4, 1);
    var heatExchangerAlarm := ParseBits(b3, 5, 1);
    var co2 := ParseBits(sensors, 1, 13);
    var pm1 := ParseBits(sensors, 14, 10);
    var pm25 := ParseBits(sensors, 24, 10);
    var pm10 := ParseBits(sensors, 34, 10);
    var prefilter := ParseFilter(filters, 2, 14);
    var hepafilter := ParseFilter(filters, 18, 14);
    if power.Some? && fanSpeed.Some? && aiMode.Some? && sleepMode.Some? && inputOccurred.Some? &&
      odor.Some? && pressureMode.Some? && wifi.Some? && fanIn.Some? && fanOut.Some? &&
      reservedBits.Some? && fan1Alarm.Some? && fan2Alarm.Some? && dustSensorAlarm.Some? &&
      co2SensorAlarm.Some? && filterAlarm.Some? && heatExchangerAlarm.Some? && co2.Some? &&
      pm1.Some? && pm25.Some? && pm10.Some? && prefilter.Some? && hepafilter.Some? then
      Some(Status(
        power.value, fanSpeed.value, aiMode.value, sleepMode.value, inputOccurred.value,
        odor.value, pressureMode.value, wifi.value,
        fanIn.value, fanOut.value, reservedBits.value,
        fan1Alarm.value, fan2Alarm.value, dustSensorAlarm.value, co2SensorAlarm.value,
        filterAlarm.value, heatExchangerAlarm.value,
        co2.value, pm1.value, pm25.value, pm10.value,
        prefilter.value, hepafilter.value))
    else
      None
  }

  // ------------------------------------------------------------------------------------------
  // Decoder properties

  /**
   * Within the window, `_parse_bits` is arithmetic on `int(h, 16)`: drop the bits after the
   * field, then keep `length` bits.
   */
  lemma ParseBitsValue(h: string, start: nat, length: nat)
    requires IsHexNumeral(h) && length > 0 && start + length <= 4 * |h|
    ensures ParseBits(h, start, length) == Some(Bits(HexValue(h), 4 * |h| - start - length, length))
  {
    assert Min(start + length, 4 * |h|) == start + length;
    ParseBitsExpansion(h, start, length);
    ExpansionBits(h, start, length);
  }

  /** A bit window of the expansion of `h`, read as a number, is a field of `int(h, 16)`. */
  lemma ExpansionBits(h: string, start: nat, length: nat)
    requires IsHexNumeral(h) && start + length <= 4 * |h|
    ensures BinaryValue(Nibbles(h)[start..start + length]) == Bits(HexValue(h), 4 * |h| - start - length, length)
  {
    var b := Nibbles(h);
    assert |b| == 4 * |h|;
    NibblesValue(h);
    BinaryValueSlice(b, start, length);
  }

  /** A window of a frame whose characters 8 .. m - 1 are hex digits. */
  lemma HexWindow(p: string, m: nat, i: nat, j: nat)
    requires 8 <= m <= |p| && IsHex(p[8..m]) && 8 <= i <= j <= m
    ensures IsHex(Slice(p, i, j))
  {
    forall k | 0 <= k < |Slice(p, i, j)|
      ensures IsHexDigit(Slice(p, i, j)[k])
    {
      assert Slice(p, i, j)[k] == p[8..m][i + k - 8];
    }
  }

  /** Each window of a decoded frame is a hex numeral, and the last one has at least 5 digits. */
  lemma DecodedWindows(p: string)
    requires StartsWith(p, StatusPreamble)
    ensures ParseStatusPacket(p).Some? ==>
      IsHex(Slice(p, 8, 10)) && IsHex(Slice(p, 10, 12)) && IsHex(Slice(p, 12, 14))
      && IsHex(Slice(p, 14, 16)) && IsHex(Slice(p, 16, 28)) && IsHex(Slice(p, 28, 36))
      && |Slice(p, 28, 36)| >= 5
  {
  }

  /** A frame whose six windows are hex and whose last window has 5 digits is hex from 8 on. */
  lemma WindowsHexFrame(p: string)
    requires IsHex(Slice(p, 8, 10)) && IsHex(Slice(p, 10, 12)) && IsHex(Slice(p, 12, 14))
    requires IsHex(Slice(p, 14, 16)) && IsHex(Slice(p, 16, 28)) && IsHex(Slice(p, 28, 36))
    requires |Slice(p, 28, 36)| >= 5
    ensures |p| >= 33 && IsHex(p[8..Min(|p|, 36)])
  {
    var m := Min(|p|, 36);
    forall k | 8 <= k < m
      ensures IsHexDigit(p[k])
    {
      if k < 10 {
        assert p[k] == Slice(p, 8, 10)[k - 8];
      } else if k < 12 {
        assert p[k] == Slice(p, 10, 12)[k - 10];
      } else if k < 14 {
        assert p[k] == Slice(p, 12, 14)[k - 12];
      } else if k < 16 {
        assert p[k] == Slice(p, 14, 16)[k - 14];
      } else if k < 28 {
        assert p[k] == Slice(p, 16, 28)[k - 16];
      } else {
        assert p[k] == Slice(p, 28, 36)[k - 28];
      }
    }
  }

  /** Every frame of at least 33 characters, hex digits from 8 up to 36 or the end, decodes. */
  lemma HexFrameDecodes(p: string)
    requires StartsWith(p, StatusPreamble) && |p| >= 33 && IsHex(p[8..Min(|p|, 36)])
    ensures ParseStatusPacket(p).Some?
  {
    var m := Min(|p|, 36);
    HexWindow(p, m, 8, 10);
    HexWindow(p, m, 10, 12);
    HexWindow(p, m, 12, 14);
    HexWindow(p, m, 14, 16);
    HexWindow(p, m, 16, 28);
    HexWindow(p, m, 28, m);
    assert Slice(p, 28, 36) == Slice(p, 28, m);
  }

  /**
   * Decoding succeeds exactly when the frame has at least 33 characters and its characters
   * from 8 up to 36 (or the end) are hex digits. A frame of 33 to 35 characters therefore
   * decodes although its last window is short, and every frame of 32 characters or fewer
   * raises, because the window `28:36` then has no bit 16 for the HEPA reset flag.
   */
  lemma DecodeSucceedsIff(p: string)
    requires StartsWith(p, StatusPreamble)
    ensures ParseStatusPacket(p).Some? <==> |p| >= 33 && IsHex(p[8..Min(|p|, 36)])
  {
    if ParseStatusPacket(p).Some? {
      DecodedWindows(p);
      WindowsHexFrame(p);
    }
    if |p| >= 33 && IsHex(p[8..Min(|p|, 36)]) {
      HexFrameDecodes(p);
    }
  }

  /** The numeric value of the hex window `a:b` of a frame (0 when it is not hex). */
  function WindowValue(p: string, a: nat, b: nat): nat {
    var w := Slice(p, a, b);
    if IsHex(w) then HexValue(w) else 0
  }

  /** The field of `width` bits that ends `shift` bits above the least significant bit of `v`. */
  function Bits(v: nat, shift: nat, width: nat): nat {
    v / Pow2(shift) % Pow2(width)
  }

  /**
   * The byte at characters 8-9: power is its top bit, then three bits of fan speed, the AI
   * bit, two sleep bits and the input bit at the bottom.
   */
  lemma ByteZeroFields(h: string)
    requires |h| == 2 && IsHex(h)
    ensures var v := HexValue(h);
      ParseBits(h, 0, 1) == Some(Bits(v, 7, 1)) && ParseBits(h, 1, 3) == Some(Bits(v, 4, 3))
      && ParseBits(h, 4, 1) == Some(Bits(v, 3, 1)) && ParseBits(h, 5, 2) == Some(Bits(v, 1, 2))
      && ParseBits(h, 7, 1) == Some(Bits(v, 0, 1))
  {
    ParseBitsValue(h, 0, 1);
    ParseBitsValue(h, 1, 3);
    ParseBitsValue(h, 4, 1);
    ParseBitsValue(h, 5, 2);
    ParseBitsValue(h, 7, 1);
  }

  /** The byte at characters 10-11: two odor bits, two pressure bits, one unused bit, three wifi bits. */
  lemma ByteOneFields(h: string)
    requires |h| == 2 && IsHex(h)
    ensures var v := HexValue(h);
      ParseBits(h, 0, 2) == Some(Bits(v, 6, 2)) && ParseBits(h, 2, 2) == Some(Bits(v, 4, 2))
      && ParseBits(h, 5, 3) == Some(Bits(v, 0, 3))
  {
    ParseBitsValue(h, 0, 2);
    ParseBitsValue(h, 2, 2);
    ParseBitsValue(h, 5, 3);
  }

  /** The byte at characters 12-13: fan in, fan out and six reserved bits. */
  lemma ByteTwoFields(h: string)
    requires |h| == 2 && IsHex(h)
    ensures var v := HexValue(h);
      ParseBits(h, 0, 1) == Some(Bits(v, 7, 1)) && ParseBits(h, 1, 1) == Some(Bits(v, 6, 1))
      && ParseBits(h, 2, 6) == Some(Bits(v, 0, 6))
  {
    ParseBitsValue(h, 0, 1);
    ParseBitsValue(h, 1, 1);
    ParseBitsValue(h, 2, 6);
  }

  /** The byte at characters 14-15: the six alarm bits from the top, two unused bits. */
  lemma AlarmFields(h: string)
    requires |h| == 2 && IsHex(h)
    ensures var v := HexValue(h);
      ParseBits(h, 0, 1) == Some(Bits(v, 7, 1)) && ParseBits(h, 1, 1) == Some(Bits(v, 6, 1))
      && ParseBits(h, 2, 1) == Some(Bits(v, 5, 1)) && ParseBits(h, 3, 1) == Some(Bits(v, 4, 1))
      && ParseBits(h, 4, 1) == Some(Bits(v, 3, 1)) && ParseBits(h, 5, 1) == Some(Bits(v, 2, 1))
  {
    ParseBitsValue(h, 0, 1);
    ParseBitsValue(h, 1, 1);
    ParseBitsValue(h, 2, 1);
    ParseBitsValue(h, 3, 1);
    ParseBitsValue(h, 4, 1);
    ParseBitsValue(h, 5, 1);
  }

  /**
   * The 48 bits at characters 16-27: one unused bit, 13 bits of CO2, then 10 bits each of
   * PM1, PM2.5 and PM10, and four unused bits.
   */
  lemma SensorFields(h: string)
    requires |h| == 12 && IsHex(h)
    ensures var v := HexValue(h);
      ParseBits(h, 1, 13) == Some(Bits(v, 34, 13)) && ParseBits(h, 14, 10) == Some(Bits(v, 24, 10))
      && ParseBits(h, 24, 10) == Some(Bits(v, 14, 10)) && ParseBits(h, 34, 10) == Some(Bits(v, 4, 10))
  {
    ParseBitsValue(h, 1, 13);
    ParseBitsValue(h, 14, 10);
    ParseBitsValue(h, 24, 10);
    ParseBitsValue(h, 34, 10);
  }

  /**
   * The 32 bits at characters 28-35: per filter, the reset flag, one unused bit and 14 bits
   * of hours, prefilter first. The flag is the bit two places above the hours.
   */
  lemma FilterFields(h: string)
    requires |h| == 8 && IsHex(h)
    ensures var v := HexValue(h);
      ParseFilter(h, 2, 14) == Some(FilterStatus(Bits(v, 31, 1) == 1, Bits(v, 16, 14)))
      && ParseFilter(h, 18, 14) == Some(FilterStatus(Bits(v, 15, 1) == 1, Bits(v, 0, 14)))
  {
    PrefilterFields(h);
    HepaFields(h);
  }

  lemma PrefilterFields(h: string)
    requires |h| == 8 && IsHex(h)
    ensures var v := HexValue(h);
      ParseFilter(h, 2, 14) == Some(FilterStatus(Bits(v, 31, 1) == 1, Bits(v, 16, 14)))
  {
    var v := HexValue(h);
    ParseBitsValue(h, 0, 1);
    OneBitFlag(ParseBits(h, 0, 1), Bits(v, 31, 1));
    ParseBitsValue(h, 2, 14);
    ParseFilterOf(h, 2, 14, Bits(v, 31, 1) == 1, Bits(v, 16, 14));
  }

  lemma HepaFields(h: string)
    requires |h| == 8 && IsHex(h)
    ensures var v := HexValue(h);
      ParseFilter(h, 18, 14) == Some(FilterStatus(Bits(v, 15, 1) == 1, Bits(v, 0, 14)))
  {
    var v := HexValue(h);
    ParseBitsValue(h, 16, 1);
    OneBitFlag(ParseBits(h, 16, 1), Bits(v, 15, 1));
    ParseBitsValue(h, 18, 14);
    ParseFilterOf(h, 18, 14, Bits(v, 15, 1) == 1, Bits(v, 0, 14));
  }

  /** `_parse_filter` in terms of what its two reads return. */
  lemma ParseFilterOf(h: string, start: nat, length: nat, flag: bool, hours: nat)
    requires start >= 2 && ParseBits(h, start - 2, 1).Some? && (ParseBits(h, start - 2, 1).value != 0) == flag
    requires ParseBits(h, start, length) == Some(hours)
    ensures ParseFilter(h, start, length) == Some(FilterStatus(flag, hours))
  {
  }

  lemma OneBitFlag(x: Option<nat>, b: nat)
    requires x == Some(b) && b < Pow2(1)
    ensures x.Some? && (x.value != 0) == (b == 1)
  {
    assert Pow2(1) == 2;
  }

  /**
   * The status record as arithmetic on the window values: `b0` .. `b3` are the bytes at
   * characters 8-9, 10-11, 12-13 and 14-15, `sensors` the 48 bits at 16-27 and `filters` the
   * 32 bits at 28-35.
   */
  function FieldLayout(b0: nat, b1: nat, b2: nat, b3: nat, sensors: nat, filters: nat): Status {
    Status(
      Bits(b0, 7, 1), Bits(b0, 4, 3), Bits(b0, 3, 1), Bits(b0, 1, 2), Bits(b0, 0, 1),
      Bits(b1, 6, 2), Bits(b1, 4, 2), Bits(b1, 0, 3),
      Bits(b2, 7, 1), Bits(b2, 6, 1), Bits(b2, 0, 6),
      Bits(b3, 7, 1), Bits(b3, 6, 1), Bits(b3, 5, 1), Bits(b3, 4, 1), Bits(b3, 3, 1), Bits(b3, 2, 1),
      Bits(sensors, 34, 13), Bits(sensors, 24, 10), Bits(sensors, 14, 10), Bits(sensors, 4, 10),
      FilterStatus(Bits(filters, 31, 1) == 1, Bits(filters, 16, 14)),
      FilterStatus(Bits(filters, 15, 1) == 1, Bits(filters, 0, 14)))
  }

  /**
   * The field layout of a full frame: every field is a fixed bit range of one of six windows,
   * whose positions count the preamble's characters 0-7 although those are never read.
   */
  lemma StatusLayout(p: string)
    requires StartsWith(p, StatusPreamble) && |p| >= 36 && IsHex(p[8..36])
    ensures ParseStatusPacket(p) == Some(FieldLayout(
      WindowValue(p, 8, 10), WindowValue(p, 10, 12), WindowValue(p, 12, 14), WindowValue(p, 14, 16),
      WindowValue(p, 16, 28), WindowValue(p, 28, 36)))
  {
    HexWindow(p, 36, 8, 10);
    HexWindow(p, 36, 10, 12);
    HexWindow(p, 36, 12, 14);
    HexWindow(p, 36, 14, 16);
    HexWindow(p, 36, 16, 28);
    HexWindow(p, 36, 28, 36);
    ByteZeroFields(Slice(p, 8, 10));
    ByteOneFields(Slice(p, 10, 12));
    ByteTwoFields(Slice(p, 12, 14));
    AlarmFields(Slice(p, 14, 16));
    SensorFields(Slice(p, 16, 28));
    FilterFields(Slice(p, 28, 36));
  }

  /**
   * A frame of 33 to 35 characters decodes, but its HEPA hours are read from only
   * `4 * |p| - 130` bits (2, 6 or 10 instead of 14), so they stay below that power of two.
   */
  lemma ShortFrameHepaHours(p: string)
    requires StartsWith(p, StatusPreamble) && 33 <= |p| < 36 && IsHex(p[8..])
    ensures ParseStatusPacket(p).Some?
    ensures ParseStatusPacket(p).value.hepafilter.hours < Pow2(4 * |p| - 130)
  {
    HexFrameDecodes(p);
    ShortHepaWindow(p);
  }

  /** The hours of the HEPA record of a short frame are read from its last `4 * |p| - 130` bits. */
  lemma ShortHepaWindow(p: string)
    requires StartsWith(p, StatusPreamble) && 33 <= |p| < 36
    ensures ParseStatusPacket(p).Some? ==> ParseStatusPacket(p).value.hepafilter.hours < Pow2(4 * |p| - 130)
  {
    var k := Pow2(4 * |p| - 130);
    ShortWindowHours(p, k);
    DecodedHepaBound(p, k);
  }

  /** A bound on the hours read at bit 18 of characters 28-35 bounds the decoded HEPA hours. */
  lemma DecodedHepaBound(p: string, k: nat)
    requires StartsWith(p, StatusPreamble)
    requires ParseFilter(Slice(p, 28, 36), 18, 14).Some? ==> ParseFilter(Slice(p, 28, 36), 18, 14).value.hours < k
    ensures ParseStatusPacket(p).Some? ==> ParseStatusPacket(p).value.hepafilter.hours < k
  {
  }

  lemma ShortWindowHours(p: string, k: nat)
    requires 33 <= |p| < 36 && k == Pow2(4 * |p| - 130)
    ensures ParseFilter(Slice(p, 28, 36), 18, 14).Some? ==> ParseFilter(Slice(p, 28, 36), 18, 14).value.hours < k
  {
    var f := Slice(p, 28, 36);
    assert |f| == |p| - 28;
    FilterHoursWithin(f, 4 * |p| - 130, k);
  }

  lemma FilterHoursWithin(f: string, n: nat, k: nat)
    requires 5 <= |f| < 8 && n == 4 * |f| - 18 && k == Pow2(n)
    ensures ParseFilter(f, 18, 14).Some? ==> ParseFilter(f, 18, 14).value.hours < k
  {
    ShortFilterHours(f);
  }

  /** Hours read at bit 18 of a filter window of 5 to 7 digits have only `4 * |f| - 18` bits. */
  lemma ShortFilterHours(f: string)
    requires 5 <= |f| < 8
    ensures ParseFilter(f, 18, 14).Some? ==> ParseFilter(f, 18, 14).value.hours < Pow2(4 * |f| - 18)
  {
    if ParseFilter(f, 18, 14).Some? {
      var b := Nibbles(f)[18..4 * |f|];
      assert Min(32, 4 * |f|) == 4 * |f|;
      ParseBitsExpansion(f, 18, 14);
      FilterHoursBound(f, 18, 14, b);
    }
  }

  lemma FilterHoursBound(f: string, start: nat, length: nat, b: seq<Bit>)
    requires start >= 2 && ParseBits(f, start, length) == Some(BinaryValue(b))
    ensures ParseFilter(f, start, length).Some? ==> ParseFilter(f, start, length).value.hours < Pow2(|b|)
  {
  }
}
