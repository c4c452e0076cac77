/**
 * The command encoder of the appliance codec (`generate_command`).
 *
 * A call names the device and a sparse set of keyword arguments. The encoder finds the last
 * decoded state of the device in the integration's store, rewrites the arguments in a fixed
 * order (power mode, device mode, pressure label, fan label), merges them over that state
 * with defaults, packs three bit-field bytes, adds the filter-reset bytes and a checksum and
 * writes the 46-character upper-case hex `contents` of the command message.
 */
module Command {
  import opened Wrappers
  import opened Bitwise
  import opened Hex
  import opened Strings
  import opened Protocol

  // ------------------------------------------------------------------------------------------
  // Requests

  /** A keyword value that may be text or an integer (a pressure mode can be either). */
  datatype Arg = Label(text: string) | Number(n: int)

  /** The keyword arguments of one call; `None` is a key the caller did not pass. */
  datatype Request = Request(
    mode: Option<string>, deviceMode: Option<string>,
    power: Option<nat>, fanSpeed: Option<nat>, aiMode: Option<nat>, sleepMode: Option<nat>,
    pressureMode: Option<Arg>, fanMode: Option<string>, fanIn: Option<nat>, fanOut: Option<nat>,
    filterReset: Option<string>)

  /** The call without keyword arguments. */
  const NoArgs: Request := Request(None, None, None, None, None, None, None, None, None, None, None)

  /**
   * Step one: `mode` "on" or "off" sets the power key (and the mode key stays); any other
   * mode becomes the device mode, the mode key is dropped and power defaults to 1.
   */
  function ApplyMode(r: Request): (out: Request)
    ensures out.fanSpeed == r.fanSpeed && out.aiMode == r.aiMode && out.sleepMode == r.sleepMode
    ensures out.pressureMode == r.pressureMode && out.fanMode == r.fanMode
    ensures out.fanIn == r.fanIn && out.fanOut == r.fanOut && out.filterReset == r.filterReset
  {
    if r.mode.None? then r
    else if r.mode.value == "on" || r.mode.value == "off" then
      r.(power := Some(if r.mode.value == "on" then 1 else 0))
    else
      r.(deviceMode := r.mode, mode := None, power := if r.power.Some? then r.power else Some(1))
  }

  /** `int(mode.split()[1])` for a sleep label, and 1 when that raises. */
  function SleepLevel(text: string): nat {
    var words := Split(text);
    if |words| >= 2 && ParseInt(words[1]).Some? then ParseInt(words[1]).value else 1
  }

  /** Step two: the device mode sets the AI and sleep keys; an unknown one leaves them alone. */
  function ApplyDeviceMode(r: Request): (out: Request)
    ensures out.power == r.power && out.fanSpeed == r.fanSpeed
    ensures out.pressureMode == r.pressureMode && out.fanMode == r.fanMode
    ensures out.fanIn == r.fanIn && out.fanOut == r.fanOut && out.filterReset == r.filterReset
  {
    if r.deviceMode.None? then r
    else
      var m := r.deviceMode.value;
      if m == "Manual" then r.(aiMode := Some(0), sleepMode := Some(0))
      else if m == "Auto" then r.(aiMode := Some(1), sleepMode := Some(0))
      else if IsSubstring("Sleep", m) then r.(aiMode := Some(0), sleepMode := Some(SleepLevel(m)))
      else r
  }

  /**
   * Step three: the pressure-label table. Only the three bare labels map to a non-zero code
   * or to zero by name; every other value, an integer included, falls back to 0.
   */
  function PressureCode(a: Arg): (code: nat)
    ensures code < 3
    ensures code == 1 <==> a == Label("양압")
    ensures code == 2 <==> a == Label("음압")
  {
    if a == Label("정압") then 0
    else if a == Label("양압") then 1
    else if a == Label("음압") then 2
    else 0
  }

  /** Step four: the fan-label table from a label to the (fan in, fan out) bits, else (0, 0). */
  function FanBits(text: string): (bits: (nat, nat))
    ensures bits.0 < 2 && bits.1 < 2
    ensures bits == (0, 1) <==> text == "배기"
    ensures bits == (1, 0) <==> text == "흡기"
    ensures bits == (1, 1) <==> text == "흡/배기"
  {
    if text == "환기 꺼짐" then (0, 0)
    else if text == "배기" then (0, 1)
    else if text == "흡기" then (1, 0)
    else if text == "흡/배기" then (1, 1)
    else (0, 0)
  }

  /** The keys the rest of the encoder reads, after the four rewriting steps. */
  datatype Kwargs = Kwargs(
    power: Option<nat>, fanSpeed: Option<nat>, aiMode: Option<nat>, sleepMode: Option<nat>,
    pressureMode: Option<nat>, fanIn: Option<nat>, fanOut: Option<nat>,
    filterReset: Option<string>)

  /** The four rewriting steps, in the encoder's order. */
  function Rewrite(r: Request): (k: Kwargs)
    ensures k.fanSpeed == r.fanSpeed && k.filterReset == r.filterReset
    ensures k.pressureMode.Some? <==> r.pressureMode.Some?
    ensures r.pressureMode.Some? ==> k.pressureMode == Some(PressureCode(r.pressureMode.value))
    ensures r.fanMode.None? ==> k.fanIn == r.fanIn && k.fanOut == r.fanOut
    ensures r.fanMode.Some? ==>
      k.fanIn == Some(FanBits(r.fanMode.value).0) && k.fanOut == Some(FanBits(r.fanMode.value).1)
  {
    var d := ApplyDeviceMode(ApplyMode(r));
    var fan := if d.fanMode.Some? then Some(FanBits(d.fanMode.value)) else None;
    Kwargs(
      d.power, d.fanSpeed, d.aiMode, d.sleepMode,
      if d.pressureMode.Some? then Some(PressureCode(d.pressureMode.value)) else None,
      if fan.Some? then Some(fan.value.0) else d.fanIn,
      if fan.Some? then Some(fan.value.1) else d.fanOut,
      d.filterReset)
  }

  // ------------------------------------------------------------------------------------------
  // Merge over the prior state

  /** The seven values the packed bytes are made of. */
  datatype Fields = Fields(
    power: nat, fanSpeed: nat, aiMode: nat, sleepMode: nat, pressureMode: nat,
    fanIn: nat, fanOut: nat)

  /** What the encoder uses for a key that neither the request nor the state holds. */
  const Defaults: Fields := Fields(0, 4, 0, 0, 0, 0, 0)

  /**
   * The seven keys of the prior state; an empty state (`None`) holds none of them, so every
   * value is the default. The values of a decoded state fit their bit widths.
   */
  function StoredFields(prior: Option<Status>): (f: Fields)
    ensures prior.None? ==> f == Defaults
    ensures prior.Some? && WellFormed(prior.value) ==> Fits(f)
  {
    if prior.None? then Defaults
    else
      var s := prior.value;
      Fields(s.power, s.fanSpeed, s.aiMode, s.sleepMode, s.pressureMode, s.fanIn, s.fanOut)
  }

  /** `{**state, **kwargs}.get(key, default)` for each of the seven keys. */
  function Merge(prior: Option<Status>, k: Kwargs): Fields {
    var base := StoredFields(prior);
    Fields(
      k.power.GetOr(base.power), k.fanSpeed.GetOr(base.fanSpeed), k.aiMode.GetOr(base.aiMode),
      k.sleepMode.GetOr(base.sleepMode), k.pressureMode.GetOr(base.pressureMode),
      k.fanIn.GetOr(base.fanIn), k.fanOut.GetOr(base.fanOut))
  }

  /** Every value fits the bit width it has in the status layout. */
  predicate Fits(f: Fields) {
    f.power < 2 && f.fanSpeed < 8 && f.aiMode < 2 && f.sleepMode < 4 && f.pressureMode < 4
    && f.fanIn < 2 && f.fanOut < 2
  }

  // ------------------------------------------------------------------------------------------
  // Bytes and frame

  /** B5: power, fan speed, AI mode and sleep mode, with the low bit always set. */
  function B5(f: Fields): nat {
    Or(Or(Or(Or(Shl(f.power, 7), Shl(f.fanSpeed, 4)), Shl(f.aiMode, 3)), Shl(f.sleepMode, 1)), 1)
  }

  /** B6: the pressure code. */
  function B6(f: Fields): nat {
    Shl(f.pressureMode, 4)
  }

  /** B7: the fan-in and fan-out bits. */
  function B7(f: Fields): nat {
    Or(Shl(f.fanIn, 7), Shl(f.fanOut, 6))
  }

  /** The four filter bytes B15-B18. */
  datatype ResetBytes = ResetBytes(b15: nat, b16: nat, b17: nat, b18: nat)

  /**
   * No target clears all four bytes; "prefilter" writes 135 208 (87 D0) into B15-B16,
   * "hepafilter" writes 143 160 (8F A0) into B17-B18, and any other target makes the encoder
   * return `None` instead of a command.
   */
  function FilterResetBytes(target: Option<string>): (r: Option<ResetBytes>)
    ensures r.None? <==> target.Some? && target.value != "prefilter" && target.value != "hepafilter"
    ensures r.Some? ==> r.value.b15 < 256 && r.value.b16 < 256 && r.value.b17 < 256 && r.value.b18 < 256
    ensures target == None ==> r == Some(ResetBytes(0, 0, 0, 0))
    ensures target == Some("prefilter") ==> r == Some(ResetBytes(135, 208, 0, 0))
    ensures target == Some("hepafilter") ==> r == Some(ResetBytes(0, 0, 143, 160))
  {
    if target.None? then Some(ResetBytes(0, 0, 0, 0))
    else if target.value == "prefilter" then Some(ResetBytes(135, 208, 0, 0))
    else if target.value == "hepafilter" then Some(ResetBytes(0, 0, 143, 160))
    else None
  }

  /** The checksum base: decimal 393 (the unused constant elsewhere in the program is 0x393). */
  const ChecksumBase: nat := 393

  function Checksum(b5: nat, b6: nat, b7: nat, r: ResetBytes): nat {
    ChecksumBase + b5 + b6 + b7 + r.b15 + r.b16 + r.b17 + r.b18
  }

  /** The header of every command frame. */
  const CommandHeader: string := "A8A81722"

  /** The three packed bytes, two upper-case digits each when below 256. */
  function ByteDigits(b5: nat, b6: nat, b7: nat): seq<HexDigit> {
    FormatHex(b5, 2) + FormatHex(b6, 2) + FormatHex(b7, 2)
  }

  /** The four filter bytes. */
  function ResetDigits(r: ResetBytes): seq<HexDigit> {
    FormatHex(r.b15, 2) + FormatHex(r.b16, 2) + FormatHex(r.b17, 2) + FormatHex(r.b18, 2)
  }

  /** The `payload` f-string: `{b5:02X}{b6:02X}{b7:02X}{'00' * 7}{b15:02X}…{b18:02X}{'00' * 3}{checksum:04X}`. */
  function Payload(b5: nat, b6: nat, b7: nat, r: ResetBytes): seq<HexDigit> {
    ByteDigits(b5, b6, b7) + ZeroDigits(14) + ResetDigits(r) + ZeroDigits(6) + FormatHex(Checksum(b5, b6, b7, r), 4)
  }

  /** The `contents` string: the header, then the payload. */
  function Frame(b5: nat, b6: nat, b7: nat, r: ResetBytes): string {
    CommandHeader + Payload(b5, b6, b7, r)
  }

  /**
   * The contents of the command for request `req` over prior state `prior`, or `None` when
   * the filter-reset target is invalid.
   */
  function CommandContents(prior: Option<Status>, req: Request): (c: Option<string>)
    ensures c.None? <==> req.filterReset.Some? && req.filterReset.value != "prefilter" && req.filterReset.value != "hepafilter"
  {
    var k := Rewrite(req);
    var f := Merge(prior, k);
    var reset := FilterResetBytes(k.filterReset);
    if reset.None? then None else Some(Frame(B5(f), B6(f), B7(f), reset.value))
  }

  // ------------------------------------------------------------------------------------------
  // State lookup

  /** One entry of the integration's store: its key, its last decoded state and its topic. */
  datatype StoreEntry = StoreEntry(key: string, state: Option<Status>, commandTopic: Option<string>)

  /** An entry with a state and a non-empty topic whose key or topic contains the device id. */
  predicate Matches(e: StoreEntry, deviceId: string) {
    e.state.Some? && e.commandTopic.Some? && e.commandTopic.value != ""
    && (IsSubstring(deviceId, e.key) || IsSubstring(deviceId, e.commandTopic.value))
  }

  /** The position of the first matching entry, or the length when none matches. */
  function FirstMatch(entries: seq<StoreEntry>, deviceId: string): (i: nat)
    ensures i <= |entries|
    ensures forall j :: 0 <= j < i ==> !Matches(entries[j], deviceId)
    ensures i < |entries| ==> Matches(entries[i], deviceId)
  {
    if |entries| == 0 then 0
    else if Matches(entries[0], deviceId) then 0
    else 1 + FirstMatch(entries[1..], deviceId)
  }

  /** The state that the lookup loop settles on: the first match's, or the empty state. */
  function FindState(entries: seq<StoreEntry>, deviceId: string): (state: Option<Status>)
    ensures state.None? <==> forall j :: 0 <= j < |entries| ==> !Matches(entries[j], deviceId)
    ensures state.Some? ==> exists j :: 0 <= j < |entries| && Matches(entries[j], deviceId) && entries[j].state == state
  {
    var i := FirstMatch(entries, deviceId);
    if i < |entries| then entries[i].state else None
  }

  /**
   * `generate_command(device_id, hass, **kwargs)`: look up the prior state, rewrite the
   * arguments, merge and assemble. The contents it returns are those of the request over the
   * state the lookup finds.
   */
  method GenerateCommand(entries: seq<StoreEntry>, deviceId: string, request: Request)
    returns (contents: Option<string>)
    ensures contents == CommandContents(FindState(entries, deviceId), request)
  {
    var state := LookupState(entries, deviceId);
    var kwargs := RewriteArgs(request);
    contents := Assemble(state, kwargs);
  }

  /** The lookup loop: the state of the first entry that matches the device, or `{}`. */
  method LookupState(entries: seq<StoreEntry>, deviceId: string) returns (state: Option<Status>)
    ensures state == FindState(entries, deviceId)
  {
    state := None;
    var i := 0;
    while i < |entries|
      invariant i <= |entries|
      invariant state == None
      invariant forall j :: 0 <= j < i ==> !Matches(entries[j], deviceId)
    {
      if Matches(entries[i], deviceId) {
        state := entries[i].state;
        break;
      }
      i := i + 1;
    }
  }

  /** The in-place rewriting of the keyword arguments, one key after another. */
  method RewriteArgs(request: Request) returns (kwargs: Kwargs)
    ensures kwargs == Rewrite(request)
  {
    var mode, deviceMode := request.mode, request.deviceMode;
    var power, aiMode, sleepMode := request.power, request.aiMode, request.sleepMode;
    var fanIn, fanOut := request.fanIn, request.fanOut;
    if mode.Some? {
      if mode.value == "on" || mode.value == "off" {
        power := Some(if mode.value == "on" then 1 else 0);
      } else {
        deviceMode := mode;
        mode := None;
        if power.None? {
          power := Some(1);
        }
      }
    }
    if deviceMode.Some? {
      var m := deviceMode.value;
      if m == "Manual" {
        aiMode, sleepMode := Some(0), Some(0);
      } else if m == "Auto" {
        aiMode, sleepMode := Some(1), Some(0);
      } else if IsSubstring("Sleep", m) {
        aiMode, sleepMode := Some(0), Some(SleepLevel(m));
      }
    }
    var pressureMode: Option<nat> := None;
    if request.pressureMode.Some? {
      pressureMode := Some(PressureCode(request.pressureMode.value));
    }
    if request.fanMode.Some? {
      var bits := FanBits(request.fanMode.value);
      fanIn, fanOut := Some(bits.0), Some(bits.1);
    }
    kwargs := Kwargs(power, request.fanSpeed, aiMode, sleepMode, pressureMode, fanIn, fanOut, request.filterReset);
  }

  /** The merge, the three packed bytes, the filter bytes, the checksum and the frame. */
  method Assemble(state: Option<Status>, kwargs: Kwargs) returns (contents: Option<string>)
    ensures contents == (var reset := FilterResetBytes(kwargs.filterReset);
      var f := Merge(state, kwargs);
      if reset.None? then None else Some(Frame(B5(f), B6(f), B7(f), reset.value)))
  {
    var base := StoredFields(state);
    var f := Fields(
      kwargs.power.GetOr(base.power), kwargs.fanSpeed.GetOr(base.fanSpeed),
      kwargs.aiMode.GetOr(base.aiMode), kwargs.sleepMode.GetOr(base.sleepMode),
      kwargs.pressureMode.GetOr(base.pressureMode),
      kwargs.fanIn.GetOr(base.fanIn), kwargs.fanOut.GetOr(base.fanOut));
    var b5 := Or(Or(Or(Or(Shl(f.power, 7), Shl(f.fanSpeed, 4)), Shl(f.aiMode, 3)), Shl(f.sleepMode, 1)), 1);
    var b6 := Shl(f.pressureMode, 4);
    var b7 := Or(Shl(f.fanIn, 7), Shl(f.fanOut, 6));
    var b15, b16, b17, b18 := 0, 0, 0, 0;
    if kwargs.filterReset.Some? {
      var target := kwargs.filterReset.value;
      if target == "prefilter" {
        b15, b16 := 135, 208;
      } else if target == "hepafilter" {
        b17, b18 := 143, 160;
      } else {
        return None;
      }
    }
    assert f == Merge(state, kwargs) && b5 == B5(f) && b6 == B6(f) && b7 == B7(f);
    var reset := ResetBytes(b15, b16, b17, b18);
    assert FilterResetBytes(kwargs.filterReset) == Some(reset);
    var checksum := ChecksumBase + b5 + b6 + b7 + b15 + b16 + b17 + b18;
    assert checksum == Checksum(b5, b6, b7, reset);
    var payload := (FormatHex(b5, 2) + FormatHex(b6, 2) + FormatHex(b7, 2)) + ZeroDigits(14)
      + (FormatHex(b15, 2) + FormatHex(b16, 2) + FormatHex(b17, 2) + FormatHex(b18, 2))
      + ZeroDigits(6) + FormatHex(checksum, 4);
    contents := Some(CommandHeader + payload);
  }

  // ------------------------------------------------------------------------------------------
  // Properties of the rewriting steps

  /**
   * Power after rewriting: "on" and "off" force 1 and 0 whatever power was passed; any other
   * mode keeps a passed power and otherwise turns the device on; no mode keeps power as passed.
   */
  lemma ModeSetsPower(r: Request)
    ensures r.mode == Some("on") ==> Rewrite(r).power == Some(1)
    ensures r.mode == Some("off") ==> Rewrite(r).power == Some(0)
    ensures r.mode.Some? && r.mode.value != "on" && r.mode.value != "off" ==>
      Rewrite(r).power == Some(r.power.GetOr(1))
    ensures r.mode.None? ==> Rewrite(r).power == r.power
  {
  }

  /** The device mode the second step sees: a mode other than on/off replaces a passed one. */
  function EffectiveDeviceMode(r: Request): Option<string> {
    if r.mode.Some? && r.mode.value != "on" && r.mode.value != "off" then r.mode else r.deviceMode
  }

  /**
   * The (AI, sleep) keys after rewriting: Manual gives (0, 0), Auto (1, 0), a label containing
   * "Sleep" (0, its level), and any other label or no device mode leaves both as passed.
   */
  lemma DeviceModePairs(r: Request)
    ensures EffectiveDeviceMode(r) == Some("Manual") ==> Rewrite(r).aiMode == Some(0) && Rewrite(r).sleepMode == Some(0)
    ensures EffectiveDeviceMode(r) == Some("Auto") ==> Rewrite(r).aiMode == Some(1) && Rewrite(r).sleepMode == Some(0)
    ensures var m := EffectiveDeviceMode(r);
      (m.Some? && m.value != "Manual" && m.value != "Auto" && IsSubstring("Sleep", m.value)) ==>
      (Rewrite(r).aiMode == Some(0) && Rewrite(r).sleepMode == Some(SleepLevel(m.value)))
    ensures var m := EffectiveDeviceMode(r);
      (m.None? || (m.value != "Manual" && m.value != "Auto" && !IsSubstring("Sleep", m.value))) ==>
      (Rewrite(r).aiMode == r.aiMode && Rewrite(r).sleepMode == r.sleepMode)
  {
  }

  /** "Sleep N" reads back as level N. */
  lemma SleepLevelOf(n: nat)
    ensures SleepLevel("Sleep " + DecimalString(n)) == n
  {
    var digits := DecimalString(n);
    assert NoSpace("Sleep");
    assert "Sleep " + digits == "Sleep" + " " + digits;
    SplitTwoWords("Sleep", digits);
  }

  /** A label of one word, such as "Sleep", has no second word and falls back to level 1. */
  lemma SleepLevelOneWord(w: string)
    requires |w| > 0 && NoSpace(w)
    ensures SleepLevel(w) == 1
  {
    SplitFirstWord(w, []);
    assert w + [] == w;
  }

  /** "Sleep w" whose second word is not a number falls back to level 1 (the `except`). */
  lemma SleepLevelNonNumeric(w: string)
    requires |w| > 0 && NoSpace(w) && !AllDigits(w)
    ensures SleepLevel("Sleep " + w) == 1
  {
    assert NoSpace("Sleep");
    assert "Sleep " + w == "Sleep" + " " + w;
    SplitTwoWords("Sleep", w);
  }

  /**
   * The merge: a key the rewritten request holds wins; otherwise the prior state's value is
   * used; with no prior state the default (fan speed 4, everything else 0) is used.
   */
  lemma MergePrecedence(prior: Option<Status>, k: Kwargs)
    ensures k.power.Some? ==> Merge(prior, k).power == k.power.value
    ensures k.fanSpeed.Some? ==> Merge(prior, k).fanSpeed == k.fanSpeed.value
    ensures k.aiMode.Some? ==> Merge(prior, k).aiMode == k.aiMode.value
    ensures k.sleepMode.Some? ==> Merge(prior, k).sleepMode == k.sleepMode.value
    ensures k.pressureMode.Some? ==> Merge(prior, k).pressureMode == k.pressureMode.value
    ensures k.fanIn.Some? ==> Merge(prior, k).fanIn == k.fanIn.value
    ensures k.fanOut.Some? ==> Merge(prior, k).fanOut == k.fanOut.value
    ensures k == Kwargs(None, None, None, None, None, None, None, k.filterReset) ==>
      Merge(prior, k) == StoredFields(prior)
    ensures prior.Some? && k.power.None? ==> Merge(prior, k).power == prior.value.power
    ensures prior.Some? && k.fanSpeed.None? ==> Merge(prior, k).fanSpeed == prior.value.fanSpeed
    ensures prior.Some? && k.aiMode.None? ==> Merge(prior, k).aiMode == prior.value.aiMode
    ensures prior.Some? && k.sleepMode.None? ==> Merge(prior, k).sleepMode == prior.value.sleepMode
    ensures prior.Some? && k.pressureMode.None? ==> Merge(prior, k).pressureMode == prior.value.pressureMode
    ensures prior.Some? && k.fanIn.None? ==> Merge(prior, k).fanIn == prior.value.fanIn
    ensures prior.Some? && k.fanOut.None? ==> Merge(prior, k).fanOut == prior.value.fanOut
    ensures prior.None? ==> Merge(prior, k) == Fields(k.power.GetOr(0), k.fanSpeed.GetOr(4),
      k.aiMode.GetOr(0), k.sleepMode.GetOr(0), k.pressureMode.GetOr(0), k.fanIn.GetOr(0), k.fanOut.GetOr(0))
  {
  }

  /** A well-formed prior state and request values within their widths merge into fitting values. */
  lemma MergeFits(prior: Option<Status>, k: Kwargs)
    requires prior.Some? ==> WellFormed(prior.value)
    requires k.power.GetOr(0) < 2 && k.fanSpeed.GetOr(0) < 8 && k.aiMode.GetOr(0) < 2
    requires k.sleepMode.GetOr(0) < 4 && k.pressureMode.GetOr(0) < 4
    requires k.fanIn.GetOr(0) < 2 && k.fanOut.GetOr(0) < 2
    ensures Fits(Merge(prior, k))
  {
  }

  // ------------------------------------------------------------------------------------------
  // Properties of the packed bytes and the frame

  /**
   * When every value fits its width the shifted fields do not overlap, so each `|` is a sum and
   * every byte stays below 256.
   */
  lemma PackBytes(f: Fields)
    requires Fits(f)
    ensures B5(f) == 128 * f.power + 16 * f.fanSpeed + 8 * f.aiMode + 2 * f.sleepMode + 1
    ensures B6(f) == 16 * f.pressureMode
    ensures B7(f) == 128 * f.fanIn + 64 * f.fanOut
    ensures B5(f) < 256 && B6(f) < 256 && B7(f) < 256
  {
    Pow2Table();
    var p, s, a, l := Shl(f.power, 7), Shl(f.fanSpeed, 4), Shl(f.aiMode, 3), Shl(f.sleepMode, 1);
    assert p == 128 * f.power && s == 16 * f.fanSpeed && a == 8 * f.aiMode && l == 2 * f.sleepMode;
    var o1 := Or(p, s);
    OrStep(p, s, 7, f.power);
    var o2 := Or(o1, a);
    OrStep(o1, a, 4, 8 * f.power + f.fanSpeed);
    var o3 := Or(o2, l);
    OrStep(o2, l, 3, 16 * f.power + 2 * f.fanSpeed + f.aiMode);
    OrStep(o3, 1, 1, 64 * f.power + 8 * f.fanSpeed + 4 * f.aiMode + f.sleepMode);
    assert B5(f) == Or(o3, 1);
    OrStep(Shl(f.fanIn, 7), Shl(f.fanOut, 6), 7, f.fanIn);
  }

  /** A value below `16^w` is written with exactly `w` digits; a larger one with more. */
  lemma FormatHexLength(n: nat, w: nat)
    requires w > 0
    ensures |FormatHex(n, w)| == w <==> n < Pow2(4 * w)
  {
    var r := FormatHex(n, w);
    if |r| == w {
      assert HexValue(r) < Pow2(4 * w);
    }
  }

  /** The three packed bytes, two digits each, when every one is below 256. */
  lemma ByteDigitsLayout(b5: nat, b6: nat, b7: nat)
    requires b5 < 256 && b6 < 256 && b7 < 256
    ensures var h := ByteDigits(b5, b6, b7);
      |h| == 6 && h[0..2] == FormatHex(b5, 2) && h[2..4] == FormatHex(b6, 2) && h[4..6] == FormatHex(b7, 2)
  {
    Pow2Table();
    var x, y, z := FormatHex(b5, 2), FormatHex(b6, 2), FormatHex(b7, 2);
    SliceConcat(x + y, z, 0, 2);
    SliceConcat(x, y, 0, 2);
    SliceConcat(x + y, z, 2, 4);
    SliceConcat(x, y, 2, 4);
    SliceConcat(x + y, z, 4, 6);
  }

  /** The four filter bytes, two digits each. */
  lemma ResetDigitsLayout(r: ResetBytes)
    requires r.b15 < 256 && r.b16 < 256 && r.b17 < 256 && r.b18 < 256
    ensures var d := ResetDigits(r);
      |d| == 8 && d[0..2] == FormatHex(r.b15, 2) && d[2..4] == FormatHex(r.b16, 2)
      && d[4..6] == FormatHex(r.b17, 2) && d[6..8] == FormatHex(r.b18, 2)
  {
    Pow2Table();
    var w, x, y, z := FormatHex(r.b15, 2), FormatHex(r.b16, 2), FormatHex(r.b17, 2), FormatHex(r.b18, 2);
    SliceConcat(w + x + y, z, 0, 2);
    SliceConcat(w + x, y, 0, 2);
    SliceConcat(w, x, 0, 2);
    SliceConcat(w + x + y, z, 2, 4);
    SliceConcat(w + x, y, 2, 4);
    SliceConcat(w, x, 2, 4);
    SliceConcat(w + x + y, z, 4, 6);
    SliceConcat(w + x, y, 4, 6);
    SliceConcat(w + x + y, z, 6, 8);
  }

  /**
   * Where the packed bytes, the seven zero bytes, the filter bytes, the three zero bytes and
   * the checksum sit when every byte is below 256.
   */
  lemma PayloadLayout(b5: nat, b6: nat, b7: nat, r: ResetBytes)
    requires b5 < 256 && b6 < 256 && b7 < 256
    requires r.b15 < 256 && r.b16 < 256 && r.b17 < 256 && r.b18 < 256
    ensures var s := Payload(b5, b6, b7, r);
      |s| == 38 && s[..6] == ByteDigits(b5, b6, b7) && s[6..20] == ZeroDigits(14)
      && s[20..28] == ResetDigits(r) && s[28..34] == ZeroDigits(6)
      && s[34..] == FormatHex(Checksum(b5, b6, b7, r), 4)
  {
    DigitLengths(b5, b6, b7, r);
    Chunks(ByteDigits(b5, b6, b7), ZeroDigits(14), ResetDigits(r), ZeroDigits(6), FormatHex(Checksum(b5, b6, b7, r), 4));
  }

  lemma DigitLengths(b5: nat, b6: nat, b7: nat, r: ResetBytes)
    requires b5 < 256 && b6 < 256 && b7 < 256
    requires r.b15 < 256 && r.b16 < 256 && r.b17 < 256 && r.b18 < 256
    ensures |ByteDigits(b5, b6, b7)| == 6 && |ResetDigits(r)| == 8 && |FormatHex(Checksum(b5, b6, b7, r), 4)| == 4
  {
    assert Pow2(8) == 256;
    assert Pow2(16) == 65536;
  }

  /**
   * The frame has 46 characters exactly when the three packed bytes are below 256: the filter
   * bytes always are, and then the checksum has four digits. A larger byte widens its field.
   */
  lemma FrameLength(b5: nat, b6: nat, b7: nat, r: ResetBytes)
    requires r.b15 < 256 && r.b16 < 256 && r.b17 < 256 && r.b18 < 256
    ensures |Frame(b5, b6, b7, r)| == 46 <==> b5 < 256 && b6 < 256 && b7 < 256
  {
    Pow2Table();
    ResetDigitsLayout(r);
    FormatHexLength(b5, 2);
    FormatHexLength(b6, 2);
    FormatHexLength(b7, 2);
    var c := FormatHex(Checksum(b5, b6, b7, r), 4);
    assert |Frame(b5, b6, b7, r)| == 8 + |ByteDigits(b5, b6, b7)| + 14 + 8 + 6 + |c|;
    assert |ByteDigits(b5, b6, b7)| == |FormatHex(b5, 2)| + |FormatHex(b6, 2)| + |FormatHex(b7, 2)|;
    if b5 < 256 && b6 < 256 && b7 < 256 {
      assert Checksum(b5, b6, b7, r) < Pow2(16);
    }
  }

  /**
   * A frame whose bytes are all below 256 starts with the command header and carries the
   * three packed bytes, seven zero bytes, the four filter bytes and three zero bytes at fixed
   * places.
   */
  lemma FrameFields(b5: nat, b6: nat, b7: nat, r: ResetBytes)
    requires b5 < 256 && b6 < 256 && b7 < 256
    requires r.b15 < 256 && r.b16 < 256 && r.b17 < 256 && r.b18 < 256
    ensures var c := Frame(b5, b6, b7, r);
      |c| == 46 && c[..8] == CommandHeader && c[8..14] == ByteDigits(b5, b6, b7)
      && c[14..28] == ZeroDigits(14) && c[28..36] == ResetDigits(r) && c[36..42] == ZeroDigits(6)
  {
    PayloadLayout(b5, b6, b7, r);
    FrameHead(CommandHeader, Payload(b5, b6, b7, r), ByteDigits(b5, b6, b7), ResetDigits(r));
  }

  /**
   * The last four digits of such a frame are the checksum 393 + B5 + B6 + B7 + B15 + … + B18,
   * written in uppercase hex (whose value `FormatHex` guarantees).
   */
  lemma FrameChecksum(b5: nat, b6: nat, b7: nat, r: ResetBytes)
    requires b5 < 256 && b6 < 256 && b7 < 256
    requires r.b15 < 256 && r.b16 < 256 && r.b17 < 256 && r.b18 < 256
    ensures var c := Frame(b5, b6, b7, r);
      |c| == 46 && c[42..46] == FormatHex(Checksum(b5, b6, b7, r), 4)
  {
    PayloadLayout(b5, b6, b7, r);
    FrameTail(CommandHeader, Payload(b5, b6, b7, r), FormatHex(Checksum(b5, b6, b7, r), 4));
  }

  lemma FrameHead(hd: string, s: seq<HexDigit>, x: seq<HexDigit>, y: seq<HexDigit>)
    requires |hd| == 8 && |s| == 38 && s[..6] == x && s[6..20] == ZeroDigits(14)
    requires s[20..28] == y && s[28..34] == ZeroDigits(6)
    ensures var c := hd + s;
      |c| == 46 && c[..8] == hd && c[8..14] == x
      && c[14..28] == ZeroDigits(14) && c[28..36] == y && c[36..42] == ZeroDigits(6)
  {
    var c := hd + s;
    assert c[8..14] == s[..6];
    assert c[14..28] == s[6..20];
    assert c[28..36] == s[20..28];
    assert c[36..42] == s[28..34];
  }

  lemma FrameTail(hd: string, s: seq<HexDigit>, t: seq<HexDigit>)
    requires |hd| == 8 && |s| == 38 && s[34..] == t
    ensures var c := hd + s; |c| == 46 && c[42..46] == t
  {
    var c := hd + s;
    assert c[42..46] == s[34..];
  }

  /**
   * The command for `{power: 1, fan_speed: 3}` over an empty state: the header, B5 = B1,
   * B6 = B7 = 00, seven zero bytes, four zero filter bytes, three zero bytes and the
   * checksum 023A (393 + 0xB1 = 570).
   */
  lemma PowerOnFanThreeExample()
    ensures CommandContents(None, NoArgs.(power := Some(1), fanSpeed := Some(3)))
      == Some("A8A81722" + ("B1" + "00" + "00" + "00000000000000" + ("00" + "00" + "00" + "00") + "000000" + "023A"))
  {
    ExampleBytes();
    ExampleFrame();
  }

  /** The frame of those bytes, numeral by numeral. */
  lemma ExampleFrame()
    ensures Frame(177, 0, 0, ResetBytes(0, 0, 0, 0)) == "A8A81722" + ("B1" + "00" + "00" + "00000000000000" + ("00" + "00" + "00" + "00") + "000000" + "023A")
  {
    ExampleDigits();
    var zero := ResetBytes(0, 0, 0, 0);
    assert Checksum(177, 0, 0, zero) == 570;
    FrameOfDigits(177, 0, 0, zero, "B1", "00", "00", "00", "00", "00", "00", "023A");
    assert ZeroDigits(14) == "00000000000000";
    assert ZeroDigits(6) == "000000";
  }

  /** A frame spelled out from the numerals of its bytes. */
  lemma FrameOfDigits(b5: nat, b6: nat, b7: nat, r: ResetBytes,
                      h5: seq<HexDigit>, h6: seq<HexDigit>, h7: seq<HexDigit>, h15: seq<HexDigit>,
                      h16: seq<HexDigit>, h17: seq<HexDigit>, h18: seq<HexDigit>, hc: seq<HexDigit>)
    requires FormatHex(b5, 2) == h5 && FormatHex(b6, 2) == h6 && FormatHex(b7, 2) == h7
    requires FormatHex(r.b15, 2) == h15 && FormatHex(r.b16, 2) == h16
    requires FormatHex(r.b17, 2) == h17 && FormatHex(r.b18, 2) == h18
    requires FormatHex(Checksum(b5, b6, b7, r), 4) == hc
    ensures Frame(b5, b6, b7, r)
      == CommandHeader + (h5 + h6 + h7 + ZeroDigits(14) + (h15 + h16 + h17 + h18) + ZeroDigits(6) + hc)
  {
  }

  /** Over an empty state the request packs to B5 = 0xB1, B6 = B7 = 0, with no reset bytes. */
  lemma ExampleBytes()
    ensures CommandContents(None, NoArgs.(power := Some(1), fanSpeed := Some(3)))
      == Some(Frame(177, 0, 0, ResetBytes(0, 0, 0, 0)))
  {
    var req := NoArgs.(power := Some(1), fanSpeed := Some(3));
    var k := Rewrite(req);
    assert k == Kwargs(Some(1), Some(3), None, None, None, None, None, None);
    var f := Merge(None, k);
    assert f == Fields(1, 3, 0, 0, 0, 0, 0);
    PackBytes(f);
  }

  /** The three hex numerals of the example. */
  lemma ExampleDigits()
    ensures FormatHex(177, 2) == "B1" && FormatHex(0, 2) == "00" && FormatHex(570, 4) == "023A"
  {
    ByteNumeral(177, "B1");
    ByteNumeral(0, "00");
    ExampleChecksumDigits();
  }

  lemma ExampleChecksumDigits()
    ensures FormatHex(570, 4) == "023A"
  {
    assert HexValue("02") == 2;
    assert "023A"[..3] == "023" && "023"[..2] == "02";
    assert HexValue("023A") == 16 * HexValue("023") + 10 == 570;
    FormatHexDigits(570, 4, "023A");
  }

  /** A two-digit numeral of `n`. */
  lemma ByteNumeral(n: nat, s: seq<HexDigit>)
    requires |s| == 2 && IsUpper(s) && 16 * DigitValue(s[0]) + DigitValue(s[1]) == n
    ensures FormatHex(n, 2) == s
  {
    assert s[..1][..0] == [];
    FormatHexDigits(n, 2, s);
  }
}
