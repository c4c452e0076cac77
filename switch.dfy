/**
 * The power switch. Switching off remembers the device mode (and, in manual mode, the fan
 * speed) in the device's record and sends `mode="off"`; switching on sends `mode="on"` with
 * the remembered mode, and the remembered fan speed when that mode is manual. Each call does
 * nothing when the device is already in the requested power state. Sending a command is
 * modelled as appending its keyword arguments to `published`.
 */
module Switch {
  import opened Wrappers
  import opened Strings
  import opened Protocol
  import opened Command
  import opened Entry

  /** The keyword arguments of the power-off command. */
  const OffRequest: Request := NoArgs.(mode := Some("off"))

  /**
   * The keyword arguments of the power-on command: the saved device mode ("Manual" when none
   * was saved) and, for manual mode only, the saved fan speed (4 when none was saved).
   */
  function RestoreRequest(saved: Option<string>, fan: Option<nat>): Request {
    var mode := saved.GetOr("Manual");
    if mode == "Manual" then NoArgs.(mode := Some("on"), fanSpeed := Some(fan.GetOr(4)), deviceMode := Some(mode))
    else NoArgs.(mode := Some("on"), deviceMode := Some(mode))
  }

  /**
   * The device mode switching off records: "Auto" when the AI mode is 1, otherwise "Sleep N"
   * for a sleep level N of 1 to 3, otherwise the state's device mode, which a decoded state
   * never holds, so "Manual".
   */
  function RecordedMode(state: Option<Status>): string {
    if state.Some? && state.value.aiMode == 1 then "Auto"
    else if state.Some? && state.value.sleepMode == 1 then "Sleep 1"
    else if state.Some? && state.value.sleepMode == 2 then "Sleep 2"
    else if state.Some? && state.value.sleepMode == 3 then "Sleep 3"
    else "Manual"
  }

  class PowerSwitch {
    /** The record of the switch's device. */
    const entry: EntryData
    /** Whether the device has reported a state. */
    var available: bool
    /** The keyword arguments of every command sent, oldest first. */
    var published: seq<Request>

    constructor (entry: EntryData)
      ensures this.entry == entry && available && published == []
    {
      this.entry := entry;
      available := true;
      published := [];
    }

    /** A state update: the switch is available once a state has been stored. */
    method HandleUpdate()
      modifies this
      ensures available == entry.state.Some? && published == old(published)
    {
      available := entry.state.Some?;
    }

    /** The switch is on exactly when the stored power, 0 when there is none, is non-zero. */
    function IsOn(): (on: bool)
      reads entry
      ensures on <==> StoredFields(entry.state).power != 0
    {
      entry.state.Some? && entry.state.value.power != 0
    }

    /**
     * Switching off: when the device is on, record the device mode, record the stored fan
     * speed (4 when there is none) if that mode is "Manual" and the speed is non-zero, and
     * send `mode="off"`; when it is already off, change nothing.
     */
    method TurnOff()
      modifies this, entry
      ensures entry.state == old(entry.state) && available == old(available)
      ensures !old(IsOn()) ==> (entry.lastDeviceMode == old(entry.lastDeviceMode)
        && entry.lastFanSpeed == old(entry.lastFanSpeed) && published == old(published))
      ensures old(IsOn()) ==> entry.lastDeviceMode == Some(RecordedMode(entry.state))
      ensures old(IsOn()) ==> (entry.lastFanSpeed ==
        if RecordedMode(entry.state) == "Manual" && StoredFields(entry.state).fanSpeed != 0
        then Some(StoredFields(entry.state).fanSpeed) else old(entry.lastFanSpeed))
      ensures old(IsOn()) ==> published == old(published) + [OffRequest]
    {
      if !IsOn() {
        return;
      }
      var state := entry.state;
      var mode: string;
      if state.Some? && state.value.aiMode == 1 {
        mode := "Auto";
      } else if state.Some? && state.value.sleepMode == 1 {
        mode := "Sleep 1";
      } else if state.Some? && state.value.sleepMode == 2 {
        mode := "Sleep 2";
      } else if state.Some? && state.value.sleepMode == 3 {
        mode := "Sleep 3";
      } else {
        mode := "Manual";
      }
      entry.lastDeviceMode := Some(mode);
      if mode == "Manual" {
        var fan := if state.Some? then state.value.fanSpeed else 4;
        if fan != 0 {
          entry.lastFanSpeed := Some(fan);
        }
      }
      published := published + [OffRequest];
    }

    /**
     * Switching on: when the device is off, send `mode="on"` with the saved device mode and,
     * for manual mode, the saved fan speed; when it is already on, change nothing.
     */
    method TurnOn()
      modifies this
      ensures available == old(available)
      ensures IsOn() ==> published == old(published)
      ensures !IsOn() ==> published == old(published) + [RestoreRequest(entry.lastDeviceMode, entry.lastFanSpeed)]
    {
      if IsOn() {
        return;
      }
      var mode := entry.lastDeviceMode.GetOr("Manual");
      var request;
      if mode == "Manual" {
        var fan := entry.lastFanSpeed.GetOr(4);
        request := NoArgs.(mode := Some("on"), fanSpeed := Some(fan), deviceMode := Some(mode));
      } else {
        request := NoArgs.(mode := Some("on"), deviceMode := Some(mode));
      }
      published := published + [request];
    }
  }

  /**
   * The power-off command always encodes: it packs power 0 and takes every other value from
   * the stored state (or the defaults).
   */
  lemma OffEncodesPowerZero(state: Option<Status>)
    ensures CommandContents(state, OffRequest).Some?
    ensures Merge(state, Rewrite(OffRequest)) == StoredFields(state).(power := 0)
  {
  }

  /** The sleep labels, "Sleep 1" to "Sleep 3", contain "Sleep" and read back as their levels. */
  lemma SleepName(n: nat, text: string)
    requires (n == 1 && text == "Sleep 1") || (n == 2 && text == "Sleep 2") || (n == 3 && text == "Sleep 3")
    ensures IsSubstring("Sleep", text) && SleepLevel(text) == n
  {
    if n == 1 {
      assert DecimalString(1) == "1";
    } else if n == 2 {
      assert DecimalString(2) == "2";
    } else {
      assert DecimalString(3) == "3";
    }
    SleepLabel(n, text);
  }

  /** The label "Sleep N" of a level written with one digit. */
  lemma SleepLabel(n: nat, text: string)
    requires n < 10 && text == "Sleep " + DecimalString(n)
    ensures IsSubstring("Sleep", text) && SleepLevel(text) == n
  {
    SleepLevelOf(n);
    assert text[..5] == "Sleep";
  }

  /**
   * Off-then-on restore: the power-on command for the mode recorded at power-off packs power 1
   * and the (AI, sleep) pair Auto (1, 0), Sleep N (0, N) or Manual (0, 0), the saved fan speed
   * (4 when none) in manual mode and the current fan speed otherwise, and the current state's
   * pressure and fan bits.
   */
  lemma RestorePair(atOff: Option<Status>, fan: Option<nat>, now: Option<Status>)
    ensures var a, l := StoredFields(atOff).aiMode, StoredFields(atOff).sleepMode;
      var g := Merge(now, Rewrite(RestoreRequest(Some(RecordedMode(atOff)), fan)));
      g.power == 1 && g.aiMode == (if a == 1 then 1 else 0)
      && g.sleepMode == (if a != 1 && 1 <= l <= 3 then l else 0)
      && (RecordedMode(atOff) == "Manual" ==> g.fanSpeed == fan.GetOr(4))
      && (RecordedMode(atOff) != "Manual" ==> g.fanSpeed == StoredFields(now).fanSpeed)
      && g.pressureMode == StoredFields(now).pressureMode
      && g.fanIn == StoredFields(now).fanIn && g.fanOut == StoredFields(now).fanOut
  {
    var a, l := StoredFields(atOff).aiMode, StoredFields(atOff).sleepMode;
    if a == 1 {
      assert RecordedMode(atOff) == "Auto";
      RestoreMode(now, fan, "Auto", 1, 0);
    } else if 1 <= l <= 3 {
      var text := if l == 1 then "Sleep 1" else if l == 2 then "Sleep 2" else "Sleep 3";
      assert RecordedMode(atOff) == text;
      SleepName(l, text);
      RestoreMode(now, fan, text, 0, l);
    } else {
      assert RecordedMode(atOff) == "Manual";
      RestoreMode(now, fan, "Manual", 0, 0);
    }
  }

  /** The power-on command for a device mode whose (AI, sleep) pair is (`a`, `l`). */
  lemma RestoreMode(now: Option<Status>, fan: Option<nat>, m: string, a: nat, l: nat)
    requires m == "Manual" ==> a == 0 && l == 0
    requires m == "Auto" ==> a == 1 && l == 0
    requires m != "Manual" && m != "Auto" ==> a == 0 && IsSubstring("Sleep", m) && SleepLevel(m) == l
    requires m != "on" && m != "off"
    ensures var g := Merge(now, Rewrite(RestoreRequest(Some(m), fan)));
      g.power == 1 && g.aiMode == a && g.sleepMode == l
      && (m == "Manual" ==> g.fanSpeed == fan.GetOr(4))
      && (m != "Manual" ==> g.fanSpeed == StoredFields(now).fanSpeed)
      && g.pressureMode == StoredFields(now).pressureMode
      && g.fanIn == StoredFields(now).fanIn && g.fanOut == StoredFields(now).fanOut
  {
  }

  /** With nothing saved, switching on restores manual mode at fan speed 4. */
  lemma RestoreDefault(now: Option<Status>)
    ensures var g := Merge(now, Rewrite(RestoreRequest(None, None)));
      g.power == 1 && g.aiMode == 0 && g.sleepMode == 0 && g.fanSpeed == 4
  {
  }
}
