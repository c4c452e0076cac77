/**
 * The three select entities: the device mode (Manual, Auto, Sleep 1-3), the fan mode (the
 * ventilation direction) and the pressure mode. Each shows an option derived from the stored
 * state and sends the chosen option to the encoder; sending a command is modelled as
 * appending its keyword arguments to `published`.
 */
module Select {
  import opened Wrappers
  import opened Bitwise
  import opened Strings
  import opened Protocol
  import opened Command
  import opened Entry
  import opened Switch

  // ------------------------------------------------------------------------------------------
  // Device mode

  /** The device-mode options, in display order. */
  const DeviceModes: seq<string> := ["Manual", "Auto", "Sleep 1", "Sleep 2", "Sleep 3"]

  /**
   * The option shown for an (AI, sleep) pair: "Auto" when the AI mode is 1, otherwise
   * "Sleep N" for a sleep level N of 1 to 3, otherwise "Manual".
   */
  function DisplayMode(aiMode: nat, sleepMode: nat): (option: string)
    ensures option in DeviceModes
  {
    if aiMode == 1 then "Auto"
    else if sleepMode == 1 then "Sleep 1"
    else if sleepMode == 2 then "Sleep 2"
    else if sleepMode == 3 then "Sleep 3"
    else "Manual"
  }

  /** The keyword arguments for choosing `option`: `mode=option`. */
  function ModeRequest(option: string): Request {
    NoArgs.(mode := Some(option))
  }

  /** The first command of a return to manual mode: the saved fan speed, 4 when none. */
  function ManualRequest(fan: Option<nat>): Request {
    NoArgs.(deviceMode := Some("Manual"), fanSpeed := Some(fan.GetOr(4)))
  }

  class DeviceModeSelect {
    /** The record of the select's device. */
    const entry: EntryData
    /** The option on display. */
    var currentOption: string
    /** Whether the device has reported a state. */
    var available: bool
    /** The keyword arguments of every command sent, oldest first. */
    var published: seq<Request>

    constructor (entry: EntryData)
      ensures this.entry == entry && currentOption == "Manual" && !available && published == []
    {
      this.entry := entry;
      currentOption := "Manual";
      available := false;
      published := [];
    }

    /** A state update shows the mode of the stored (AI, sleep) pair; a missing value is 0. */
    method HandleUpdate()
      modifies this
      ensures currentOption == DisplayMode(StoredFields(entry.state).aiMode, StoredFields(entry.state).sleepMode)
      ensures available && published == old(published)
    {
      var state := entry.state;
      var aiMode := if state.Some? then state.value.aiMode else 0;
      var sleepMode := if state.Some? then state.value.sleepMode else 0;
      if aiMode == 1 {
        currentOption := "Auto";
      } else if sleepMode == 1 || sleepMode == 2 || sleepMode == 3 {
        currentOption := if sleepMode == 1 then "Sleep 1" else if sleepMode == 2 then "Sleep 2" else "Sleep 3";
      } else {
        currentOption := "Manual";
      }
      available := true;
    }

    /**
     * Choosing `option`: leaving manual mode while the power is 1 saves the stored fan speed
     * (4 when there is none); choosing "Manual" sends the saved fan speed with device mode
     * Manual first; then `mode=option` is sent.
     */
    method SelectOption(option: string)
      modifies this, entry
      ensures entry.state == old(entry.state) && entry.lastDeviceMode == old(entry.lastDeviceMode)
      ensures entry.lastFanSpeed ==
        if StoredFields(entry.state).power == 1 && old(currentOption) == "Manual" && option != "Manual"
        then Some(StoredFields(entry.state).fanSpeed) else old(entry.lastFanSpeed)
      ensures option == "Manual" ==> published == old(published) + [ManualRequest(old(entry.lastFanSpeed)), ModeRequest(option)]
      ensures option != "Manual" ==> published == old(published) + [ModeRequest(option)]
      ensures currentOption == old(currentOption) && available == old(available)
    {
      var state := entry.state;
      if state.Some? && state.value.power == 1 && currentOption == "Manual" && option != "Manual" {
        entry.lastFanSpeed := Some(state.value.fanSpeed);
      }
      if option == "Manual" {
        var fan := entry.lastFanSpeed.GetOr(4);
        published := published + [NoArgs.(deviceMode := Some("Manual"), fanSpeed := Some(fan))];
      }
      published := published + [NoArgs.(mode := Some(option))];
    }
  }

  /** The switch records at power-off exactly the mode this select shows for the same state. */
  lemma RecordedIsDisplayed(state: Option<Status>)
    ensures RecordedMode(state) == DisplayMode(StoredFields(state).aiMode, StoredFields(state).sleepMode)
  {
  }

  /**
   * Mode round trip: the (AI, sleep) pair the encoder packs for each option is shown as that
   * same option, and choosing it switches the device on.
   */
  lemma ModeRoundTrip(option: string, prior: Option<Status>)
    requires option in DeviceModes
    ensures var g := Merge(prior, Rewrite(ModeRequest(option)));
      DisplayMode(g.aiMode, g.sleepMode) == option && g.power == 1
  {
    if option == "Manual" {
      ModeFields(prior, option, 0, 0);
    } else if option == "Auto" {
      ModeFields(prior, option, 1, 0);
    } else {
      var n := if option == "Sleep 1" then 1 else if option == "Sleep 2" then 2 else 3;
      SleepName(n, option);
      ModeFields(prior, option, 0, n);
    }
  }

  /** The fields packed for `mode=option` when the option's (AI, sleep) pair is (`a`, `l`). */
  lemma ModeFields(prior: Option<Status>, option: string, a: nat, l: nat)
    requires option != "on" && option != "off"
    requires option == "Manual" ==> a == 0 && l == 0
    requires option == "Auto" ==> a == 1 && l == 0
    requires option != "Manual" && option != "Auto" ==> a == 0 && IsSubstring("Sleep", option) && SleepLevel(option) == l
    ensures var g := Merge(prior, Rewrite(ModeRequest(option)));
      g.power == 1 && g.aiMode == a && g.sleepMode == l
      && g.fanSpeed == StoredFields(prior).fanSpeed && g.pressureMode == StoredFields(prior).pressureMode
      && g.fanIn == StoredFields(prior).fanIn && g.fanOut == StoredFields(prior).fanOut
  {
  }

  /**
   * Return to manual mode: the first command packs the saved fan speed (4 when none) and
   * (AI, sleep) = (0, 0) but keeps the stored power; the second, `mode="Manual"`, packs the
   * stored fan speed rather than the saved one, and power 1.
   */
  lemma ManualCommands(prior: Option<Status>, fan: Option<nat>)
    ensures var g := Merge(prior, Rewrite(ManualRequest(fan)));
      g.fanSpeed == fan.GetOr(4) && g.aiMode == 0 && g.sleepMode == 0 && g.power == StoredFields(prior).power
    ensures var g := Merge(prior, Rewrite(ModeRequest("Manual")));
      g.fanSpeed == StoredFields(prior).fanSpeed && g.aiMode == 0 && g.sleepMode == 0 && g.power == 1
  {
  }

  // ------------------------------------------------------------------------------------------
  // Fan mode

  /** The fan-mode options, in display order: off, exhaust only, intake only, both. */
  const FanModes: seq<string> := ["환기 꺼짐", "배기 전용", "흡기 전용", "흡/배기 순환"]

  /** The option shown for a (fan in, fan out) pair, with a fallback for any other pair. */
  function FanDisplay(fanIn: nat, fanOut: nat): (option: string)
    ensures option in FanModes <==> fanIn < 2 && fanOut < 2
    ensures fanIn < 2 && fanOut < 2 ==> option == FanModes[2 * fanIn + fanOut]
  {
    if fanIn == 0 && fanOut == 0 then "환기 꺼짐"
    else if fanIn == 0 && fanOut == 1 then "배기 전용"
    else if fanIn == 1 && fanOut == 0 then "흡기 전용"
    else if fanIn == 1 && fanOut == 1 then "흡/배기 순환"
    else "Fan In-On Fan Out-On"
  }

  /** The keyword arguments for choosing fan option `option`: `fan_mode=option`. */
  function FanRequest(option: string): Request {
    NoArgs.(fanMode := Some(option))
  }

  class FanModeSelect {
    /** The record of the select's device. */
    const entry: EntryData
    /** The option on display. */
    var currentOption: string
    /** Whether the device has reported a state. */
    var available: bool
    /** The keyword arguments of every command sent, oldest first. */
    var published: seq<Request>

    constructor (entry: EntryData)
      ensures this.entry == entry && currentOption == "Fan In-Off Fan Out-Off" && !available && published == []
    {
      this.entry := entry;
      currentOption := "Fan In-Off Fan Out-Off";
      available := false;
      published := [];
    }

    /** A state update shows the label of the stored (fan in, fan out) pair; a missing value is 0. */
    method HandleUpdate()
      modifies this
      ensures currentOption == FanDisplay(StoredFields(entry.state).fanIn, StoredFields(entry.state).fanOut)
      ensures available && published == old(published)
    {
      var state := entry.state;
      var fanIn := if state.Some? then state.value.fanIn else 0;
      var fanOut := if state.Some? then state.value.fanOut else 0;
      currentOption := FanDisplay(fanIn, fanOut);
      available := true;
    }

    /** Choosing `option` sends `fan_mode=option`. */
    method SelectOption(option: string)
      modifies this
      ensures published == old(published) + [FanRequest(option)]
      ensures currentOption == old(currentOption) && available == old(available)
    {
      published := published + [NoArgs.(fanMode := Some(option))];
    }
  }

  /** A decoded state always shows one of the four options; the fallback never appears. */
  lemma FanDisplayDecoded(s: Status)
    requires WellFormed(s)
    ensures FanDisplay(s.fanIn, s.fanOut) in FanModes
  {
  }

  /**
   * The fan options are not the encoder's table keys ("배기", "흡기", "흡/배기"), so every
   * option packs fan in = fan out = 0, and only the first option is shown again afterwards.
   */
  lemma FanOptionsEncodeOff(option: string, prior: Option<Status>)
    requires option in FanModes
    ensures var g := Merge(prior, Rewrite(FanRequest(option)));
      g.fanIn == 0 && g.fanOut == 0
      && (FanDisplay(g.fanIn, g.fanOut) == option <==> option == "환기 꺼짐")
  {
  }

  // ------------------------------------------------------------------------------------------
  // Pressure mode

  /** The pressure options, in code order: neutral, positive and negative pressure. */
  const PressureModes: seq<string> := ["정압 모드", "양압 모드", "음압 모드"]

  /** The keyword arguments for choosing pressure option `option`: `pressure_mode=option`. */
  function PressureRequest(option: string): Request {
    NoArgs.(pressureMode := Some(Label(option)))
  }

  /** The generic select as set up for the pressure mode, with default index 0. */
  class PressureSelect {
    /** The record of the select's device. */
    const entry: EntryData
    /** The option on display; none before the first update. */
    var currentOption: Option<string>
    /** Whether the device has reported a state. */
    var available: bool
    /** The keyword arguments of every command sent, oldest first. */
    var published: seq<Request>

    constructor (entry: EntryData)
      ensures this.entry == entry && currentOption == None && !available && published == []
    {
      this.entry := entry;
      currentOption := None;
      available := false;
      published := [];
    }

    /**
     * A state update shows the option the stored pressure code indexes (0 when there is none);
     * a code of 3 or more is out of range, the update raises and nothing changes.
     */
    method HandleUpdate()
      modifies this
      ensures var i := StoredFields(entry.state).pressureMode;
        if i < 3 then currentOption == Some(PressureModes[i]) && available
        else currentOption == old(currentOption) && available == old(available)
      ensures published == old(published)
    {
      var state := entry.state;
      var index := if state.Some? then state.value.pressureMode else 0;
      if index >= |PressureModes| {
        return;
      }
      currentOption := Some(PressureModes[index]);
      available := true;
    }

    /** Choosing `option` sends `pressure_mode=option`. */
    method SelectOption(option: string)
      modifies this
      ensures published == old(published) + [PressureRequest(option)]
      ensures currentOption == old(currentOption) && available == old(available)
    {
      published := published + [NoArgs.(pressureMode := Some(Label(option)))];
    }
  }

  /**
   * The pressure options are not the encoder's table keys ("정압", "양압", "음압"), so every
   * option packs pressure 0, and only the first option is shown again afterwards.
   */
  lemma PressureOptionsEncodeZero(option: string, prior: Option<Status>)
    requires option in PressureModes
    ensures var g := Merge(prior, Rewrite(PressureRequest(option)));
      g.pressureMode == 0 && (PressureModes[g.pressureMode] == option <==> option == "정압 모드")
  {
  }

  /** The decoder can report pressure code 3 (B6 = 0x30), which the pressure select cannot show. */
  lemma PressureThreeDecodable()
    ensures FieldLayout(0, 48, 0, 0, 0, 0).pressureMode == 3 >= |PressureModes|
  {
    assert Pow2(4) == 16 && Pow2(2) == 4;
  }
}
