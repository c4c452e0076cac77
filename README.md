# purethink appliance codec and control entities

This project models the `purethink` Home Assistant integration in Dafny. The integration
talks to a ventilation appliance through hex frames.

- **Status decoder.** A status frame starts with the lower-case preamble `a8a81721`. The
  decoder cuts six fixed character windows out of the whole frame, preamble positions
  included. It expands each window into four bits per hex digit, most significant first, and
  reads unsigned bit fields. The result is a record: power, fan speed, AI and sleep modes,
  input flag, odor, pressure mode, wifi, fan in/out, reserved bits, six alarms, CO2 and PM
  readings, and a prefilter and a HEPA filter record (reset flag and hours).
- **Command encoder.** The encoder first finds the device's last decoded state in the
  integration's store. It then rewrites the sparse keyword arguments of a call in a fixed
  order:
  1. `mode` sets power or the device mode;
  2. the device mode sets the AI and sleep modes;
  3. the pressure-label table;
  4. the fan-label table.

  It merges the arguments over the prior state, with defaults. It packs three bit-field
  bytes, adds the filter-reset bytes and a checksum (393 plus the sum of the bytes), and
  writes the 46-character upper-case `contents` string. An invalid filter-reset target
  yields no command.
- **Per-device record.** The message handler stores every status frame it can decode in a
  per-device record (`Entry.EntryData`).
- **Power switch.** It shows the stored power. Switching off remembers the device mode and
  the manual fan speed. Switching on restores them.
- **Device-mode select.** It shows Manual, Auto or Sleep 1-3, derived from the AI and sleep
  modes. It saves the fan speed when leaving Manual.
- **Fan-mode select.** It shows the ventilation direction.
- **Pressure select.** This is the generic select set up for `pressure_mode`. It shows the
  pressure label that the stored code indexes.

The entities send their keyword arguments to the encoder. In the model, each entity appends
the arguments it sends to its `published` sequence. Lemmas then state what the encoder packs
for each such request.

Module layout:

| module | contents |
|---|---|
| `Wrappers` | `Option` |
| `Bitwise` | powers of two, and bitwise or on naturals |
| `Strings` | slicing with Python's clamping, substring search, whitespace split, decimal numerals |
| `Hex` | hex and binary numerals, `int(h, 16)`, `bin`/`zfill`, `format(n, "0wX")` |
| `Protocol` | the decoder and its layout |
| `Command` | the encoder, its lookup loop and its rewriting steps |
| `Echo` | the encoder-decoder round trip |
| `Entry` | the per-device record and the message handler |
| `Switch` | the power switch |
| `Select` | the three selects |

The round trip in `Echo.CommandEcho` takes one assumption: the device reports back a status
frame made of the status preamble followed by the command's payload (everything after the
command header). The two frame kinds share their byte positions, so such a frame decodes to
the values the command packed.

## Model

| member | source | states |
|---|---|---|
| Protocol.ParseBits | custom_components/purethink/protocol.py:55-62 | the bit read succeeds exactly when the window is a hex numeral and the cut `start .. start+length-1` of its `4·len` bits is non-empty; the value is below `2^length` |
| Protocol.ParseBitsExpansion | custom_components/purethink/protocol.py:58-59 | the value read is the binary value of bits `start .. min(start+length, 4·len)-1` of the digit-by-digit MSB-first expansion, so a cut running past the end yields fewer bits |
| Protocol.ParseBitsValue | custom_components/purethink/protocol.py:58-59 | within the window, the read is the arithmetic field `int(h,16) / 2^(4·len-start-length) mod 2^length` |
| Hex.HexBits | custom_components/purethink/protocol.py:58 | `bin(int(h,16))[2:].zfill(4·len(h))` equals the digit-by-digit 4-bit expansion of `h` |
| Hex.BinaryString | custom_components/purethink/protocol.py:58 | `bin(v)[2:]` has the value `v` and no leading zero (a single "0" for zero) |
| Hex.ZFill | custom_components/purethink/protocol.py:58 | `zfill(w)` has `max(len, w)` characters; what they are is `Hex.ZFillPads` |
| Hex.ZFillPads | custom_components/purethink/protocol.py:58 | `zfill` keeps the digits at the end and puts only zeros before them |
| Hex.HexDigits | custom_components/purethink/protocol.py:172-178 | the `X` numeral is upper-case, reads back as `n` and has no leading zero unless it is the single digit of 0 |
| Hex.FormatHex | custom_components/purethink/protocol.py:172-178 | the `:0wX` numeral is upper-case and reads back as `n`; it has at least `w` digits, exactly `w` when `w > 0` and `n < 16^w` (`FormatHex(0, 0)` is not pinned, and never occurs); a larger `n` is written with its own minimal digits, and no zero is added beyond the width |
| Protocol.ParseFilter | custom_components/purethink/protocol.py:65-69 | the filter record exists exactly when the hours read succeeds; the hours are below `2^length` |
| Protocol.ParseFilterFlag | custom_components/purethink/protocol.py:67 | the reset flag is set exactly when bit `start-2` of the expansion (two places before the hours) is 1 |
| Protocol.ParseStatusPacket | custom_components/purethink/protocol.py:10-52 | every decoded record is well formed: each field is below 2 to the power of its bit width (fan speed ≤ 7, co2 < 8192, pm < 1024, hours < 16384) |
| Protocol.StatusLayout | custom_components/purethink/protocol.py:16-48 | on a frame hex from character 8 to 35, each field is the fixed bit range of the window at characters 8-9, 10-11, 12-13, 14-15, 16-27 or 28-35, with the filter flags at window bits 0 and 16 and hours at bits 2-15 and 18-31 |
| Protocol.DecodeSucceedsIff | custom_components/purethink/protocol.py:13-52 | decoding succeeds exactly when the frame has at least 33 characters and characters 8 to min(36, len)-1 are hex digits, so every frame of 32 characters or fewer raises |
| Protocol.ShortFrameHepaHours | custom_components/purethink/protocol.py:48 | a hex frame of 33-35 characters decodes, but its HEPA hours come from only `4·len-130` bits |
| Strings.Slice | custom_components/purethink/protocol.py:16-48 | `s[i:j]` clamps a bound past the end and gives "" for an empty range |
| Strings.IsSubstring | custom_components/purethink/protocol.py:101 | the left-to-right scan for `sub in s`; its meaning is `Strings.IsSubstringIff` |
| Strings.IsSubstringIff | custom_components/purethink/protocol.py:101 | the scan finds `sub` exactly when `sub` occurs at some position of `s` |
| Strings.SplitWords | custom_components/purethink/protocol.py:103 | `s.split()` gives non-empty words free of whitespace that, concatenated, are `s` without its whitespace |
| Strings.SplitSkipSpace | custom_components/purethink/protocol.py:103 | a leading whitespace character is skipped by `split()`; with `Split([]) == []` and `Strings.SplitFirstWord` this determines `split()` on every text |
| Strings.SplitFirstWord | custom_components/purethink/protocol.py:103 | a leading whitespace-free run ended by whitespace or the end of the text is, whole, the first word of `split()`, so words are maximal runs (`["a","b"]` for "ab" is excluded) |
| Strings.ParseInt | custom_components/purethink/protocol.py:103 | `int(w)` succeeds exactly on a non-empty word of decimal digits |
| Strings.DecimalString | custom_components/purethink/select.py:109 | `str(n)` has no whitespace and `int` reads it back as `n` |
| Command.ApplyMode | custom_components/purethink/protocol.py:82-90 | the mode step leaves fan speed, AI, sleep, pressure, fan and filter keys as passed |
| Command.ModeSetsPower | custom_components/purethink/protocol.py:82-90 | "on"/"off" force power 1/0 over an explicit power; any other mode keeps a passed power or sets 1; no mode keeps power as passed |
| Command.ApplyDeviceMode | custom_components/purethink/protocol.py:93-107 | the device-mode step leaves power, fan speed, pressure, fan and filter keys as passed |
| Command.DeviceModePairs | custom_components/purethink/protocol.py:93-107 | Manual gives (AI 0, sleep 0), Auto (1, 0), a label containing "Sleep" (0, its level), and any other label or none leaves both as passed; a non-power mode overrides a passed device mode |
| Command.SleepLevelOf | custom_components/purethink/protocol.py:101-103 | "Sleep N" reads back as level N |
| Command.SleepLevelOneWord | custom_components/purethink/protocol.py:102-105 | any one-word label (such as "Sleep") has no second word, so `split()[1]` raises and the level falls back to 1 |
| Command.SleepLevelNonNumeric | custom_components/purethink/protocol.py:102-105 | "Sleep w" whose second word `w` is not all decimal digits makes `int` raise, so the level falls back to 1 |
| Command.SleepLevel | custom_components/purethink/protocol.py:101-105 | `int(mode.split()[1])`, or 1 when that raises; what it reads is stated by `Command.SleepLevelOf`, `Command.SleepLevelOneWord` and `Command.SleepLevelNonNumeric` |
| Command.PressureCode | custom_components/purethink/protocol.py:110-115 | the pressure code is below 3, is 1 exactly for "양압" and 2 exactly for "음압"; any other value, an integer included, gives 0 |
| Command.FanBits | custom_components/purethink/protocol.py:118-124 | the fan bits are 0/1, (0,1) exactly for "배기", (1,0) exactly for "흡기", (1,1) exactly for "흡/배기", otherwise (0,0) |
| Command.Rewrite | custom_components/purethink/protocol.py:82-124 | the rewriting keeps the fan speed and the filter target; a passed pressure value becomes its table code `PressureCode` and none stays none; a passed fan label becomes the table bits `FanBits` in fan in/out, and with no label fan in/out stay as passed |
| Command.StoredFields | custom_components/purethink/protocol.py:126-134 | an empty state gives the defaults (fan speed 4, the rest 0); the values of a well-formed state fit their bit widths |
| Command.Merge | custom_components/purethink/protocol.py:126-134 | `{**state, **kwargs}.get(key, default)` for the seven keys; its precedence is stated by `Command.MergePrecedence` |
| Command.MergePrecedence | custom_components/purethink/protocol.py:126-134 | a rewritten key wins over the prior state; a key not passed takes the prior state's own value for that key, each of the seven separately; with no state the defaults are fan speed 4 and 0 for the rest |
| Command.MergeFits | custom_components/purethink/protocol.py:126-134 | a well-formed prior state and in-width request values merge into values that fit their bit widths |
| Command.FilterResetBytes | custom_components/purethink/protocol.py:153-166 | no target gives B15-B18 = 00 00 00 00, "prefilter" 87 D0 00 00 (135, 208, 0, 0), "hepafilter" 00 00 8F A0 (0, 0, 143, 160); there are no filter bytes, and so no command, exactly when a target is passed that is neither; every filter byte is below 256 (what 87 D0 and 8F A0 mean is `Echo.ResetFilters`) |
| Command.CommandContents | custom_components/purethink/protocol.py:72-179 | the encoder yields no contents exactly when the filter-reset target is present and is neither "prefilter" nor "hepafilter" |
| Command.B5 | custom_components/purethink/protocol.py:139-143 | B5 as the bitwise or of the shifted power, fan speed, AI and sleep values and 1; its value and width are stated by `Command.PackBytes` and its decoded fields by `Echo.PackedFields` |
| Command.B6 | custom_components/purethink/protocol.py:146 | B6, the pressure code shifted by 4; stated by `Command.PackBytes` and `Echo.PackedFields` |
| Command.B7 | custom_components/purethink/protocol.py:149-151 | B7, the shifted fan-in and fan-out bits; stated by `Command.PackBytes` and `Echo.PackedFields` |
| Command.Checksum | custom_components/purethink/protocol.py:169 | 393 plus the seven bytes; where it is written is stated by `Command.FrameChecksum` |
| Command.Payload | custom_components/purethink/protocol.py:172-178 | the payload f-string; its layout is stated by `Command.PayloadLayout` |
| Command.Frame | custom_components/purethink/protocol.py:179 | the header followed by the payload; its length and layout are stated by `Command.FrameLength` and `Command.FrameFields` |
| Command.PackBytes | custom_components/purethink/protocol.py:138-151 | when every value fits its width the bitwise or of the shifted fields is their sum: B5 = 128·power + 16·fan + 8·ai + 2·sleep + 1, B6 = 16·pressure, B7 = 128·in + 64·out, each below 256 |
| Command.FormatHexLength | custom_components/purethink/protocol.py:172-178 | a numeral padded to `w` digits has exactly `w` digits if and only if its value is below `16^w` |
| Command.FrameLength | custom_components/purethink/protocol.py:171-182 | the contents have 46 characters exactly when the three packed bytes are below 256 |
| Command.FrameFields | custom_components/purethink/protocol.py:172-179 | such contents start with "A8A81722" and carry the packed bytes at characters 8-13, seven zero bytes at 14-27, the filter bytes at 28-35 and three zero bytes at 36-41 |
| Command.PayloadLayout | custom_components/purethink/protocol.py:172-178 | the 38-digit payload holds the packed bytes at 0-5, 14 zero digits at 6-19, the filter bytes at 20-27, 6 zero digits at 28-33 and the 4-digit checksum at 34-37 |
| Command.FrameChecksum | custom_components/purethink/protocol.py:168-179 | the last four characters are the 4-digit upper-case numeral of 393 plus the seven bytes |
| Command.PowerOnFanThreeExample | custom_components/purethink/protocol.py:72-179 | `{power: 1, fan_speed: 3}` over an empty state gives "A8A81722B1" followed by zeros and checksum "023A" |
| Command.FirstMatch | custom_components/purethink/protocol.py:75-79 | the position found is that of the first entry with a state, a non-empty topic and the device id in its key or topic, and no earlier entry matches |
| Command.Matches | custom_components/purethink/protocol.py:76-77 | an entry with a state, a non-empty topic and the device id in its key or topic |
| Command.FindState | custom_components/purethink/protocol.py:74-79 | the state found is empty exactly when no entry matches, and otherwise is the state of a matching entry |
| Command.LookupState | custom_components/purethink/protocol.py:74-79 | the lookup loop returns the state of the first matching entry, or the empty state |
| Command.RewriteArgs | custom_components/purethink/protocol.py:82-124 | the in-place rewriting computes the rewritten arguments |
| Command.Assemble | custom_components/purethink/protocol.py:126-179 | the assembly merges, packs B5-B7, chooses the filter bytes or gives up, and writes header, payload and checksum |
| Command.GenerateCommand | custom_components/purethink/protocol.py:72-191 | the encoder's contents are those of the request over the state the lookup finds |
| Bitwise.OrBits | custom_components/purethink/protocol.py:143 | `Or` is bitwise: a bit of `Or(a, b)` is set exactly when it is set in `a` or in `b` |
| Echo.PackedFields | custom_components/purethink/protocol.py:16-30 | packing round trip: the status layout's fields of B5, B6, B7 are the packed values, with the input bit 1 and odor, wifi and reserved bits 0 |
| Echo.ResetFilters | custom_components/purethink/protocol.py:47-48 | the filter bytes of "prefilter" read back as prefilter flag set with 2000 hours, those of "hepafilter" as HEPA flag set with 4000 hours, and no target as zero; the two bits beside each flag are 0, so all 32 bits are fixed |
| Echo.EchoWindows | custom_components/purethink/protocol.py:16-48 | the status preamble plus a payload is a hex frame of 46 characters whose windows are the packed bytes, a zero alarm byte, zero sensors and the filter bytes |
| Echo.CommandEcho | custom_components/purethink/protocol.py:10-179 | encoder-decoder round trip: a command over fitting merged values has 46 characters, and its payload behind the status preamble decodes to exactly those values with the input bit set, everything not carried zero, and the filter records of the reset target |
| Entry.EntryData.constructor | custom_components/purethink/__init__.py:31-35 | a fresh record holds the empty state and no saved mode or fan speed |
| Entry.EntryData.Receive | custom_components/purethink/__init__.py:55-65 | a frame with the status preamble that decodes replaces the stored state; any other frame leaves it; the saved mode and fan speed are unchanged; stored states stay well formed |
| Switch.PowerSwitch.constructor | custom_components/purethink/switch.py:27-36 | a new switch is available and has sent nothing |
| Switch.PowerSwitch.HandleUpdate | custom_components/purethink/switch.py:53-58 | the switch is available exactly when a state has been stored |
| Switch.PowerSwitch.IsOn | custom_components/purethink/switch.py:60-64 | the switch is on exactly when the stored power, 0 when absent, is non-zero |
| Switch.PowerSwitch.TurnOff | custom_components/purethink/switch.py:70-100 | already off: nothing changes and nothing is sent; otherwise the mode is recorded by priority (Auto, Sleep 1-3, Manual), the stored fan speed (4 when absent) is saved only in Manual and when non-zero, else the old value is kept, and exactly `{mode: "off"}` is sent |
| Switch.PowerSwitch.TurnOn | custom_components/purethink/switch.py:102-119 | already on: nothing is sent; otherwise exactly one request with `mode="on"` and the saved mode (Manual by default) is sent, with the saved fan speed (4 by default) for Manual only |
| Switch.RecordedMode | custom_components/purethink/switch.py:80-89 | the mode recorded at power-off by priority; it equals the select's display (`Select.RecordedIsDisplayed`) and restores its (AI, sleep) pair (`Switch.RestorePair`) |
| Switch.RestoreRequest | custom_components/purethink/switch.py:108-118 | the power-on keyword arguments; what they pack is stated by `Switch.RestorePair` and `Switch.RestoreDefault` |
| Switch.OffEncodesPowerZero | custom_components/purethink/switch.py:100 | the power-off request always encodes, packs power 0 and takes every other value from the stored state |
| Switch.RestorePair | custom_components/purethink/switch.py:80-119 | off-then-on restore: the power-on command packs power 1 and the (AI, sleep) pair Auto (1,0), Sleep N (0,N) or Manual (0,0) of the mode recorded at power-off, the saved fan speed (4 when none) in Manual and the currently stored fan speed for any other mode, and the current pressure and fan bits |
| Switch.RestoreDefault | custom_components/purethink/switch.py:111-114 | with nothing saved, switching on packs power 1, manual mode and fan speed 4 |
| Select.DeviceModeSelect.constructor | custom_components/purethink/select.py:78-87 | the select starts showing "Manual", unavailable, with nothing sent |
| Select.DeviceModeSelect.HandleUpdate | custom_components/purethink/select.py:102-113 | the option shown is Auto when AI is 1, else Sleep N for sleep 1-3, else Manual, with missing values 0, and the select becomes available |
| Select.DisplayMode | custom_components/purethink/select.py:107-111 | the option shown for an (AI, sleep) pair is always one of the five device-mode options |
| Select.DeviceModeSelect.SelectOption | custom_components/purethink/select.py:115-148 | the fan speed (4 when absent) is saved exactly when power is 1, the shown option is Manual and the chosen one is not; choosing Manual sends the saved-speed request and then `mode="Manual"`, any other option only `mode=option` |
| Select.RecordedIsDisplayed | custom_components/purethink/select.py:107-111 | the mode the switch records at power-off is the mode this select shows for the same state |
| Select.ModeRoundTrip | custom_components/purethink/select.py:85-111 | mode round trip: for each of the five options, the (AI, sleep) pair the encoder packs is shown as that same option, and the power packed is 1 |
| Select.ManualCommands | custom_components/purethink/select.py:124-144 | choosing Manual: the first command packs the saved fan speed (4 by default) with (0,0) and the stored power; the second packs the stored fan speed, not the saved one, and power 1 |
| Select.FanModeSelect.constructor | custom_components/purethink/select.py:160-169 | the select starts showing "Fan In-Off Fan Out-Off", unavailable, with nothing sent |
| Select.FanModeSelect.HandleUpdate | custom_components/purethink/select.py:184-190 | the option shown is the label of the stored (fan in, fan out) pair, with a fallback label for any other pair |
| Select.FanDisplay | custom_components/purethink/select.py:188 | a (fan in, fan out) pair of 0/1 values shows the option at index 2·in + out: (0,0) off, (0,1) exhaust only, (1,0) intake only, (1,1) both; any other pair gets a label outside the four (the fallback) |
| Select.FanModeSelect.SelectOption | custom_components/purethink/select.py:192-202 | choosing an option sends `fan_mode=option` and nothing else changes |
| Select.FanDisplayDecoded | custom_components/purethink/select.py:153-158 | a decoded state always shows one of the four options, never the fallback |
| Select.FanOptionsEncodeOff | custom_components/purethink/select.py:153-199 | every fan option packs fan in = fan out = 0, and is shown again exactly when it is the "off" option |
| Select.PressureSelect.constructor | custom_components/purethink/select.py:29-40 | the select starts with no option shown, unavailable, with nothing sent |
| Select.PressureSelect.HandleUpdate | custom_components/purethink/select.py:55-59 | the option shown is the pressure label the stored code (0 when absent) indexes; a code of 3 or more raises and changes nothing |
| Select.PressureSelect.SelectOption | custom_components/purethink/select.py:61-71 | choosing an option sends `pressure_mode=option` and nothing else changes |
| Select.PressureOptionsEncodeZero | custom_components/purethink/select.py:61-66 | every pressure label packs pressure 0, and is shown again exactly when it is "정압 모드" |
| Select.PressureThreeDecodable | custom_components/purethink/protocol.py:24 | the decoder's field layout (`Protocol.FieldLayout`, which `Protocol.StatusLayout` ties to decoded frames) gives pressure code 3 for B6 = 0x30, which is past the three pressure labels |

## Left out

- MQTT transport: subscription, publishing, and the conversion of bytes and JSON envelopes to a lower-case hex string are I/O. `Entry.EntryData.Receive` takes the frame as that string.
- The random `topic_id`, the JSON command envelope and all logging are left out. The encoder's result is the `contents` string, or `None` for an invalid filter target.
- The warning when the contents are not 46 characters only logs. `Command.FrameLength` states when the length is 46.
- Python's `int(h, 16)` accepts whitespace, a sign, a `0x` prefix and underscores. Frames are modelled as sequences of plain hex digit characters.
- Strings.ParseInt: the sleep level parser reads only ASCII decimal digits. Python's `int` also accepts a sign, underscores and other Unicode digits.
- Values are unbounded naturals. A negative integer passed as a keyword argument is not modelled.
- Entities send keyword arguments rather than frames. The encoder's lookup of the device's entry is assumed to find the entity's own record. The lemmas tie each request to what the encoder packs over that record's state.
- The message handler also stores flattened copies of the filter records (`prefilter_hours` and so on). The model keeps only the decoded record, because nothing modelled reads the copies.
- The store's second record, keyed by device id, keeps the empty state forever. `Command.LookupState` models the search over all records.
- Switch.PowerSwitch.TurnOff: the stored `device_mode` fallback always gives "Manual", because a decoded state never has that key.
- Exceptions raised inside the entities' command sending are caught and logged in the source. The model's encoder does not raise.
- Select: the generic select is modelled only as set up for the pressure mode, the one place it is used.
- Protocol.ParseFilter: requires `start >= 2`. Both calls pass 2 and 18; a smaller start would read from Python's negative-index end.
- Protocol.StatusLayout: covers frames of 36 or more characters. Shorter frames are described by `Protocol.DecodeSucceedsIff` and `Protocol.ShortFrameHepaHours`.
- The `reset_filter` service is I/O glue, and its target check repeats the encoder's.
- `fan.py`, `binary_sensor.py`, `config_flow.py` and `sensor.py` are not part of this model. Only `sensor`, `switch` and `select` are loaded, and the sensor platform only displays fields, with float conversions.
- Home Assistant entity plumbing (setup, dispatcher connection, state scheduling, names and icons) is left out.
- The constant `CHECKSUM_BASE = 0x393` is not used by the encoder, which adds decimal 393. The model uses 393.
