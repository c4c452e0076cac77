/**
 * The per-device record the integration keeps in its store: the last decoded state and the
 * mode and fan speed the power switch and the device-mode select remember between commands.
 * The message handler stores every status frame it can decode.
 */
module Entry {
  import opened Wrappers
  import opened Strings
  import opened Protocol

  class EntryData {
    /** The last decoded status; `None` is the empty record the store starts with. */
    var state: Option<Status>
    /** The device mode saved when the power was last switched off. */
    var lastDeviceMode: Option<string>
    /** The fan speed saved when the device last left manual mode. */
    var lastFanSpeed: Option<nat>

    /** Every stored state is one the decoder can produce: each field within its bit width. */
    predicate Valid()
      reads this
    {
      state.Some? ==> WellFormed(state.value)
    }

    /** A fresh record: no state and nothing saved. */
    constructor ()
      ensures Valid()
      ensures state == None && lastDeviceMode == None && lastFanSpeed == None
    {
      state := None;
      lastDeviceMode := None;
      lastFanSpeed := None;
    }

    /**
     * The message handler: a frame that starts with the status preamble is decoded and, when
     * decoding does not raise, replaces the stored state; anything else leaves the record as it
     * was.
     */
    method Receive(frame: string)
      requires Valid()
      modifies this
      ensures Valid()
      ensures StartsWith(frame, StatusPreamble) && ParseStatusPacket(frame).Some? ==>
        state == ParseStatusPacket(frame)
      ensures !(StartsWith(frame, StatusPreamble) && ParseStatusPacket(frame).Some?) ==>
        state == old(state)
      ensures lastDeviceMode == old(lastDeviceMode) && lastFanSpeed == old(lastFanSpeed)
    {
      if StartsWith(frame, StatusPreamble) {
        var parsed := ParseStatusPacket(frame);
        if parsed.Some? {
          state := parsed;
        }
      }
    }
  }
}
