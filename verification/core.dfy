/**
 * The few pieces of Home Assistant's core that the state trigger reads: an
 * entity's state snapshot, the `MATCH_ALL` sentinel and the `for` duration.
 */
module Core {
  import opened Optional

  /** `MATCH_ALL` of homeassistant/const.py (not part of this model), the string `*`. */
  const MATCH_ALL: string := "*"

  /**
   * A snapshot of one entity (homeassistant.core.State). Timestamps are opaque
   * instants; the trigger only ever compares two of them for equality.
   */
  datatype State = State(
    entityId: string,
    state: string,
    attributes: map<string, string>,
    lastChanged: int,
    lastUpdated: int)

  /**
   * A `for` duration (a Python `timedelta`), in whole microseconds. The trigger
   * schema only admits durations that are not negative.
   */
  datatype Duration = Duration(micros: nat)

  /**
   * Python truthiness of an optional `timedelta`: `None` and a zero-length
   * duration are both false.
   */
  predicate IsSet(d: Option<Duration>) {
    d.Some? && d.value.micros != 0
  }
}
