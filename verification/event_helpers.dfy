/**
 * The interface of the two collaborators from homeassistant/helpers/event.py
 * (not part of this model): `async_track_state_change`, which delivers state
 * changes, and `async_track_same_state`, which waits for a state to hold for a
 * duration and hands back a function that cancels the wait.
 */
module EventHelpers {
  import opened Optional
  import opened Core

  /** One state change as delivered to a listener: `(entity, from_s, to_s)`. */
  datatype StateChange = StateChange(
    entityId: string,
    oldState: Option<State>,
    newState: Option<State>)

  /** The cancel function returned by `async_track_same_state`, identified by a number. */
  datatype WaitHandle = WaitHandle(id: nat)

  /**
   * A filter value accepts a snapshot when it is `MATCH_ALL` (which also
   * accepts a missing snapshot) or equals the snapshot's state string.
   */
  predicate Matches(snapshot: Option<State>, requirement: string) {
    requirement == MATCH_ALL || (snapshot.Some? && snapshot.value.state == requirement)
  }

  /**
   * What `async_track_state_change` guarantees of every change it passes on:
   * the entity is one of those tracked and both filters accept their snapshot.
   */
  predicate Delivered(entityIds: seq<string>, fromReq: string, toReq: string, ev: StateChange) {
    && ev.entityId in entityIds
    && Matches(ev.oldState, fromReq)
    && Matches(ev.newState, toReq)
  }
}
