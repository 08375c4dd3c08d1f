# State trigger of the Home Assistant automation component

A Dafny model of `homeassistant/components/automation/state.py`: the automation
trigger that fires when an entity's state changes, optionally only after the new
state has held for a `for` duration.

The trigger is a small sequential state machine. `async_trigger` reads the
configuration once: it defaults `from` and `to` to `MATCH_ALL` (the string `*`),
computes the wildcard flag, and registers a listener with
`async_track_state_change`. Its only mutable state is the slot
`async_remove_track_same`, which holds the cancel function of the last stability
wait it started. For each delivered change the listener either

- drops it, when the trigger is not a wildcard and the two snapshots share the
  same `last_changed` (an attribute-only update);
- runs the action at once, when no `for` is set (Python truthiness: a missing or
  zero-length duration);
- or asks `async_track_same_state` to run the action once the new state has held
  for the duration, and stores the returned cancel function in the slot.

The remove function unsubscribes the listener, then calls the stored cancel
function if one was ever stored.

In the model a `Subscription` is an immutable record. Each operation is a pure
function returning a `Reaction`: the next subscription plus the list of effects
it asks of its collaborators (`TrackStateChange`, `RunAction`, `TrackSameState`,
`Unsubscribe`, `CancelWait`, `RaiseAttributeError`). `StateTriggerRuns.Run`
folds a sequence of deliveries and removals, matching the code's one callback
at a time. It does not restrict which inputs may follow a removal, and a wait's
confirmation is not an input (see "## Left out").

Files:

- `optional.dfy`: module `Optional`, for Python's `None` and absent keys.
- `core.dfy`: the state snapshot, the `for` duration and its truthiness, and `MATCH_ALL`.
- `event_helpers.dfy`: the interface of the two helpers from `homeassistant/helpers/event.py`. That file is not part of this model. What `async_track_state_change` guarantees about delivered changes is stated as the predicate `Delivered`.
- `state_trigger.dfy`: configuration, setup, listener step, payload and removal.
- `state_trigger_runs.dfy`: runs of several inputs, and the properties that span more than one call.

Where the code does not do what a debounce usually does, the model follows
the code:

- A newer accepted change overwrites the slot without cancelling the older wait.
- The remove function neither clears the slot nor records that it ran. A second call unsubscribes again and cancels the same wait again.
- `unsub()` stops further deliveries, but the listener has no guard of its own: a change still delivered after removal is handled as before. The model has no disposed state.
- The check that the `from`/`to` values equal the filters is done by `async_track_state_change`, not by this file. It appears only as the `Delivered` precondition of the lemmas that need it.

## Model

| member | source | states |
|---|---|---|
| StateTrigger.AsyncTrigger | homeassistant/components/automation/state.py:33-38 | This row also covers the precondition `ValidConfig`, the schema rules of lines 20-27: the platform is `state`, and `for` requires `to`. For a configuration meeting it: an absent filter becomes `MATCH_ALL` and a present one is kept. The wildcard flag holds iff each filter is absent or written as `MATCH_ALL`. The slot starts empty. The only effect is registering the listener for the configured entities and filters (lines 70-71). |
| StateTrigger.OnStateChange | homeassistant/components/automation/state.py:41-68 | This row also covers the helpers `CallAction` (lines 46-56), `IgnoredAsAttributeChange` (lines 59-60) and `Core.IsSet`, the truthiness test `if not time_delta` of line 63. One delivered change gives at most one effect, and never a cancel. It gives no effect iff the trigger is not a wildcard, both snapshots exist and both share `last_changed`, and then the slot is unchanged. Without a non-zero `for`, the one effect is running the action with exactly `{platform: state, entity_id, from_state, to_state, for}`, and the slot is unchanged. With one, the effect is a wait on the new state's value for the configured entities, carrying the same payload, and the new handle overwrites the slot. With one and no new state, the listener raises. |
| StateTrigger.AsyncRemove | homeassistant/components/automation/state.py:74-78 | The first effect is unsubscribing the listener. It is followed by a cancel of handle h iff the slot holds h. The subscription, slot included, is returned unchanged. |
| StateTrigger.WildcardIffFiltersOmitted | homeassistant/components/automation/state.py:34-37 | When neither filter is written as `MATCH_ALL`, the wildcard flag holds iff both `from` and `to` were left out. |
| StateTrigger.WildcardWithDurationNamesMatchAll | homeassistant/components/automation/state.py:27-37 | A valid configuration with a `for` has the wildcard flag only if its `to` is written out as `MATCH_ALL`, because `for` requires `to`. |
| StateTrigger.DeliveredChangeRespectsFilters | homeassistant/components/automation/state.py:67-71 | Take a valid trigger whose `to` is not written as `MATCH_ALL` (it may be left out), and a change the helper delivered. The listener never raises. Any wait watches the configured `to` value on the configured entities. Every action payload, whether run at once or carried by a wait, names a tracked entity, and its snapshots satisfy both filters. |
| StateTriggerRuns.Run | homeassistant/components/automation/state.py:41-78 | Over any sequence of deliveries and removals, nothing but the slot changes. The run asks for at most two effects per input. |
| StateTriggerRuns.RunSlotHoldsLastWait | homeassistant/components/automation/state.py:67-68 | After any run, the slot holds the handle of the last wait the run started, or its initial value if the run started none. |
| StateTriggerRuns.DeliveriesNeverCancel | homeassistant/components/automation/state.py:58-68 | However many waits a sequence of delivered changes starts, none of them is cancelled and the listener is never unsubscribed. |
| StateTriggerRuns.RemovalCancelsOnlyLastWait | homeassistant/components/automation/state.py:67-78 | Removal after any deliveries keeps their effects, appends `Unsubscribe`, and then cancels at most one handle h. It cancels h iff h is the last wait the deliveries started, or, if they started none, the handle already in the slot. |
| StateTriggerRuns.SupersededWaitsNeverCancelled | homeassistant/components/automation/state.py:67-78 | Take deliveries whose returned cancel functions are all different. Whenever one wait is followed by a later wait in the run, a subsequent removal never cancels the earlier one. |
| StateTriggerRuns.SupersededWaitIsNotCancelled | homeassistant/components/automation/state.py:67-68 | From any starting slot, under a `for`, two accepted changes start waits h1 and h2 in order, and h2 ends up in the slot. A removal then emits only `Unsubscribe, CancelWait(h2)`, so h1 is never cancelled. |
| StateTriggerRuns.RemoveTwiceRepeatsEffects | homeassistant/components/automation/state.py:74-78 | Calling the remove function twice emits its effects twice, including a second unsubscribe and a second cancel of the same handle. The subscription is unchanged. |
| StateTriggerRuns.RemovalDoesNotDisableListener | homeassistant/components/automation/state.py:74-78 | A change delivered after removal produces exactly the effects it would have produced before. |
| StateTriggerRuns.WildcardAnswersEveryChange | homeassistant/components/automation/state.py:58-68 | A wildcard trigger answers every delivered change with exactly one effect: an action run, a wait or a raise. Attribute-only updates are answered too. |

## Left out

- The bodies of `async_track_state_change` and `async_track_same_state` (homeassistant/helpers/event.py is not part of this model). This covers entity-id lower-casing, the from/to value pre-filter, the timing of waits, and their invalidation when the state moves away. They appear as effects, plus the `Delivered` predicate.
- `hass.async_run_job` and the coroutine framing: dispatch plumbing, shown as the `RunAction` effect.
- Voluptuous schema mechanics (`cv.entity_ids`, `cv.time_period`, `cv.positive_timedelta`). Only two rules are kept in `ValidConfig`: the platform name and the `for`-needs-`to` key dependency. Entity ids are taken as an already-parsed list, and durations as non-negative microsecond counts.
- Timestamps and attributes of state snapshots are opaque. The trigger only compares two `last_changed` values for equality.
- What happens to the raised `AttributeError` is the event loop's concern. The model records the raise as an effect and leaves the slot unchanged, as the code does.
- `StateTriggerRuns.Run` accepts any sequence of inputs. It does not exclude deliveries after a removal, which `unsub()` normally prevents. It also does not model a wait's confirmation as an input: the helper calls `call_action`, whose only effect is running the action with the payload carried by the `TrackSameState` effect; it leaves the slot alone.
