/**
 * The state trigger of the automation component: a subscription that watches
 * state changes of some entities and runs the automation's action, either at
 * once or after the new state has held for a `for` duration.
 *
 * The subscription's only mutable part is the slot holding the cancel handle of
 * the last stability wait it asked for. Every operation is a pure function from
 * the subscription to a `Reaction`: the subscription afterwards and the effects
 * the operation asks of its collaborators, in order.
 */
module StateTrigger {
  import opened Optional
  import opened Core
  import opened EventHelpers

  /** The only platform name the trigger schema admits. */
  const PLATFORM: string := "state"

  /**
   * A trigger configuration as the schema leaves it. `from` and `to` are kept
   * as strings, never converted from other YAML types; an absent optional key
   * is `None`.
   */
  datatype TriggerConfig = TriggerConfig(
    platform: string,
    entityIds: seq<string>,
    fromState: Option<string>,
    toState: Option<string>,
    forDelta: Option<Duration>)

  /** The schema's rules this model relies on: the platform is `state`, and `for` needs `to`. */
  predicate ValidConfig(cfg: TriggerConfig) {
    && cfg.platform == PLATFORM
    && (cfg.forDelta.Some? ==> cfg.toState.Some?)
  }

  /** The `trigger` entry of the variables handed to the action. */
  datatype TriggerData = TriggerData(
    platform: string,
    entityId: string,
    fromState: Option<State>,
    toState: Option<State>,
    forDelta: Option<Duration>)

  /** The variables handed to the action: `{'trigger': ...}`. */
  datatype RunVariables = RunVariables(trigger: TriggerData)

  /** What the trigger asks of its collaborators. */
  datatype Effect =
      /** Register the listener with `async_track_state_change`. */
    | TrackStateChange(entityIds: seq<string>, fromState: string, toState: string)
      /** Run the action now with these variables. */
    | RunAction(variables: RunVariables)
      /**
       * Ask `async_track_same_state` to run the action with `onConfirmed` once
       * the entities have held `target` for `delta`; `handle` is the cancel
       * function it returned.
       */
    | TrackSameState(handle: WaitHandle, target: string, delta: Duration,
                     entityIds: seq<string>, onConfirmed: RunVariables)
      /** Call the unsubscribe function of the state-change listener. */
    | Unsubscribe
      /** Call a stored cancel function of a stability wait. */
    | CancelWait(handle: WaitHandle)
      /** The listener raises `AttributeError`: it read `.state` of a missing new state. */
    | RaiseAttributeError

  /**
   * A live trigger: the values `async_trigger` computed once from the
   * configuration, and the slot `async_remove_track_same`.
   */
  datatype Subscription = Subscription(
    entityIds: seq<string>,
    fromState: string,
    toState: string,
    timeDelta: Option<Duration>,
    matchAll: bool,
    pending: Option<WaitHandle>)

  /** The subscription after an operation, and the effects it asked for, in order. */
  datatype Reaction = Reaction(sub: Subscription, effects: seq<Effect>)

  /** Two subscriptions agree on everything the configuration fixed; only the slot may differ. */
  predicate SameSettings(a: Subscription, b: Subscription) {
    a.(pending := b.pending) == b
  }

  /**
   * `async_trigger`: default both filters to `MATCH_ALL`, compute the wildcard
   * flag once, start with an empty slot, and register the listener.
   */
  function AsyncTrigger(cfg: TriggerConfig): (r: Reaction)
    requires ValidConfig(cfg)
    ensures r.sub.matchAll <==>
              && (cfg.fromState.None? || cfg.fromState == Some(MATCH_ALL))
              && (cfg.toState.None? || cfg.toState == Some(MATCH_ALL))
    ensures cfg.fromState.Some? ==> r.sub.fromState == cfg.fromState.value
    ensures cfg.toState.Some? ==> r.sub.toState == cfg.toState.value
    ensures cfg.fromState.None? ==> r.sub.fromState == MATCH_ALL
    ensures cfg.toState.None? ==> r.sub.toState == MATCH_ALL
    ensures r.sub.entityIds == cfg.entityIds && r.sub.timeDelta == cfg.forDelta
    ensures r.sub.pending == None
    ensures r.effects == [TrackStateChange(cfg.entityIds, r.sub.fromState, r.sub.toState)]
  {
    var fromState := Or(cfg.fromState, MATCH_ALL);
    var toState := Or(cfg.toState, MATCH_ALL);
    var matchAll := fromState == MATCH_ALL && toState == MATCH_ALL;
    var sub := Subscription(cfg.entityIds, fromState, toState, cfg.forDelta, matchAll, None);
    Reaction(sub, [TrackStateChange(sub.entityIds, sub.fromState, sub.toState)])
  }

  /**
   * `call_action`: the variables the action receives for one state change.
   * What it builds is stated by the contract of `OnStateChange`.
   */
  function CallAction(sub: Subscription, ev: StateChange): (v: RunVariables) {
    RunVariables(TriggerData(PLATFORM, ev.entityId, ev.oldState, ev.newState, sub.timeDelta))
  }

  /**
   * The listener's guard against attribute-only updates: a trigger with a
   * `from` or `to` filter ignores a change whose two snapshots share the same
   * `last_changed`. Its effect is stated by the contract of `OnStateChange`.
   */
  predicate IgnoredAsAttributeChange(sub: Subscription, ev: StateChange) {
    && !sub.matchAll
    && ev.oldState.Some?
    && ev.newState.Some?
    && ev.oldState.value.lastChanged == ev.newState.value.lastChanged
  }

  /**
   * `state_automation_listener` for one delivered change. `next` stands for
   * the cancel function `async_track_same_state` returns if a wait is started.
   */
  function OnStateChange(sub: Subscription, ev: StateChange, next: WaitHandle): (r: Reaction)
    // at most one effect, and never a cancellation or an unsubscription
    ensures |r.effects| <= 1
    ensures forall e :: e in r.effects ==> !e.CancelWait? && !e.Unsubscribe? && !e.TrackStateChange?
    ensures SameSettings(r.sub, sub)
    // an update is dropped exactly when it is attribute-only and the trigger is not a wildcard
    ensures r.effects == [] <==>
              && !sub.matchAll
              && ev.oldState.Some? && ev.newState.Some?
              && ev.oldState.value.lastChanged == ev.newState.value.lastChanged
    ensures r.effects == [] ==> r.sub == sub
    // without a (non-zero) `for`, an accepted change runs the action at once
    ensures r.effects != [] && !IsSet(sub.timeDelta) ==>
              && r.sub == sub
              && r.effects == [RunAction(RunVariables(TriggerData(
                   PLATFORM, ev.entityId, ev.oldState, ev.newState, sub.timeDelta)))]
    // with a `for`, it starts a wait on the new state and overwrites the slot
    ensures r.effects != [] && IsSet(sub.timeDelta) && ev.newState.Some? ==>
              && r.sub.pending == Some(next)
              && r.effects == [TrackSameState(next, ev.newState.value.state, sub.timeDelta.value,
                   sub.entityIds, RunVariables(TriggerData(
                     PLATFORM, ev.entityId, ev.oldState, ev.newState, sub.timeDelta)))]
    // with a `for` and no new state, reading its `.state` raises
    ensures r.effects != [] && IsSet(sub.timeDelta) && ev.newState.None? ==>
              r.sub == sub && r.effects == [RaiseAttributeError]
  {
    if IgnoredAsAttributeChange(sub, ev) then
      Reaction(sub, [])
    else if !IsSet(sub.timeDelta) then
      Reaction(sub, [RunAction(CallAction(sub, ev))])
    else
      match ev.newState
      case None => Reaction(sub, [RaiseAttributeError])
      case Some(toS) =>
        Reaction(sub.(pending := Some(next)),
                 [TrackSameState(next, toS.state, sub.timeDelta.value, sub.entityIds,
                                 CallAction(sub, ev))])
  }

  /**
   * `async_remove`: unsubscribe the listener, then call the stored cancel
   * function if one was ever stored. The slot is left as it is.
   */
  function AsyncRemove(sub: Subscription): (r: Reaction)
    ensures r.sub == sub
    ensures |r.effects| == (if sub.pending.Some? then 2 else 1)
    ensures r.effects[0] == Unsubscribe
    ensures forall h :: CancelWait(h) in r.effects <==> sub.pending == Some(h)
    ensures forall e :: e in r.effects ==> e.Unsubscribe? || e.CancelWait?
  {
    match sub.pending
    case None => Reaction(sub, [Unsubscribe])
    case Some(h) => Reaction(sub, [Unsubscribe, CancelWait(h)])
  }

  /**
   * The wildcard flag is set when both filters are left out. Because `MATCH_ALL`
   * is an ordinary string, writing it explicitly has the same effect; when
   * neither filter is written as `MATCH_ALL`, the flag means both were left out.
   */
  lemma WildcardIffFiltersOmitted(cfg: TriggerConfig)
    requires ValidConfig(cfg)
    requires cfg.fromState != Some(MATCH_ALL) && cfg.toState != Some(MATCH_ALL)
    ensures AsyncTrigger(cfg).sub.matchAll <==> cfg.fromState.None? && cfg.toState.None?
  {
  }

  /**
   * A wildcard trigger can carry a `for` only when its `to` is written out as
   * `MATCH_ALL`: the schema makes `for` require `to`.
   */
  lemma WildcardWithDurationNamesMatchAll(cfg: TriggerConfig)
    requires ValidConfig(cfg) && cfg.forDelta.Some?
    ensures AsyncTrigger(cfg).sub.matchAll ==> cfg.toState == Some(MATCH_ALL)
  {
  }

  /**
   * For a change the helper delivered to a trigger with a concrete `to`, the
   * snapshots of every payload, immediate or carried by a wait, satisfy both
   * filters, the listener never raises, and a
   * wait it starts watches the configured `to` value.
   */
  lemma DeliveredChangeRespectsFilters(cfg: TriggerConfig, ev: StateChange, h: WaitHandle)
    requires ValidConfig(cfg) && cfg.toState != Some(MATCH_ALL)
    requires var sub := AsyncTrigger(cfg).sub;
             Delivered(sub.entityIds, sub.fromState, sub.toState, ev)
    ensures var r := OnStateChange(AsyncTrigger(cfg).sub, ev, h);
            && RaiseAttributeError !in r.effects
            && (forall e :: e in r.effects && e.TrackSameState? ==>
                  e.target == cfg.toState.value && e.entityIds == cfg.entityIds)
            && (forall e :: e in r.effects && e.RunAction? ==>
                  && e.variables.trigger.entityId in cfg.entityIds
                  && Matches(e.variables.trigger.fromState, AsyncTrigger(cfg).sub.fromState)
                  && Matches(e.variables.trigger.toState, AsyncTrigger(cfg).sub.toState))
            && (forall e :: e in r.effects && e.TrackSameState? ==>
                  && e.onConfirmed.trigger.entityId in cfg.entityIds
                  && Matches(e.onConfirmed.trigger.fromState, AsyncTrigger(cfg).sub.fromState)
                  && Matches(e.onConfirmed.trigger.toState, AsyncTrigger(cfg).sub.toState))
  {
  }
}
