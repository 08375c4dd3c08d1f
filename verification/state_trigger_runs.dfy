/**
 * A subscription driven through a sequence of inputs: delivered state changes
 * and calls of the remove function. The listener and the remove function run
 * one at a time, each to completion, so a run is a left fold of the single
 * steps, with the effects of all steps concatenated in order.
 */
module StateTriggerRuns {
  import opened Optional
  import opened Core
  import opened EventHelpers
  import opened StateTrigger

  /** One input: a delivered change (with the handle a wait would get), or a removal. */
  datatype Input = Deliver(event: StateChange, next: WaitHandle) | Remove

  function Apply(sub: Subscription, input: Input): (r: Reaction) {
    match input
    case Deliver(ev, h) => OnStateChange(sub, ev, h)
    case Remove => AsyncRemove(sub)
  }

  /** The subscription after all inputs, and every effect they asked for, in order. */
  function Run(sub: Subscription, inputs: seq<Input>): (r: Reaction)
    ensures SameSettings(r.sub, sub)
    ensures |r.effects| <= 2 * |inputs|
    decreases |inputs|
  {
    if |inputs| == 0 then
      Reaction(sub, [])
    else
      var first := Apply(sub, inputs[0]);
      var rest := Run(first.sub, inputs[1..]);
      Reaction(rest.sub, first.effects + rest.effects)
  }

  predicate OnlyDeliveries(inputs: seq<Input>) {
    forall i :: 0 <= i < |inputs| ==> inputs[i].Deliver?
  }

  /** The handle of the last wait started in `effects`, or `initial` if none was. */
  function LastWait(effects: seq<Effect>, initial: Option<WaitHandle>): (last: Option<WaitHandle>)
    decreases |effects|
  {
    if |effects| == 0 then initial
    else if effects[|effects| - 1].TrackSameState? then Some(effects[|effects| - 1].handle)
    else LastWait(effects[..|effects| - 1], initial)
  }

  lemma {:induction false} LastWaitAppend(a: seq<Effect>, b: seq<Effect>, initial: Option<WaitHandle>)
    ensures LastWait(a + b, initial) == LastWait(b, LastWait(a, initial))
    decreases |b|
  {
    if |b| == 0 {
      assert a + b == a;
    } else {
      assert (a + b)[|a + b| - 1] == b[|b| - 1];
      assert (a + b)[..|a + b| - 1] == a + b[..|b| - 1];
      LastWaitAppend(a, b[..|b| - 1], initial);
    }
  }

  lemma {:induction false} LastWaitWithoutWaits(effects: seq<Effect>, initial: Option<WaitHandle>)
    requires forall e :: e in effects ==> !e.TrackSameState?
    ensures LastWait(effects, initial) == initial
    decreases |effects|
  {
    if |effects| > 0 {
      assert effects[|effects| - 1] in effects;
      var front := effects[..|effects| - 1];
      forall e | e in front
        ensures !e.TrackSameState?
      {
        var i :| 0 <= i < |front| && front[i] == e;
        assert effects[i] == e;
      }
      LastWaitWithoutWaits(front, initial);
    }
  }

  /**
   * The slot after a run holds the handle of the last wait the run started:
   * every newer wait overwrites it, and nothing else touches it.
   */
  lemma {:induction false} RunSlotHoldsLastWait(sub: Subscription, inputs: seq<Input>)
    ensures Run(sub, inputs).sub.pending == LastWait(Run(sub, inputs).effects, sub.pending)
    decreases |inputs|
  {
    if |inputs| > 0 {
      var first := Apply(sub, inputs[0]);
      var rest := Run(first.sub, inputs[1..]);
      assert first.sub.pending == LastWait(first.effects, sub.pending) by {
        match inputs[0]
        case Remove =>
          LastWaitWithoutWaits(first.effects, sub.pending);
        case Deliver(ev, h) =>
          if first.effects == [] || !first.effects[0].TrackSameState? {
            LastWaitWithoutWaits(first.effects, sub.pending);
          }
      }
      RunSlotHoldsLastWait(first.sub, inputs[1..]);
      LastWaitAppend(first.effects, rest.effects, sub.pending);
    }
  }

  /** Delivered changes never unsubscribe or cancel anything, however many waits they start. */
  lemma {:induction false} DeliveriesNeverCancel(sub: Subscription, inputs: seq<Input>)
    requires OnlyDeliveries(inputs)
    ensures forall e :: e in Run(sub, inputs).effects ==> !e.CancelWait? && !e.Unsubscribe?
    decreases |inputs|
  {
    if |inputs| > 0 {
      var first := Apply(sub, inputs[0]);
      assert OnlyDeliveries(inputs[1..]) by {
        forall i | 0 <= i < |inputs[1..]|
          ensures inputs[1..][i].Deliver?
        {
          assert inputs[1..][i] == inputs[i + 1];
        }
      }
      DeliveriesNeverCancel(first.sub, inputs[1..]);
    }
  }

  lemma {:induction false} RunAppendOne(sub: Subscription, inputs: seq<Input>, last: Input)
    ensures Run(sub, inputs + [last]).sub == Apply(Run(sub, inputs).sub, last).sub
    ensures Run(sub, inputs + [last]).effects
              == Run(sub, inputs).effects + Apply(Run(sub, inputs).sub, last).effects
    decreases |inputs|
  {
    if |inputs| == 0 {
      assert inputs + [last] == [last];
    } else {
      var first := Apply(sub, inputs[0]);
      assert (inputs + [last])[1..] == inputs[1..] + [last];
      RunAppendOne(first.sub, inputs[1..], last);
    }
  }

  /**
   * Removing after any number of delivered changes unsubscribes, then cancels
   * at most one wait: the last one started, or else the one the slot already
   * held.
   */
  lemma {:induction false} RemovalCancelsOnlyLastWait(sub: Subscription, inputs: seq<Input>)
    requires OnlyDeliveries(inputs)
    ensures var before := Run(sub, inputs).effects;
            var all := Run(sub, inputs + [Remove]).effects;
            && |all| > |before|
            && all[..|before|] == before
            && all[|before|] == Unsubscribe
            && forall h :: CancelWait(h) in all <==> LastWait(before, sub.pending) == Some(h)
  {
    var mid := Run(sub, inputs);
    RunAppendOne(sub, inputs, Remove);
    RunSlotHoldsLastWait(sub, inputs);
    DeliveriesNeverCancel(sub, inputs);
    var all := Run(sub, inputs + [Remove]).effects;
    assert all == mid.effects + AsyncRemove(mid.sub).effects;
    forall h
      ensures CancelWait(h) in all <==> CancelWait(h) in AsyncRemove(mid.sub).effects
    {
      assert CancelWait(h) !in mid.effects;
    }
  }

  /** The cancel functions `async_track_same_state` hands back are all different. */
  predicate DistinctHandles(inputs: seq<Input>) {
    forall i, j :: 0 <= i < j < |inputs| && inputs[i].Deliver? && inputs[j].Deliver? ==>
      inputs[i].next != inputs[j].next
  }

  /** Every wait a run starts carries the handle of one of its deliveries. */
  lemma {:induction false} WaitHandlesComeFromInputs(sub: Subscription, inputs: seq<Input>)
    ensures forall e :: e in Run(sub, inputs).effects && e.TrackSameState? ==>
              exists m :: 0 <= m < |inputs| && inputs[m].Deliver? && inputs[m].next == e.handle
    decreases |inputs|
  {
    if |inputs| > 0 {
      var first := Apply(sub, inputs[0]);
      var rest := Run(first.sub, inputs[1..]);
      WaitHandlesComeFromInputs(first.sub, inputs[1..]);
      forall e | e in Run(sub, inputs).effects && e.TrackSameState?
        ensures exists m :: 0 <= m < |inputs| && inputs[m].Deliver? && inputs[m].next == e.handle
      {
        if e in first.effects {
          assert inputs[0].Deliver? && inputs[0].next == e.handle;
        } else {
          assert e in rest.effects;
          var m :| 0 <= m < |inputs[1..]| && inputs[1..][m].Deliver? && inputs[1..][m].next == e.handle;
          assert inputs[m + 1] == inputs[1..][m];
        }
      }
    }
  }

  /** No two waits started in `effects` share a handle. */
  predicate UniqueWaitHandles(effects: seq<Effect>) {
    forall i, k :: 0 <= i < k < |effects| && effects[i].TrackSameState? && effects[k].TrackSameState? ==>
      effects[i].handle != effects[k].handle
  }

  /** With distinct handles on the deliveries, no two waits of a run share a handle. */
  lemma {:induction false} WaitHandlesDistinct(sub: Subscription, inputs: seq<Input>)
    requires DistinctHandles(inputs)
    ensures UniqueWaitHandles(Run(sub, inputs).effects)
    decreases |inputs|
  {
    if |inputs| > 0 {
      var first := Apply(sub, inputs[0]);
      var rest := Run(first.sub, inputs[1..]);
      var e := Run(sub, inputs).effects;
      assert e == first.effects + rest.effects;
      assert DistinctHandles(inputs[1..]) by {
        forall i, j | 0 <= i < j < |inputs[1..]| && inputs[1..][i].Deliver? && inputs[1..][j].Deliver?
          ensures inputs[1..][i].next != inputs[1..][j].next
        {
          assert inputs[1..][i] == inputs[i + 1] && inputs[1..][j] == inputs[j + 1];
        }
      }
      WaitHandlesDistinct(first.sub, inputs[1..]);
      WaitHandlesComeFromInputs(first.sub, inputs[1..]);
      var n := |first.effects|;
      forall i, k | 0 <= i < k < |e| && e[i].TrackSameState? && e[k].TrackSameState?
        ensures e[i].handle != e[k].handle
      {
        if i < n {
          assert e[i] == first.effects[i] && e[i] in first.effects;
          assert inputs[0].Deliver? && e[i].handle == inputs[0].next;
          assert e[k] == rest.effects[k - n] && e[k] in rest.effects;
          var m :| 0 <= m < |inputs[1..]| && inputs[1..][m].Deliver? && inputs[1..][m].next == e[k].handle;
          assert inputs[m + 1] == inputs[1..][m];
          assert inputs[0].next != inputs[m + 1].next;
        } else {
          var i', k' := i - n, k - n;
          assert e[i] == rest.effects[i'] && e[k] == rest.effects[k'];
          assert 0 <= i' < k' < |rest.effects|;
        }
      }
    }
  }

  /** When a run started a wait at index `j`, its last wait is that one or a later one. */
  lemma {:induction false} LastWaitIsLatest(e: seq<Effect>, initial: Option<WaitHandle>, j: nat)
    requires j < |e| && e[j].TrackSameState?
    ensures exists k :: j <= k < |e| && e[k].TrackSameState? && LastWait(e, initial) == Some(e[k].handle)
    decreases |e|
  {
    if !e[|e| - 1].TrackSameState? {
      var front := e[..|e| - 1];
      assert front[j] == e[j];
      LastWaitIsLatest(front, initial, j);
      var k :| j <= k < |front| && front[k].TrackSameState? && LastWait(front, initial) == Some(front[k].handle);
      assert e[k] == front[k];
    }
  }

  /**
   * A wait that a later accepted change superseded is never cancelled, not
   * even by a removal: when the cancel functions handed back are all
   * different, the removal cancels only the newest wait.
   */
  lemma {:induction false} SupersededWaitsNeverCancelled(sub: Subscription, inputs: seq<Input>)
    requires OnlyDeliveries(inputs) && DistinctHandles(inputs)
    ensures var before := Run(sub, inputs).effects;
            var all := Run(sub, inputs + [Remove]).effects;
            forall i, j :: 0 <= i < j < |before| && before[i].TrackSameState? && before[j].TrackSameState? ==>
              CancelWait(before[i].handle) !in all
  {
    var before := Run(sub, inputs).effects;
    RemovalCancelsOnlyLastWait(sub, inputs);
    WaitHandlesDistinct(sub, inputs);
    forall i, j | 0 <= i < j < |before| && before[i].TrackSameState? && before[j].TrackSameState?
      ensures LastWait(before, sub.pending) != Some(before[i].handle)
    {
      LastWaitIsLatest(before, sub.pending, j);
    }
  }

  /**
   * Two accepted changes under a `for` start two waits; the second overwrites
   * the first handle without cancelling it, and a later removal cancels only
   * the second.
   */
  lemma SupersededWaitIsNotCancelled(sub: Subscription, e1: StateChange, e2: StateChange,
                                     h1: WaitHandle, h2: WaitHandle)
    requires IsSet(sub.timeDelta) && h1 != h2
    requires e1.newState.Some? && !IgnoredAsAttributeChange(sub, e1)
    requires e2.newState.Some? && !IgnoredAsAttributeChange(sub, e2)
    ensures var r := Run(sub, [Deliver(e1, h1), Deliver(e2, h2), Remove]);
            && |r.effects| == 4
            && r.effects[0].TrackSameState? && r.effects[0].handle == h1
            && r.effects[1].TrackSameState? && r.effects[1].handle == h2
            && r.effects[2..] == [Unsubscribe, CancelWait(h2)]
            && r.sub.pending == Some(h2)
  {
    var r1 := OnStateChange(sub, e1, h1);
    assert !IgnoredAsAttributeChange(r1.sub, e2);
    var r2 := OnStateChange(r1.sub, e2, h2);
    var r3 := AsyncRemove(r2.sub);
    assert [Deliver(e1, h1), Deliver(e2, h2), Remove][1..] == [Deliver(e2, h2), Remove];
    assert [Deliver(e2, h2), Remove][1..] == [Remove];
    assert [Remove][1..] == [];
    assert Run(r2.sub, [Remove]) == Reaction(r3.sub, r3.effects + []);
    assert Run(r1.sub, [Deliver(e2, h2), Remove]) == Reaction(r3.sub, r2.effects + (r3.effects + []));
  }

  /**
   * The remove function is not idempotent: the slot is never cleared and there
   * is no disposed state, so a second call unsubscribes again and cancels the
   * same wait again.
   */
  lemma RemoveTwiceRepeatsEffects(sub: Subscription)
    ensures var once := AsyncRemove(sub).effects;
            Run(sub, [Remove, Remove]).effects == once + once
    ensures Run(sub, [Remove, Remove]).sub == sub
  {
    assert [Remove, Remove][1..] == [Remove];
    assert [Remove][1..] == [];
  }

  /** A change delivered after removal is handled exactly as before it. */
  lemma RemovalDoesNotDisableListener(sub: Subscription, ev: StateChange, h: WaitHandle)
    ensures var r := Run(sub, [Remove, Deliver(ev, h)]);
            var n := |AsyncRemove(sub).effects|;
            r.effects[n..] == OnStateChange(sub, ev, h).effects
  {
    assert [Remove, Deliver(ev, h)][1..] == [Deliver(ev, h)];
    assert [Deliver(ev, h)][1..] == [];
  }

  /**
   * A wildcard trigger answers every delivered change, attribute-only updates
   * included, with exactly one action run, wait or raise.
   */
  lemma {:induction false} WildcardAnswersEveryChange(sub: Subscription, inputs: seq<Input>)
    requires sub.matchAll && OnlyDeliveries(inputs)
    ensures |Run(sub, inputs).effects| == |inputs|
    ensures forall e :: e in Run(sub, inputs).effects ==>
              e.RunAction? || e.TrackSameState? || e.RaiseAttributeError?
    decreases |inputs|
  {
    if |inputs| > 0 {
      var first := Apply(sub, inputs[0]);
      assert OnlyDeliveries(inputs[1..]) by {
        forall i | 0 <= i < |inputs[1..]|
          ensures inputs[1..][i].Deliver?
        {
          assert inputs[1..][i] == inputs[i + 1];
        }
      }
      WildcardAnswersEveryChange(first.sub, inputs[1..]);
    }
  }
}
