/** The alarm advance and the unblocking of an await, described without their loops. */
module SyncAlarms {
  import opened Options
  import opened SyncTypes
  import opened SyncBrackets
  import opened SyncModel
  import opened SyncRequests
  import opened SyncLinks
  import opened SyncInvariants

  // ----- the alarm advance -----

  /** delta can be added j times without leaving the range, and the trigger is TRUE each of those times. */
  ghost predicate StaysTrue(check: TestType, v: Int64, test: Int64, delta: Int64, k: nat) {
    forall j :: 1 <= j < k ==> InRange(test + j * delta) && CheckValue(check, v, v, test + j * delta)
  }

  /** The k the repeated addition stops at. */
  lemma {:induction false} AdvanceStops(check: TestType, v: Int64, test: Int64, delta: Int64) returns (k: nat)
    requires delta != 0 || !CheckValue(check, v, v, test)
    ensures k >= 1 && StaysTrue(check, v, test, delta, k)
    ensures match Advance(check, v, test, delta)
            case Some(next) => next == test + k * delta && !CheckValue(check, v, v, next)
            case None => !InRange(test + k * delta)
    decreases if delta > 0 then INT64_MAX - test else test - INT64_MIN
  {
    var next := test + delta;
    if InRange(next) && CheckValue(check, v, v, next) {
      var k' := AdvanceStops(check, v, next, delta);
      k := k' + 1;
      Regroup(test, delta, k');
      forall j | 1 <= j < k ensures InRange(test + j * delta) && CheckValue(check, v, v, test + j * delta) {
        Regroup(test, delta, j - 1);
      }
    } else {
      k := 1;
    }
  }

  /**
   * The new test value is the old one plus k times delta for the least k >= 1 that makes the trigger
   * FALSE; there is none exactly when the sum leaves the range of an INT64 first.
   */
  lemma AdvanceIsLeast(check: TestType, v: Int64, test: Int64, delta: Int64)
    requires delta != 0 || !CheckValue(check, v, v, test)
    ensures match Advance(check, v, test, delta)
            case Some(next) =>
              !CheckValue(check, v, v, next) &&
              exists k: nat :: k >= 1 && next == test + k * delta && StaysTrue(check, v, test, delta, k)
            case None => exists k: nat :: k >= 1 && !InRange(test + k * delta) && StaysTrue(check, v, test, delta, k)
  {
    var k := AdvanceStops(check, v, test, delta);
  }

  /** The loop stops: some number of additions overflows or makes the trigger FALSE. */
  ghost predicate LoopEnds(check: TestType, v: Int64, test: Int64, delta: Int64) {
    exists k: nat :: EndsAt(check, v, test, delta, k)
  }

  predicate EndsAt(check: TestType, v: Int64, test: Int64, delta: Int64, k: nat) {
    k >= 1 && !(InRange(test + k * delta) && CheckValue(check, v, v, test + k * delta))
  }

  /** It does not stop exactly when there is nothing to add and the trigger is TRUE. */
  lemma LoopEndsIff(check: TestType, v: Int64, test: Int64, delta: Int64)
    ensures LoopEnds(check, v, test, delta) <==> delta != 0 || !CheckValue(check, v, v, test)
  {
    if delta != 0 || !CheckValue(check, v, v, test) {
      var k := AdvanceStops(check, v, test, delta);
      assert EndsAt(check, v, test, delta, k);
    } else {
      forall k: nat
        ensures !EndsAt(check, v, test, delta, k)
      {
        assert k * delta == 0;
      }
    }
  }

  /** SyncAlarmTriggerFired comes back: it has no loop to run, or the loop stops. */
  ghost predicate Returns(alarm: Alarm, v: Int64) {
    var trig := alarm.trigger;
    || alarm.state != Active || trig.sync.None? || (alarm.delta == 0 && trig.testType.Comparison())
    || LoopEnds(trig.check, v, trig.testValue, alarm.delta)
  }

  /**
   * When SyncAlarmTriggerFired returns: unless an Active alarm with delta 0 has a transition test type and yet a check
   * function that is TRUE at the counter's value.
   */
  lemma ReturnsIff(alarm: Alarm, v: Int64)
    ensures Returns(alarm, v) <==> !Spins(alarm, v)
  {
    LoopEndsIff(alarm.trigger.check, v, alarm.trigger.testValue, alarm.delta);
  }

  /** In order, an alarm never runs into that loop: its check function is the one of its test type. */
  lemma NeverSpins(s: State, a: Xid, v: Int64)
    requires Inv(s) && a in s.alarms
    ensures !Spins(s.alarms[a], v)
  {
    assert AlarmOk(s, a);
  }

  /** With a delta of the right sign, giving up means that no multiple of delta would do. */
  lemma NoValueFits(check: TestType, v: Int64, test: Int64, delta: Int64, k: nat)
    requires delta != 0 && !WrongSign(check, delta) && k >= 1
    requires Advance(check, v, test, delta).None? && check.Comparison()
    ensures !(InRange(test + k * delta) && !CheckValue(check, v, v, test + k * delta))
  {
    var n := AdvanceStops(check, v, test, delta);
    if k >= n {
      if delta > 0 {
        assert k * delta >= n * delta by { Scale(n, k, delta); }
        assert n * delta > 0 by { Scale(0, n, delta); }
      } else {
        var down: int := delta;
        assert k * delta <= n * delta by { Scale(n, k, -down); }
        assert n * delta <= 0 by { Scale(0, n, -down); }
      }
    }
  }

  lemma Scale(n: nat, k: nat, d: nat)
    requires n <= k
    ensures n * d <= k * d
    ensures n < k && d > 0 ==> n * d < k * d
  {
    assert k * d == n * d + (k - n) * d;
    if n < k && d > 0 {
      assert (k - n) * d > 0;
    }
  }

  /** Transition triggers are FALSE at once, so one addition is enough. */
  lemma TransitionAdvancesOnce(check: TestType, v: Int64, test: Int64, delta: Int64)
    requires check in {PositiveTransition, NegativeTransition}
    ensures Advance(check, v, test, delta) == if InRange(test + delta) then Some(test + delta) else None
  {
  }

  /** How often delta has to be added, by one division. */
  function Steps(v: int, test: int, delta: int): int
    requires delta != 0
  {
    var gap := if delta > 0 then v - test else test - v;
    var step := if delta > 0 then delta else -delta;
    if gap < 0 then 1 else gap / step + 1
  }

  /** Something smarter: the test value the loop arrives at. */
  function Jump(v: Int64, test: Int64, delta: Int64): Option<Int64>
    requires delta != 0
  {
    var next := test + Steps(v, test, delta) * delta;
    if InRange(next) then Some(next) else None
  }

  lemma DivideDown(gap: nat, step: nat)
    requires step > 0 && gap >= step
    ensures gap / step == (gap - step) / step + 1
  {
    var q := (gap - step) / step;
    var r := (gap - step) % step;
    assert gap == (q + 1) * step + r;
    Quotient(gap, step, q + 1, r);
  }

  lemma Quotient(x: nat, d: nat, q: nat, r: nat)
    requires d > 0 && x == q * d + r && r < d
    ensures x / d == q
  {
    var p := x / d;
    assert x == p * d + x % d;
    if p < q {
      Scale(p + 1, q, d);
    } else if p > q {
      Scale(q + 1, p, d);
    }
  }

  /** One addition closer, one addition less. */
  lemma StepsNext(v: int, test: int, delta: int)
    requires delta > 0 ==> v >= test + delta
    requires delta < 0 ==> v <= test + delta
    requires delta != 0
    ensures Steps(v, test, delta) == Steps(v, test + delta, delta) + 1
  {
    if delta > 0 {
      DivideDown(v - test, delta);
    } else {
      DivideDown(test - v, -delta);
    }
  }

  lemma OneStep(v: int, test: int, delta: int)
    requires delta > 0 ==> v < test + delta
    requires delta < 0 ==> v > test + delta
    requires delta != 0
    ensures Steps(v, test, delta) == 1
  {
  }

  lemma Regroup(test: int, delta: int, k: int)
    ensures test + (k + 1) * delta == (test + delta) + k * delta
  {
  }

  /** The loop that adds delta until the trigger is FALSE computes what one division does. */
  lemma {:induction false} JumpRefinesAdvance(check: TestType, v: Int64, test: Int64, delta: Int64)
    requires delta != 0 && check.Comparison() && !WrongSign(check, delta)
    ensures Advance(check, v, test, delta) == Jump(v, test, delta)
    decreases if delta > 0 then INT64_MAX - test else test - INT64_MIN
  {
    var next := test + delta;
    if CheckValue(check, v, v, next) {
      // v is beyond next, so next is in range
      var next64: Int64 := next;
      JumpRefinesAdvance(check, v, next64, delta);
      StepsNext(v, test, delta);
      Regroup(test, delta, Steps(v, next, delta));
    } else {
      OneStep(v, test, delta);
      Regroup(test, delta, 0);
    }
  }

  /** Who is told: the owner if it wants events, and those who have selected them. */
  function Listeners(alarm: Alarm): seq<Client> {
    (if alarm.events then [alarm.client] else []) + alarm.eventClients
  }

  /**
   * What firing an Active alarm on a counter does: exactly one AlarmNotify event, with the test value
   * from before and the state from after; the state is Inactive if and only if there was no way to
   * advance, and then the test value has not changed.
   */
  lemma AlarmGoesOff(s: State, a: Xid)
    requires a in s.alarms && s.alarms[a].state == Active && Agrees(s.alarms[a])
    ensures var s' := FireAlarm(s, a);
      var was := s.alarms[a];
      var now := s'.alarms[a];
      && var value := if was.trigger.sync.Some? then ValueOf(s, was.trigger.sync.value) else 0;
      && s'.log == s.log + [AlarmNotify(a, value, was.trigger.testValue, now.state, Listeners(was))]
      && (now.state == Inactive <==>
            was.trigger.sync.None? || (was.delta == 0 && was.trigger.check.Comparison())
            || Advance(was.trigger.check, ValueOf(s, was.trigger.sync.value), was.trigger.testValue, was.delta).None?)
      && (now.state == Inactive ==> now.trigger == was.trigger)
      && (now.state == Active ==>
            Some(now.trigger.testValue)
            == Advance(was.trigger.check, ValueOf(s, was.trigger.sync.value), was.trigger.testValue, was.delta))
  {
    FireAlarmEffect(s, a);
  }

  // ----- unblocking a client -----

  /** The position in the request of each condition that gets an event. */
  function EventIndices(s: State, conds: seq<Condition>): seq<nat> {
    if conds == [] then []
    else
      var n := |conds| - 1;
      EventIndices(s, conds[..n]) + (if WantsEvent(s, conds[n]) then [n] else [])
  }

  /** In the order of the request, exactly those that want an event. */
  lemma {:induction false} EventIndicesAre(s: State, conds: seq<Condition>)
    ensures var r := EventIndices(s, conds);
      && |r| == |EventConds(s, conds)|
      && (forall i :: 0 <= i < |r| ==> r[i] < |conds| && EventConds(s, conds)[i] == conds[r[i]])
      && (forall i, j :: 0 <= i < j < |r| ==> r[i] < r[j])
      && (forall k :: 0 <= k < |conds| ==> (k in r <==> WantsEvent(s, conds[k])))
  {
    hide WantsEvent;
    if conds != [] {
      var n := |conds| - 1;
      EventIndicesAre(s, conds[..n]);
      LastIndex(s, conds, EventIndices(s, conds[..n]), EventConds(s, conds[..n]));
    }
  }

  /** One more condition, that may want an event. */
  lemma LastIndex(s: State, conds: seq<Condition>, p: seq<nat>, chosen: seq<Condition>)
    requires conds != [] && |p| == |chosen|
    requires forall i :: 0 <= i < |p| ==> p[i] < |conds| - 1 && chosen[i] == conds[..|conds| - 1][p[i]]
    requires forall i, j :: 0 <= i < j < |p| ==> p[i] < p[j]
    requires forall k :: 0 <= k < |conds| - 1 ==> (k in p <==> WantsEvent(s, conds[..|conds| - 1][k]))
    ensures var n := |conds| - 1;
      var wants := WantsEvent(s, conds[n]);
      var r, r' := p + (if wants then [n] else []), chosen + if wants then [conds[n]] else [];
      && |r| == |r'| && (forall i :: 0 <= i < |r| ==> r[i] < |conds| && r'[i] == conds[r[i]])
      && (forall i, j :: 0 <= i < j < |r| ==> r[i] < r[j])
      && (forall k :: 0 <= k < |conds| ==> (k in r <==> WantsEvent(s, conds[k])))
  {
    hide WantsEvent;
    var n := |conds| - 1;
    forall k | 0 <= k < |conds|
      ensures k in p + (if WantsEvent(s, conds[n]) then [n] else []) <==> WantsEvent(s, conds[k])
    {
      if k < n {
        assert conds[k] == conds[..n][k];
      } else {
        assert forall i :: 0 <= i < |p| ==> p[i] != n;
      }
    }
  }

  /** The event for condition k: the counter and its value, the value waited for, and how many more follow. */
  predicate EventOf(s: State, aw: Await, e: Event, k: nat, count: nat) {
    && k < |aw.conds| && e.CounterNotify? && e.client == aw.client && e.count == count
    && Some(e.counter) == aw.conds[k].trigger.sync && e.waitValue == aw.conds[k].trigger.testValue
    && e.counterValue == ValueOf(s, e.counter)
    && e.destroyed == (e.counter in s.counters && s.counters[e.counter].beingDestroyed)
  }

  /** The events of an await: one for each condition that wants one, in order, counting down to 0. */
  ghost predicate EventsOf(s: State, aw: Await, events: seq<Event>) {
    var wanted := EventIndices(s, aw.conds);
    && |events| == |wanted|
    && forall i :: 0 <= i < |wanted| ==> EventOf(s, aw, events[i], wanted[i], |wanted| - 1 - i)
  }

  lemma EventsAreWanted(s: State, aw: Await)
    requires AwaitComplete(aw)
    ensures EventsOf(s, aw, CounterEvents(s, aw.client, EventConds(s, aw.conds)))
  {
    var wanted := EventIndices(s, aw.conds);
    var conds := EventConds(s, aw.conds);
    var events := CounterEvents(s, aw.client, conds);
    EventIndicesAre(s, aw.conds);
    forall i | 0 <= i < |wanted|
      ensures EventOf(s, aw, events[i], wanted[i], |wanted| - 1 - i)
    {
      assert conds[i] == aw.conds[wanted[i]];
      assert events[i] == CounterEvent(s, aw.client, conds[i], |wanted| - 1 - i);
    }
  }

  /**
   * When an await unblocks, between requests or because one of its counters is being destroyed, its events are appended to
   * the log in one block, in the order of the conditions, one for each condition that wants one, with counts running down
   * to 0; the await and all its conditions disappear, but for a node that the destroying walk is about to drop; the client
   * can be served again.
   */
  lemma AwaitUnblocks(s: State, w: Xid)
    requires Linked(s) && Complete(s) && Blocking(s) && w in s.awaits && s.awaits[w].client !in s.gone
    ensures var s' := FireAwait(s, w);
      && w !in s'.awaits && s'.alarms == s.alarms && s.awaits[w].client !in s'.ignore
      && s.log <= s'.log && EventsOf(s, s.awaits[w], s'.log[|s.log|..])
    ensures forall c, i: nat :: c in s.counters && !s.counters[c].beingDestroyed ==>
              c in FireAwait(s, w).counters && AwaitTrigger(w, i) !in FireAwait(s, w).counters[c].triggers
  {
    hide FireAwait, CounterEvents, EventConds, EventsOf, EventIndices, Linked, Prune;
    var aw := s.awaits[w];
    assert AwaitComplete(aw) && aw.conds[..aw.armed] == aw.conds;
    FireAwaitEffect(s, w);
    UnblockLog(s, w);
    EventsAreWanted(s, aw);
    var s' := FireAwait(s, w);
    assert s'.log[|s.log|..] == CounterEvents(s, aw.client, EventConds(s, aw.conds));
    forall c, i: nat | c in s.counters && !s.counters[c].beingDestroyed
      ensures c in s'.counters && AwaitTrigger(w, i) !in s'.counters[c].triggers
    {
      assert s'.counters[c].triggers == Pruned(s.counters[c], w, aw.armed);
      ArmedOnList(s, c, w);
    }
  }

  lemma UnblockLog(s: State, w: Xid)
    requires Linked(s) && w in s.awaits && s.awaits[w].client !in s.gone
    ensures var aw := s.awaits[w];
      FireAwait(s, w).log == s.log + CounterEvents(s, aw.client, EventConds(s, aw.conds[..aw.armed]))
  {
    var aw := s.awaits[w];
    var events := CounterEvents(s, aw.client, EventConds(s, aw.conds[..aw.armed]));
    var s1 := Unignore(s.(log := s.log + events), aw.client);
    LinkedFrame(s, s1);
    UnlinkEffect(s1, w, aw.armed);
  }

  /**
   * Which conditions a client is told about when its await unblocks: those on a counter that is being destroyed, and those
   * whose counter differs from the test value by the event threshold or more, in the direction of the test. The difference
   * has to fit an INT64. Each is told once, with the counter's value and the number of events still to come.
   */
  lemma AwaitTells(s: State, w: Xid, k: nat)
    requires Linked(s) && Complete(s) && Blocking(s) && w in s.awaits && s.awaits[w].client !in s.gone
    requires k < |s.awaits[w].conds|
    ensures var cond := s.awaits[w].conds[k];
      && cond.trigger.sync.Some? && cond.trigger.sync.value in s.counters
      && var c := cond.trigger.sync.value;
      var log := FireAwait(s, w).log;
      var diff := s.counters[c].value - cond.trigger.testValue;
      && ((exists i :: |s.log| <= i < |log| && log[i].CounterNotify? && log[i].counter == c) <==>
            || s.counters[c].beingDestroyed
            || (INT64_MIN <= diff <= INT64_MAX &&
                match cond.trigger.testType
                case PositiveComparison => diff >= cond.threshold
                case PositiveTransition => diff >= cond.threshold
                case NegativeComparison => diff <= cond.threshold
                case NegativeTransition => diff <= cond.threshold
                case OtherTest(_) => false))
      && (forall i, j :: |s.log| <= i < j < |log| && log[i].CounterNotify? && log[j].CounterNotify? ==>
            log[i].counter != log[j].counter)
      && (forall i :: |s.log| <= i < |log| && log[i].CounterNotify? && log[i].counter == c ==>
            log[i] == CounterNotify(s.awaits[w].client, c, cond.trigger.testValue, s.counters[c].value, |log| - 1 - i,
                                    s.counters[c].beingDestroyed))
  {
    hide FireAwait, EventsOf, Linked, WantsEvent;
    var aw := s.awaits[w];
    assert AwaitComplete(aw);
    AwaitUnblocks(s, w);
    CondLinked(s, w, k);
    EventsTell(s, aw, FireAwait(s, w).log, |s.log|, k);
    WantsMeans(s, aw.conds[k]);
  }

  /** Which of the events at the end of the log are for the counter of condition k. */
  lemma EventsTell(s: State, aw: Await, log: seq<Event>, n: nat, k: nat)
    requires AwaitComplete(aw) && k < |aw.conds| && n <= |log| && EventsOf(s, aw, log[n..])
    requires aw.conds[k].trigger.sync.value in s.counters
    ensures var c := aw.conds[k].trigger.sync.value;
      && ((exists i :: n <= i < |log| && log[i].CounterNotify? && log[i].counter == c) <==> WantsEvent(s, aw.conds[k]))
      && (forall i, j :: n <= i < j < |log| && log[i].CounterNotify? && log[j].CounterNotify? ==>
            log[i].counter != log[j].counter)
      && (forall i :: n <= i < |log| && log[i].CounterNotify? && log[i].counter == c ==>
            log[i] == CounterNotify(aw.client, c, aw.conds[k].trigger.testValue, s.counters[c].value, |log| - 1 - i,
                                    s.counters[c].beingDestroyed))
  {
    hide WantsEvent, EventConds, EventIndices;
    EventIndicesAre(s, aw.conds);
    var wanted, c := EventIndices(s, aw.conds), aw.conds[k].trigger.sync.value;
    forall i | n <= i < |log|
      ensures EventOf(s, aw, log[i], wanted[i - n], |log| - 1 - i)
    {
      assert log[i] == log[n..][i - n];
    }
    if WantsEvent(s, aw.conds[k]) {
      var i :| 0 <= i < |wanted| && wanted[i] == k;
      assert log[n + i].counter == c;
    }
  }

  lemma CondLinked(s: State, w: Xid, k: nat)
    requires Linked(s) && w in s.awaits && AwaitComplete(s.awaits[w]) && k < |s.awaits[w].conds|
    ensures var sync := s.awaits[w].conds[k].trigger.sync; sync.Some? && sync.value in s.counters
  {
    assert Armed(s, AwaitTrigger(w, k)) && Trig(s, AwaitTrigger(w, k)) == s.awaits[w].conds[k].trigger;
  }

  lemma WantsMeans(s: State, cond: Condition)
    requires cond.trigger.sync.Some? && cond.trigger.sync.value in s.counters
    ensures var k := s.counters[cond.trigger.sync.value];
      var diff := k.value - cond.trigger.testValue;
      WantsEvent(s, cond) <==>
        || k.beingDestroyed
        || (INT64_MIN <= diff <= INT64_MAX &&
            match cond.trigger.testType
            case PositiveComparison => diff >= cond.threshold
            case PositiveTransition => diff >= cond.threshold
            case NegativeComparison => diff <= cond.threshold
            case NegativeTransition => diff <= cond.threshold
            case OtherTest(_) => false)
  {
  }
}
