/**
 * What each procedure of Xext/sync.c does to the extension's state, as functions on states. The class in
 * SyncServer.dfy carries the procedures themselves and proves that they compute these functions.
 *
 * The functions are total so that they compose without side conditions. Where the C code would follow a
 * dangling pointer or would not return, their value means nothing; the procedures of SyncServer exclude
 * those states by precondition and SyncInvariants shows that no run reaches them.
 */
module SyncModel {
  import opened Options
  import opened SyncTypes
  import opened SyncBrackets

  // ----- counters and trigger lists -----

  function Triggers(s: State, list: seq<TriggerId>): (r: seq<Trigger>)
    ensures forall t :: t in list && Has(s, t) ==> Trig(s, t) in r
    ensures forall u :: u in r ==> exists t :: t in list && Has(s, t) && Trig(s, t) == u
  {
    if list == [] then []
    else
      var n := |list| - 1;
      assert list == list[..n] + [list[n]];
      Triggers(s, list[..n]) + (if Has(s, list[n]) then [Trig(s, list[n])] else [])
  }

  predicate IsSystem(s: State, c: Xid) {
    c in s.counters && s.counters[c].kind.SystemCounter?
  }

  /** SyncComputeBracketValues, on system counters. */
  function Refresh(s: State, c: Xid): State {
    if IsSystem(s, c) && s.counters[c].kind.ct != NeverChanges then
      var k := s.counters[c];
      var b := NarrowAll(k.kind.ct, k.value, Triggers(s, k.triggers));
      s.(counters := s.counters[c := k.(kind := k.kind.(brackets := b))])
    else s
  }

  function SetList(s: State, c: Xid, list: seq<TriggerId>): State
    requires c in s.counters
  {
    s.(counters := s.counters[c := s.counters[c].(triggers := list)])
  }

  function SetValue(s: State, c: Xid, v: Int64): State {
    if c in s.counters then s.(counters := s.counters[c := s.counters[c].(value := v)]) else s
  }

  /** SyncDeleteTriggerFromSyncObject */
  function DeleteTrigger(s: State, t: TriggerId): State {
    if Has(s, t) && Trig(s, t).sync.Some? && Trig(s, t).sync.value in s.counters then
      var c := Trig(s, t).sync.value;
      Refresh(SetList(s, c, Without(s.counters[c].triggers, t)), c)
    else s
  }

  /** SyncAddTriggerToSyncObject */
  function AddTrigger(s: State, t: TriggerId): State {
    if Has(s, t) && Trig(s, t).sync.Some? && Trig(s, t).sync.value in s.counters then
      var c := Trig(s, t).sync.value;
      if t in s.counters[c].triggers then s
      else Refresh(SetList(s, c, [t] + s.counters[c].triggers), c)
    else s
  }

  // ----- alarms -----

  /**
   * The new test value of an alarm that goes off: delta is added again and again until the trigger is
   * FALSE; None when the sum leaves the range of an INT64.
   */
  function Advance(check: TestType, v: Int64, test: Int64, delta: Int64): Option<Int64>
    requires delta != 0 || !CheckValue(check, v, v, test)
    decreases if delta > 0 then INT64_MAX - test else test - INT64_MIN
  {
    var next := test + delta;
    if !InRange(next) then None
    else if CheckValue(check, v, v, next) then Advance(check, v, next, delta)
    else Some(next)
  }

  function NotifyAlarm(s: State, a: Xid): State
    requires a in s.alarms
  {
    var alarm := s.alarms[a];
    var value := if alarm.trigger.sync.Some? then ValueOf(s, alarm.trigger.sync.value) else 0;
    var to := (if alarm.events then [alarm.client] else []) + alarm.eventClients;
    s.(log := s.log + [AlarmNotify(a, value, alarm.trigger.testValue, alarm.state, to)])
  }

  function SetAlarm(s: State, a: Xid, alarm: Alarm): State {
    s.(alarms := s.alarms[a := alarm])
  }

  /**
   * The loop that advances the alarm has no end: delta is 0, the trigger is TRUE, and the test type is not
   * one of those for which a delta of 0 makes the alarm Inactive.
   */
  predicate Spins(alarm: Alarm, v: Int64) {
    alarm.state == Active && alarm.trigger.sync.Some? && alarm.delta == 0 && !alarm.trigger.testType.Comparison()
    && CheckValue(alarm.trigger.check, v, v, alarm.trigger.testValue)
  }

  /** SyncAlarmTriggerFired; no state comes after one in which it does not return. */
  function FireAlarm(s: State, a: Xid): State
    requires a in s.alarms
  {
    var alarm := s.alarms[a];
    var trig := alarm.trigger;
    if alarm.state != Active then s
    else if trig.sync.None? || (alarm.delta == 0 && trig.testType.Comparison()) then
      NotifyAlarm(SetAlarm(s, a, alarm.(state := Inactive)), a)
    else if Spins(alarm, ValueOf(s, trig.sync.value)) then s
    else
      match Advance(trig.check, ValueOf(s, trig.sync.value), trig.testValue, alarm.delta)
      case Some(next) =>
        SetAlarm(NotifyAlarm(s, a), a, alarm.(trigger := trig.(testValue := next)))
      case None => NotifyAlarm(SetAlarm(s, a, alarm.(state := Inactive)), a)
  }

  /** SyncAlarmCounterDestroyed */
  function AlarmCounterDestroyed(s: State, a: Xid): State
    requires a in s.alarms
  {
    var alarm := s.alarms[a].(state := Inactive);
    SetAlarm(NotifyAlarm(SetAlarm(s, a, alarm), a), a, alarm.(trigger := alarm.trigger.(sync := None)))
  }

  // ----- awaits -----

  /** Whether an unblocked await sends a CounterNotify event for one of its conditions. */
  predicate WantsEvent(s: State, cond: Condition) {
    var trig := cond.trigger;
    trig.sync.Some? && trig.sync.value in s.counters &&
    var k := s.counters[trig.sync.value];
    k.beingDestroyed ||
    (InRange(k.value - trig.testValue) &&
     ((trig.testType.Positive() && k.value - trig.testValue >= cond.threshold) ||
      (trig.testType.Negative() && k.value - trig.testValue <= cond.threshold)))
  }

  /** The conditions that get an event, in the order of the request. */
  function EventConds(s: State, conds: seq<Condition>): seq<Condition> {
    if conds == [] then []
    else
      var n := |conds| - 1;
      EventConds(s, conds[..n]) + (if WantsEvent(s, conds[n]) then [conds[n]] else [])
  }

  function CounterEvent(s: State, client: Client, cond: Condition, count: nat): Event {
    var c := if cond.trigger.sync.Some? then cond.trigger.sync.value else NONE;
    CounterNotify(client, c, cond.trigger.testValue, ValueOf(s, c), count, c in s.counters && s.counters[c].beingDestroyed)
  }

  /** The CounterNotify events of one await: contiguous, each with the number of events still to follow. */
  function CounterEvents(s: State, client: Client, conds: seq<Condition>): seq<Event> {
    seq(|conds|, i requires 0 <= i < |conds| => CounterEvent(s, client, conds[i], |conds| - 1 - i))
  }

  function Unignore(s: State, client: Client): State {
    if client in s.gone || client !in s.ignore then s
    else if s.ignore[client] <= 1 then s.(ignore := s.ignore - {client})
    else s.(ignore := s.ignore[client := s.ignore[client] - 1])
  }

  function Ignore(s: State, client: Client): State {
    s.(ignore := s.ignore[client := (if client in s.ignore then s.ignore[client] else 0) + 1])
  }

  /** One round of the loop of FreeAwait. */
  function UnlinkOne(s: State, w: Xid, i: nat): State {
    var t := AwaitTrigger(w, i);
    if Has(s, t) && Trig(s, t).sync.Some? && Trig(s, t).sync.value in s.counters
       && !s.counters[Trig(s, t).sync.value].beingDestroyed
    then DeleteTrigger(s, t)
    else s
  }

  function Unlink(s: State, w: Xid, n: nat): State {
    if n == 0 then s else UnlinkOne(Unlink(s, w, n - 1), w, n - 1)
  }

  /** FreeAwait, together with the removal of the resource */
  function FreeAwait(s: State, w: Xid): State
    requires w in s.awaits
  {
    var u := Unlink(s, w, s.awaits[w].armed);
    u.(awaits := u.awaits - {w})
  }

  /** SyncAwaitTriggerFired: also the CounterDestroyed function of an await */
  function FireAwait(s: State, w: Xid): State
    requires w in s.awaits && s.awaits[w].armed <= |s.awaits[w].conds|
  {
    var aw := s.awaits[w];
    var conds := EventConds(s, aw.conds[..aw.armed]);
    var events := if aw.client in s.gone then [] else CounterEvents(s, aw.client, conds);
    FreeAwait(Unignore(s.(log := s.log + events), aw.client), w)
  }

  // ----- firing and walking -----

  /** TriggerFired */
  function Fire(s: State, t: TriggerId): State {
    match t
    case AlarmTrigger(a) => if a in s.alarms then FireAlarm(s, a) else s
    case AwaitTrigger(w, _) => if w in s.awaits && s.awaits[w].armed <= |s.awaits[w].conds| then FireAwait(s, w) else s
  }

  function FireAll(s: State, ts: seq<TriggerId>): State {
    if ts == [] then s else Fire(FireAll(s, ts[..|ts| - 1]), ts[|ts| - 1])
  }

  /** The triggers on `list` whose check holds, in list order. */
  function True(s: State, list: seq<TriggerId>, was: Int64): (r: seq<TriggerId>)
    ensures forall t :: t in r <==> t in list && Has(s, t) && Check(s, Trig(s, t), was)
  {
    if list == [] then []
    else
      var n := |list| - 1;
      assert list == list[..n] + [list[n]];
      True(s, list[..n], was) + (if Has(s, list[n]) && Check(s, Trig(s, list[n]), was) then [list[n]] else [])
  }

  /** r is `list` with nodes left out. */
  predicate InOrder(r: seq<TriggerId>, list: seq<TriggerId>)
    decreases |list|
  {
    if list == [] then r == []
    else
      var n := |list| - 1;
      InOrder(r, list[..n]) || (r != [] && r[|r| - 1] == list[n] && InOrder(r[..|r| - 1], list[..n]))
  }

  /** The triggers chosen are in list order, each once. */
  lemma {:induction false} TrueInOrder(s: State, list: seq<TriggerId>, was: Int64)
    requires NoDup(list)
    ensures InOrder(True(s, list, was), list) && NoDup(True(s, list, was))
  {
    if list != [] {
      var n := |list| - 1;
      TrueInOrder(s, list[..n], was);
      var before := True(s, list[..n], was);
      assert list[n] !in list[..n];
      assert (before + [list[n]])[..|before|] == before;
      assert before + [] == before;
    }
  }

  /** SyncChangeCounter: the triggers to fire are chosen before any of them fires. */
  function ChangeCounter(s: State, c: Xid, v: Int64): State
    requires c in s.counters
  {
    var s1 := SetValue(s, c, v);
    Refresh(FireAll(s1, True(s1, s.counters[c].triggers, s.counters[c].value)), c)
  }

  /** CounterDestroyed */
  function NotifyDestroyed(s: State, t: TriggerId): State {
    match t
    case AlarmTrigger(a) => if a in s.alarms then AlarmCounterDestroyed(s, a) else s
    case AwaitTrigger(w, _) => if w in s.awaits && s.awaits[w].armed <= |s.awaits[w].conds| then FireAwait(s, w) else s
  }

  /** The loop of FreeCounter: each node leaves the list once its trigger has been told. */
  function DestroyWalk(s: State, c: Xid, list: seq<TriggerId>): State
    decreases |list|
  {
    if list == [] then s
    else
      var s1 := NotifyDestroyed(s, list[0]);
      DestroyWalk(if c in s1.counters then SetList(s1, c, list[1..]) else s1, c, list[1..])
  }

  /** FreeCounter, together with the removal of the resource */
  function FreeCounter(s: State, c: Xid): State
    requires c in s.counters
  {
    var s1 := s.(counters := s.counters[c := s.counters[c].(beingDestroyed := true)]);
    var s2 := DestroyWalk(s1, c, s.counters[c].triggers);
    s2.(counters := s2.counters - {c})
  }

  /** FreeAlarm, together with the removal of the resource */
  function FreeAlarm(s: State, a: Xid): State
    requires a in s.alarms
  {
    var s1 := NotifyAlarm(SetAlarm(s, a, s.alarms[a].(state := Destroyed)), a);
    var s2 := DeleteTrigger(s1, AlarmTrigger(a));
    s2.(alarms := s2.alarms - {a})
  }

  // ----- requests -----

  datatype Changes = Changes(counter: bool, valueType: bool, value: bool, testType: bool)

  const ALL_TRIGGER := Changes(true, true, true, true)

  /** What the QueryValue functions of the system counters return during one request. */
  type Clock = Xid -> Int64

  function Query(s: State, sync: Option<Xid>, clock: Clock): State {
    if sync.Some? && IsSystem(s, sync.value) then SetValue(s, sync.value, clock(sync.value)) else s
  }

  /** The sum a relative trigger waits for; meaningless without a counter. */
  function Target(s: State, sync: Option<Xid>, trig: Trigger): int {
    if trig.valueType.Absolute? || sync.None? then trig.waitValue else ValueOf(s, sync.value) + trig.waitValue
  }

  /** Whether SyncInitTrigger accepts; otherwise the error it returns. */
  function InitStatus(s: State, trig: Trigger, counter: Xid, ch: Changes, clock: Clock): Status {
    var sync := NewSync(trig, counter, ch);
    if ch.counter && counter != NONE && counter !in s.counters then BadCounter
    else if ch.valueType && trig.valueType.OtherValueType? then BadValue
    else if (ch.valueType || ch.value) && !trig.valueType.Absolute? && sync.None? then BadMatch
    else if (ch.valueType || ch.value) && !InRange(Target(Query(s, sync, clock), sync, trig)) then BadValue
    else if ch.testType && trig.testType.OtherTest? then BadValue
    else Success
  }

  function NewSync(trig: Trigger, counter: Xid, ch: Changes): Option<Xid> {
    if !ch.counter then trig.sync else if counter == NONE then None else Some(counter)
  }

  /** The state SyncInitTrigger leaves behind when it succeeds. */
  function InitSuccess(s: State, t: TriggerId, counter: Xid, ch: Changes, clock: Clock): State
    requires Has(s, t)
  {
    var trig := Trig(s, t);
    var sync := NewSync(trig, counter, ch);
    var s1 := Query(s, sync, clock);
    var test := if ch.valueType || ch.value then Wrap(Target(s1, sync, trig)) else trig.testValue;
    var trig1 := trig.(testValue := test, check := if ch.testType then trig.testType else trig.check);
    var s2 := SetTrig(s1, t, trig1);
    if ch.counter && sync != trig.sync then
      var s3 := DeleteTrigger(s2, t);
      if Has(s3, t) then AddTrigger(SetTrig(s3, t, trig1.(sync := sync)), t) else s3
    else if sync.Some? then Refresh(s2, sync.value)
    else s2
  }

  /** The state SyncInitTrigger leaves behind when it fails: it may have queried and set the test value. */
  function InitFailure(s: State, t: TriggerId, counter: Xid, ch: Changes, clock: Clock): State
    requires Has(s, t)
  {
    var trig := Trig(s, t);
    var sync := NewSync(trig, counter, ch);
    if ch.counter && counter != NONE && counter !in s.counters then s
    else
      var s1 := Query(s, sync, clock);
      if ch.valueType && trig.valueType.OtherValueType? then s1
      else if (ch.valueType || ch.value) && !trig.valueType.Absolute? && sync.None? then s1
      else if ch.valueType || ch.value then SetTrig(s1, t, trig.(testValue := Wrap(Target(s1, sync, trig))))
      else s1
  }

  /** SyncInitTrigger */
  function InitTrigger(s: State, t: TriggerId, counter: Xid, ch: Changes, clock: Clock): State
    requires Has(s, t)
  {
    if InitStatus(s, Trig(s, t), counter, ch, clock) == Success then InitSuccess(s, t, counter, ch, clock)
    else InitFailure(s, t, counter, ch, clock)
  }
}
