/**
 * From the start of the server to the bracket shortcut: exactly when it misses nothing in a state that requests and wakeups
 * have led to, and exactly which of them keep every unrestricted system counter guarded.
 */
module SyncShortcut {
  import opened Options
  import opened Wire
  import opened SyncTypes
  import opened SyncBrackets
  import opened SyncModel
  import opened SyncRequests
  import opened SyncLinks
  import opened SyncInvariants
  import opened SyncInit
  import SyncRuns
  import opened SyncIdle
  import opened SyncMissed
  import opened SyncGuards
  import opened SyncArrivals
  import opened SyncAwaits
  import opened SyncWaits

  // ----- alarms that go elsewhere, and requests that fail -----

  /** An alarm that goes elsewhere, or stays there */
  lemma ElsewhereGuarded(s: State, client: Client, a: Xid, attrs: Attributes, clock: Clock, c: Xid)
    requires Inv(s) && a in s.alarms && ChangeStatus(s, a, attrs, clock) == Success && GuardedBut(s, c, Nobody)
    requires SyncRuns.Arriving(s, a, attrs, clock).sync != Some(c)
    ensures GuardedBut(FireIfTrue(ChangeAttributes(s, client, a, attrs, clock), a), c, Nobody)
  {
    hide *;
    var s1 := ChangeAttributes(s, client, a, attrs, clock);
    GuardedFree(s, c, Nobody);
    assert Linked(s) && Agrees(s.alarms[a]) && SyncRuns.InvBut(s, a) by { InOrderBut(s, a); }
    AttributesFresh(s, client, a, attrs, clock, c);
    SyncRuns.ChangeAttributesSuccess(s, client, a, attrs, clock);
    SyncRuns.AttributesEffect(s, client, a, attrs, clock);
    KeptGuard(s, s1, c, Nobody);
    FireIfTrueKept(s1, a, c);
    KeptGuard(s1, FireIfTrue(s1, a), c, Nobody);
  }

  lemma FireIfTrueKept(s: State, a: Xid, c: Xid)
    requires SyncRuns.InvBut(s, a) && Free(s, c) && s.alarms[a].trigger.sync != Some(c)
    ensures Kept(s, FireIfTrue(s, a), c)
  {
    hide NarrowAll, Fresh, FireAlarm, Triggers;
    KeptSelf(s, c);
    assert AlarmTrigger(a) in s.counters[c].triggers ==> Armed(s, AlarmTrigger(a));
    FireKept(s, AlarmTrigger(a), c);
  }

  lemma EarlySelected(s: State, client: Client, a: Xid, attrs: Attributes, clock: Clock)
    requires a in s.alarms && EarlyStatus(s.alarms[a], attrs) != Success
    ensures ChangeAttributes(s, client, a, attrs, clock) == Selected(s, client, a, attrs)
  {
  }

  lemma NewAlarmKept(s: State, client: Client, a: Xid, c: Xid)
    requires Linked(s) && a !in s.alarms && Free(s, c)
    ensures Kept(s, SetAlarm(s, a, NewAlarm(client)), c)
  {
    hide NarrowAll, Triggers, Kept;
    assert forall u | u in s.counters[c].triggers :: Armed(s, u);
    OtherAlarmsKept(s, SetAlarm(s, a, NewAlarm(client)), c);
  }

  /** An alarm without a counter stays Inactive. */
  lemma IdleAlarmGuarded(s: State, client: Client, a: Xid, attrs: Attributes, clock: Clock, c: Xid)
    requires Inv(s) && a !in s.alarms && a !in s.counters
    requires var s0 := SetAlarm(s, a, NewAlarm(client));
      && ChangeStatus(s0, a, attrs, clock) == Success && SyncRuns.Arriving(s0, a, attrs, clock).sync.None?
      && GuardedBut(s0, c, Nobody)
    ensures GuardedBut(SyncRequests.CreateAlarm(s, client, a, attrs, clock), c, Nobody)
  {
    hide *;
    var s0 := SetAlarm(s, a, NewAlarm(client));
    NewAlarmThere(s, client, a);
    var s2 := ChangeAttributes(s0, client, a, attrs, clock);
    SyncRuns.NewAlarmInv(s, client, a);
    InOrderBut(s0, a);
    GuardedFree(s0, c, Nobody);
    SyncRuns.ChangeAttributesSuccess(s0, client, a, attrs, clock);
    SyncRuns.AttributesEffect(s0, client, a, attrs, clock);
    AttributesFresh(s0, client, a, attrs, clock, c);
    KeptGuard(s0, s2, c, Nobody);
    GuardedFree(s2, c, Nobody);
    IdleAlarmIs(s, client, a, attrs, clock, c);
    KeptGuard(s2, SyncRequests.CreateAlarm(s, client, a, attrs, clock), c, Nobody);
  }

  lemma IdleAlarmIs(s: State, client: Client, a: Xid, attrs: Attributes, clock: Clock, c: Xid)
    requires a !in s.alarms && a !in s.counters
    requires var s0 := SetAlarm(s, a, NewAlarm(client));
      var s2 := ChangeAttributes(s0, client, a, attrs, clock);
      && ChangeStatus(s0, a, attrs, clock) == Success && SyncRuns.InvBut(s2, a) && Free(s2, c)
      && s2.alarms[a].trigger.sync.None?
    ensures Kept(ChangeAttributes(SetAlarm(s, a, NewAlarm(client)), client, a, attrs, clock),
                 SyncRequests.CreateAlarm(s, client, a, attrs, clock), c)
  {
    hide NarrowAll, Triggers, ChangeStatus, ChangeAttributes, Kept, Complete, Blocking;
    var s2 := ChangeAttributes(SetAlarm(s, a, NewAlarm(client)), client, a, attrs, clock);
    assert forall u | u in s2.counters[c].triggers :: Armed(s2, u) && Trig(s2, u).sync == Some(c);
    OtherAlarmsKept(s2, SetAlarm(s2, a, s2.alarms[a].(state := Inactive)), c);
  }

  /** The value of c after a ChangeAlarm that has failed late: SyncInitTrigger may have asked for it. */
  function LateReading(s: State, a: Xid, attrs: Attributes, clock: Clock, c: Xid): Int64
    requires a in s.alarms
  {
    var sync := NewSync(Wanted(s.alarms[a].trigger, attrs), Get(attrs.counter, NONE), attrs.Mask());
    if attrs.counter.Some? && attrs.counter.value != NONE && attrs.counter.value !in s.counters then ValueOf(s, c)
    else ValueOf(Query(s, sync, clock), c)
  }

  /** What it leaves on counter c: the other triggers, and the alarm with another test */
  lemma LateKnown(s: State, client: Client, a: Xid, attrs: Attributes, clock: Clock, c: Xid)
    requires Inv(s) && a in s.alarms && Free(s, c)
    requires ChangeStatus(s, a, attrs, clock) != Success && EarlyStatus(s.alarms[a], attrs) == Success
    ensures var s' := ChangeAttributes(s, client, a, attrs, clock);
      && Free(s', c) && BracketsOf(s', c) == BracketsOf(s, c) && s'.counters[c].triggers == s.counters[c].triggers
      && s'.counters[c].value == LateReading(s, a, attrs, clock, c) && Joined(s, s', c, OfAlarm(a))
      && a in s'.alarms && s'.alarms[a].state == s.alarms[a].state
      && s'.alarms[a].trigger == Wanted(s.alarms[a].trigger, attrs).(testValue := LateTest(s, a, attrs, clock))
  {
    hide *;
    var t := AlarmTrigger(a);
    var s1, s' := Committed(s, client, a, attrs), ChangeAttributes(s, client, a, attrs, clock);
    InOrderBut(s, a);
    SyncRuns.LateFailureEffect(s, client, a, attrs, clock);
    SyncRuns.CommittedLinked(s, client, a, attrs);
    SyncRuns.CommittedInvBut(s, client, a, attrs);
    FreeThere(s, s1, c);
    LateIs(s, client, a, attrs, clock);
    FailureUnmoved(s1, t, Get(attrs.counter, NONE), attrs.Mask(), clock, c);
    LateReadingIs(s, s1, a, attrs, clock, c);
    SyncRuns.ChangeAttributesFailed(s, client, a, attrs, clock);
    OnlyAlarmJoined(s, s', a, c);
  }

  lemma LateIs(s: State, client: Client, a: Xid, attrs: Attributes, clock: Clock)
    requires a in s.alarms && ChangeStatus(s, a, attrs, clock) != Success && EarlyStatus(s.alarms[a], attrs) == Success
    ensures var s1 := Committed(s, client, a, attrs);
      && Has(s1, AlarmTrigger(a)) && Trig(s1, AlarmTrigger(a)) == s1.alarms[a].trigger
      && ChangeAttributes(s, client, a, attrs, clock)
         == InitFailure(s1, AlarmTrigger(a), Get(attrs.counter, NONE), attrs.Mask(), clock)
  {
    hide InitFailure, ChangeStatus, EarlyStatus, Committed;
  }

  lemma LateReadingIs(s: State, s1: State, a: Xid, attrs: Attributes, clock: Clock, c: Xid)
    requires a in s.alarms && s1.counters == s.counters && c in s.counters
    ensures var counter, ch, trig := Get(attrs.counter, NONE), attrs.Mask(), Wanted(s.alarms[a].trigger, attrs);
      var counters := (if ch.counter && counter != NONE && counter !in s1.counters then s1
                       else Query(s1, NewSync(trig, counter, ch), clock)).counters;
      c in counters && counters[c].value == LateReading(s, a, attrs, clock, c)
  {
  }

  /** Where only the alarm and the value of c may have changed, the other triggers are the same. */
  lemma OnlyAlarmJoined(s: State, s': State, a: Xid, c: Xid)
    requires Linked(s) && Free(s, c) && SyncRuns.OnlyAlarm(s, s', a)
    requires c in s'.counters && s'.counters[c] == s.counters[c].(value := s'.counters[c].value)
    ensures Free(s', c) && BracketsOf(s', c) == BracketsOf(s, c) && s'.counters[c].triggers == s.counters[c].triggers
    ensures Joined(s, s', c, OfAlarm(a))
  {
    hide NarrowAll, Triggers;
    forall u | u in s.counters[c].triggers && u != AlarmTrigger(a)
      ensures Has(s, u) && Has(s', u) && Trig(s', u) == Trig(s, u) && (Pending(s', u) <==> Pending(s, u))
    {
      assert Armed(s, u);
    }
  }

  /** The alarm is Active and on c, and its new test is not heard at the value c then has. */
  predicate LateUnheard(s: State, a: Xid, attrs: Attributes, clock: Clock, c: Xid)
    requires a in s.alarms
  {
    s.alarms[a].state == Active && s.alarms[a].trigger.sync == Some(c)
    && !Heard(Wanted(s.alarms[a].trigger, attrs).(testValue := LateTest(s, a, attrs, clock)), BracketsOf(s, c),
              LateReading(s, a, attrs, clock, c))
  }

  lemma LateGuardedIff(s: State, client: Client, a: Xid, attrs: Attributes, clock: Clock, c: Xid)
    requires Inv(s) && a in s.alarms && Free(s, c)
    requires ChangeStatus(s, a, attrs, clock) != Success && EarlyStatus(s.alarms[a], attrs) == Success
    ensures Free(ChangeAttributes(s, client, a, attrs, clock), c)
    ensures GuardedBut(ChangeAttributes(s, client, a, attrs, clock), c, Nobody)
            <==> HeardBut(s, c, LateReading(s, a, attrs, clock, c), OfAlarm(a)) && !LateUnheard(s, a, attrs, clock, c)
  {
    hide NarrowAll, Triggers, ChangeAttributes, ChangeStatus, EarlyStatus, LateTest, LateReading, Heard, HeardBut, Linked,
      Complete, Blocking, AlarmsOk, NoneDying, Joined, Wanted;
    var s' := ChangeAttributes(s, client, a, attrs, clock);
    LateKnown(s, client, a, attrs, clock, c);
    JoinedHeard(s, s', c, s'.counters[c].value, OfAlarm(a));
    OnItsOwn(s, a, c);
    if s.alarms[a].trigger.sync == Some(c) {
      SplitAlarm(s', c, a);
    } else {
      OwnerGone(s', c, OfAlarm(a));
    }
  }

  lemma OnItsOwn(s: State, a: Xid, c: Xid)
    requires Inv(s) && a in s.alarms && Free(s, c)
    ensures AlarmTrigger(a) in s.counters[c].triggers <==> s.alarms[a].trigger.sync == Some(c)
  {
    assert Armed(s, AlarmTrigger(a));
  }

  lemma EarlyGuarded(s: State, client: Client, a: Xid, attrs: Attributes, clock: Clock, c: Xid)
    requires Inv(s) && a in s.alarms && EarlyStatus(s.alarms[a], attrs) != Success && GuardedBut(s, c, Nobody)
    ensures GuardedBut(ChangeAttributes(s, client, a, attrs, clock), c, Nobody)
  {
    hide NarrowAll, Triggers, EarlyStatus, Heard;
    EarlySelected(s, client, a, attrs, clock);
    var s' := Selected(s, client, a, attrs);
    forall u | u in s.counters[c].triggers
      ensures Has(s, u) && Has(s', u) && Trig(s', u) == Trig(s, u) && (Pending(s', u) <==> Pending(s, u))
    {
      assert Armed(s, u);
    }
    UnmovedHeard(s, s', c, s.counters[c].value, Nobody);
  }

  // ----- requests about an alarm -----

  /**
   * What a request about alarm a must find on a guarded counter c to leave it so. If the alarm arrives there: no other
   * pending comparison TRUE at the value read, and the alarm itself not gone off to a test value unseen. If the request
   * fails late: every trigger heard at the value that has been read, the alarm with its new test.
   */
  ghost predicate HeededOn(s: State, a: Xid, attrs: Attributes, clock: Clock, c: Xid)
    requires a in s.alarms && c in s.counters
  {
    var trig, v := SyncRuns.Arriving(s, a, attrs, clock), clock(c);
    if ChangeStatus(s, a, attrs, clock) == Success then
      trig.sync == Some(c) ==>
        QuiescentBut(s, c, v, OfAlarm(a))
        && !GoesUnseen(trig, Get(attrs.delta, s.alarms[a].delta), v, Asked(s, c, a, trig, v))
    else if EarlyStatus(s.alarms[a], attrs) == Success then
      HeardBut(s, c, LateReading(s, a, attrs, clock, c), OfAlarm(a)) && !LateUnheard(s, a, attrs, clock, c)
    else true
  }

  lemma ChangeAlarmGuardedIff(s: State, client: Client, a: Xid, attrs: Attributes, clock: Clock, c: Xid)
    requires Inv(s) && a in s.alarms && GuardedBut(s, c, Nobody)
    ensures c in s.counters && Free(SyncRequests.ChangeAlarm(s, client, a, attrs, clock), c)
    ensures GuardedBut(SyncRequests.ChangeAlarm(s, client, a, attrs, clock), c, Nobody)
            <==> HeededOn(s, a, attrs, clock, c)
  {
    hide NarrowAll, Triggers, GuardedBut, ChangeStatus, ChangeAttributes, FireIfTrue, LateTest, GoesUnseen, EarlyStatus,
      SyncRuns.Arriving, Inv, Asked, HeardBut, QuiescentBut, LateUnheard, LateReading, IsSystem;
    GuardedFree(s, c, Nobody);
    if ChangeStatus(s, a, attrs, clock) == Success {
      if SyncRuns.Arriving(s, a, attrs, clock).sync == Some(c) {
        ArrivalGuardedIff(s, client, a, attrs, clock, c);
      } else {
        ElsewhereGuarded(s, client, a, attrs, clock, c);
        GuardedFree(SyncRequests.ChangeAlarm(s, client, a, attrs, clock), c, Nobody);
      }
    } else if EarlyStatus(s.alarms[a], attrs) == Success {
      LateGuardedIff(s, client, a, attrs, clock, c);
    } else {
      EarlyGuarded(s, client, a, attrs, clock, c);
      GuardedFree(SyncRequests.ChangeAlarm(s, client, a, attrs, clock), c, Nobody);
    }
  }

  lemma CreateAlarmGuardedIff(s: State, client: Client, a: Xid, attrs: Attributes, clock: Clock, c: Xid)
    requires Inv(s) && a !in s.alarms && a !in s.counters && GuardedBut(s, c, Nobody)
    ensures var s0 := SetAlarm(s, a, NewAlarm(client));
      a in s0.alarms && c in s0.counters && Free(SyncRequests.CreateAlarm(s, client, a, attrs, clock), c) &&
      (GuardedBut(SyncRequests.CreateAlarm(s, client, a, attrs, clock), c, Nobody) <==> HeededOn(s0, a, attrs, clock, c))
  {
    hide *;
    var s0 := SetAlarm(s, a, NewAlarm(client));
    GuardedFree(s, c, Nobody);
    NewAlarmGuarded(s, client, a, c);
    ChangeAlarmGuardedIff(s0, client, a, attrs, clock, c);
    if ChangeStatus(s0, a, attrs, clock) == Success {
      var sync := SyncRuns.Arriving(s0, a, attrs, clock).sync;
      if sync.Some? {
        CreateAlarmFires(s, client, a, attrs, clock, sync.value);
        ChangeAlarmFires(s0, client, a, attrs, clock);
      } else {
        IdleAlarmGuarded(s, client, a, attrs, clock, c);
        GuardedFree(SyncRequests.CreateAlarm(s, client, a, attrs, clock), c, Nobody);
        IdleHeeded(s0, a, attrs, clock, c);
      }
    } else {
      FailedGuardIff(s, client, a, attrs, clock, c);
    }
  }

  lemma NewAlarmGuarded(s: State, client: Client, a: Xid, c: Xid)
    requires Inv(s) && a !in s.alarms && GuardedBut(s, c, Nobody)
    ensures var s0 := SetAlarm(s, a, NewAlarm(client));
      a in s0.alarms && c in s0.counters && Inv(s0) && GuardedBut(s0, c, Nobody)
  {
    hide NarrowAll, Triggers, GuardedBut, Kept, Complete, Blocking, AlarmsOk, NoneDying;
    GuardedFree(s, c, Nobody);
    SyncRuns.NewAlarmInv(s, client, a);
    NewAlarmKept(s, client, a, c);
    KeptGuard(s, SetAlarm(s, a, NewAlarm(client)), c, Nobody);
  }

  lemma IdleHeeded(s0: State, a: Xid, attrs: Attributes, clock: Clock, c: Xid)
    requires a in s0.alarms && c in s0.counters && ChangeStatus(s0, a, attrs, clock) == Success
    requires SyncRuns.Arriving(s0, a, attrs, clock).sync.None?
    ensures HeededOn(s0, a, attrs, clock, c)
  {
    hide ChangeStatus, SyncRuns.Arriving;
  }

  /** A CreateAlarm that fails takes away an alarm that is on no list. */
  lemma FailedGuardIff(s: State, client: Client, a: Xid, attrs: Attributes, clock: Clock, c: Xid)
    requires Inv(s) && a !in s.alarms && a !in s.counters && Free(s, c)
    requires ChangeStatus(SetAlarm(s, a, NewAlarm(client)), a, attrs, clock) != Success
    ensures Free(SyncRequests.CreateAlarm(s, client, a, attrs, clock), c)
    ensures var s0 := SetAlarm(s, a, NewAlarm(client));
      GuardedBut(SyncRequests.CreateAlarm(s, client, a, attrs, clock), c, Nobody)
      <==> GuardedBut(SyncRequests.ChangeAlarm(s0, client, a, attrs, clock), c, Nobody)
  {
    hide *;
    var s0 := SetAlarm(s, a, NewAlarm(client));
    var s' := SyncRequests.CreateAlarm(s, client, a, attrs, clock);
    var s2 := SyncRequests.ChangeAlarm(s0, client, a, attrs, clock);
    FailedIs(s, client, a, attrs, clock);
    NewAlarmThere(s, client, a);
    SyncRuns.CreateAlarmFailure(s, client, a, attrs, clock);
    SyncRuns.ChangeAttributesFailed(s0, client, a, attrs, clock);
    WithoutAlarmGuardIff(s, s0, s2, s', client, a, c);
  }

  lemma NewAlarmThere(s: State, client: Client, a: Xid)
    ensures var s0 := SetAlarm(s, a, NewAlarm(client)); a in s0.alarms && s0 == s.(alarms := s0.alarms)
  {
  }

  lemma FailedIs(s: State, client: Client, a: Xid, attrs: Attributes, clock: Clock)
    requires a !in s.alarms && a !in s.counters
    requires ChangeStatus(SetAlarm(s, a, NewAlarm(client)), a, attrs, clock) != Success
    ensures var s0 := SetAlarm(s, a, NewAlarm(client));
      var s2 := SyncRequests.ChangeAlarm(s0, client, a, attrs, clock);
      && s2 == ChangeAttributes(s0, client, a, attrs, clock)
      && SyncRequests.CreateAlarm(s, client, a, attrs, clock) == s2.(alarms := s2.alarms - {a})
  {
    hide ChangeAttributes, ChangeStatus;
  }

  lemma WithoutAlarmGuardIff(s: State, s0: State, s2: State, s': State, client: Client, a: Xid, c: Xid)
    requires Inv(s) && a !in s.alarms && Free(s, c) && s0 == SetAlarm(s, a, NewAlarm(client))
    requires SyncRuns.OnlyAlarm(s0, s2, a) && s' == s2.(alarms := s2.alarms - {a})
    ensures Free(s', c) && (GuardedBut(s', c, Nobody) <==> GuardedBut(s2, c, Nobody))
  {
    hide NarrowAll, Triggers, Heard, Complete, Blocking, AlarmsOk;
    FreeStays(s0, s2, c);
    forall u | u in s2.counters[c].triggers
      ensures Has(s2, u) && Has(s', u) && Trig(s', u) == Trig(s2, u) && (Pending(s', u) <==> Pending(s2, u))
    {
      assert u in s.counters[c].triggers && Armed(s, u);
    }
  }

  // ----- every step -----

  /** What a step must find on a guarded counter to leave it so: only readings and alarms of requests can fail it. */
  ghost predicate TimelyOn(s: State, step: Step, c: Xid)
    requires c in s.counters
  {
    match step
    case DoQueryCounter(_, d, clock) => d == c ==> HeardBut(s, c, clock(c), Nobody)
    case DoAwait(client, w, reqs, clock) => Listened(s, client, w, reqs, clock, c)
    case DoCreateAlarm(client, a, attrs, clock) =>
      a !in s.alarms && a !in s.counters ==> HeededOn(SetAlarm(s, a, NewAlarm(client)), a, attrs, clock, c)
    case DoChangeAlarm(_, a, attrs, clock) => a in s.alarms ==> HeededOn(s, a, attrs, clock, c)
    case _ => true
  }

  ghost predicate Timely(s: State, step: Step) {
    forall c | c in s.counters && Free(s, c) :: TimelyOn(s, step, c)
  }

  lemma ServertimeGuarded(s: State, d: Xid, v: Int64, c: Xid)
    requires Inv(s) && IsSystem(s, d) && GuardedBut(s, c, Nobody)
    ensures GuardedBut(ServertimeWakeup(s, d, v), c, Nobody)
  {
    hide NarrowAll, Triggers, SyncModel.ChangeCounter, GuardedBut, Kept, Inv, QuietAbove;
    GuardedFree(s, c, Nobody);
    if d == c {
      ChangeGuarded(s, c, v);
    } else {
      ChangeOtherKept(s, d, v, c);
      KeptGuard(s, SyncModel.ChangeCounter(s, d, v), c, Nobody);
    }
  }

  lemma CheckGuarded(s: State, d: Xid, v: Card32, c: Xid)
    requires Inv(s) && IsSystem(s, d) && GuardedBut(s, c, Nobody)
    ensures GuardedBut(CheckBrackets(s, d, v), c, Nobody)
  {
    hide NarrowAll, Triggers, SyncModel.ChangeCounter, GuardedBut, Kept, Inv, Quiet;
    GuardedFree(s, c, Nobody);
    if d == c {
      ChangeGuarded(s, c, v);
      if Quiet(BracketsOf(s, c), v) {
        QuietGuarded(s, c, v, Nobody);
      }
    } else {
      ChangeOtherKept(s, d, v, c);
      KeptGuard(s, SyncModel.ChangeCounter(s, d, v), c, Nobody);
      ValueKept(s, d, v, c);
      KeptGuard(s, SetValue(s, d, v), c, Nobody);
    }
  }

  lemma ValueKept(s: State, d: Xid, v: Int64, c: Xid)
    requires Inv(s) && Free(s, c) && d != c
    ensures Kept(s, SetValue(s, d, v), c)
  {
    hide NarrowAll, Fresh, Triggers;
    KeptSelf(s, c);
  }

  lemma IdleGuarded(s: State, d: Xid, v: Card32, reset: bool, c: Xid)
    requires Inv(s) && IsSystem(s, d) && GuardedBut(s, c, Nobody)
    ensures GuardedBut(IdleWakeup(s, d, v, reset), c, Nobody)
  {
    hide NarrowAll, Triggers, CheckBrackets, GuardedBut, Inv;
    SyncRuns.WakeupInv(s, d, 0);
    CheckGuarded(s, d, 0, c);
    CheckGuarded(if reset && v != 0 then CheckBrackets(s, d, 0) else s, d, v, c);
  }

  lemma ChangeClientGuarded(s: State, d: Xid, v: Int64, c: Xid)
    requires Inv(s) && d in s.counters && !IsSystem(s, d) && GuardedBut(s, c, Nobody)
    ensures GuardedBut(SyncModel.ChangeCounter(s, d, v), c, Nobody)
  {
    hide NarrowAll, Triggers, SyncModel.ChangeCounter, GuardedBut, Kept, Inv;
    GuardedFree(s, c, Nobody);
    ChangeOtherKept(s, d, v, c);
    KeptGuard(s, SyncModel.ChangeCounter(s, d, v), c, Nobody);
  }

  lemma FreeCounterGuarded(s: State, d: Xid, c: Xid)
    requires Inv(s) && d in s.counters && GuardedBut(s, c, Nobody) && d != c
    ensures GuardedBut(FreeCounter(s, d), c, Nobody)
  {
    hide NarrowAll, Triggers, FreeCounter, GuardedBut, Kept, Inv;
    GuardedFree(s, c, Nobody);
    FreeCounterKept(s, d, c);
    KeptGuard(s, FreeCounter(s, d), c, Nobody);
  }

  lemma QueryGuardedIff(s: State, d: Xid, clock: Clock, c: Xid)
    requires Inv(s) && GuardedBut(s, c, Nobody)
    ensures c in s.counters && Free(Query(s, Some(d), clock), c)
    ensures GuardedBut(Query(s, Some(d), clock), c, Nobody) <==> (d == c ==> HeardBut(s, c, clock(c), Nobody))
  {
    hide NarrowAll, Triggers, Heard, Complete, Blocking, AlarmsOk;
    var s' := Query(s, Some(d), clock);
    LinkedOnce(s, c);
    UnmovedHeard(s, s', c, s'.counters[c].value, Nobody);
  }

  lemma SameGuarded(s: State, s': State, c: Xid)
    requires Inv(s) && GuardedBut(s, c, Nobody) && c in s'.counters && s'.counters[c] == s.counters[c]
    requires s'.alarms == s.alarms && s'.awaits == s.awaits
    ensures GuardedBut(s', c, Nobody)
  {
    hide NarrowAll, Triggers;
    GuardedFree(s, c, Nobody);
    KeptSelf(s, c);
    assert Kept(s, s', c) by { hide Fresh; }
    KeptGuard(s, s', c, Nobody);
  }

  lemma CounterStepGuardedIff(s: State, step: Step, c: Xid)
    requires Inv(s) && Legal(s, step) && !SyncRuns.AlarmStep(step)
    requires GuardedBut(s, c, Nobody) && c in DoStep(s, step).counters
    ensures c in s.counters && (GuardedBut(DoStep(s, step), c, Nobody) <==> TimelyOn(s, step, c))
    ensures step.DoQueryCounter? ==> Free(DoStep(s, step), c)
  {
    hide NarrowAll, Triggers, SyncModel.ChangeCounter, FreeCounter, IdleWakeup, ServertimeWakeup, GuardedBut, Inv, HeardBut;
    GuardedFree(s, c, Nobody);
    match step
    case DoCreateCounter(client, d, v) => SameGuarded(s, DoStep(s, step), c);
    case DoCreateSystemCounter(d, v, ct) => SameGuarded(s, DoStep(s, step), c);
    case DoSetCounter(_, d, v) => if d in s.counters && !IsSystem(s, d) { ChangeClientGuarded(s, d, v, c); }
    case DoChangeCounter(_, d, v) =>
      if d in s.counters && !IsSystem(s, d) && InRange(v + s.counters[d].value) {
        ChangeClientGuarded(s, d, v + s.counters[d].value, c);
      }
    case DoQueryCounter(_, d, clock) => QueryGuardedIff(s, d, clock, c);
    case DoDestroyCounter(_, d) => if d in s.counters && !IsSystem(s, d) { FreeCounterGuarded(s, d, c); }
    case DoIdleWakeup(d, v, reset) => IdleGuarded(s, d, v, reset, c);
    case DoServertimeWakeup(d, v) => ServertimeGuarded(s, d, v, c);
    case ClientGone(client) => SameGuarded(s, DoStep(s, step), c);
    case ReapCounter(d) =>
      if d in s.counters {
        if d == c {
          ReapedIsGone(s, c);
        } else {
          FreeCounterGuarded(s, d, c);
        }
      }
  }

  lemma ReapedIsGone(s: State, c: Xid)
    requires c in s.counters
    ensures c !in FreeCounter(s, c).counters
  {
    hide DestroyWalk;
  }

  lemma AlarmGoneGuarded(s: State, a: Xid, c: Xid)
    requires Inv(s) && a in s.alarms && GuardedBut(s, c, Nobody)
    ensures GuardedBut(FreeAlarm(s, a), c, Nobody)
  {
    hide NarrowAll, Triggers, FreeAlarm, GuardedBut, Kept, AlarmsOk, Complete, Blocking;
    GuardedFree(s, c, Nobody);
    FreeAlarmKept(s, a, c);
    KeptGuard(s, FreeAlarm(s, a), c, Nobody);
  }

  lemma AwaitGoneGuarded(s: State, w: Xid, c: Xid)
    requires Inv(s) && w in s.awaits && GuardedBut(s, c, Nobody)
    ensures GuardedBut(FreeAwait(s, w), c, Nobody)
  {
    hide NarrowAll, Triggers, FreeAwait, GuardedBut, Kept, AlarmsOk, Complete, Blocking;
    GuardedFree(s, c, Nobody);
    FreeAwaitKept(s, w, c);
    KeptGuard(s, FreeAwait(s, w), c, Nobody);
  }

  lemma AlarmStepGuardedIff(s: State, step: Step, c: Xid)
    requires Inv(s) && Legal(s, step) && SyncRuns.AlarmStep(step) && GuardedBut(s, c, Nobody)
    ensures c in s.counters && (GuardedBut(DoStep(s, step), c, Nobody) <==> TimelyOn(s, step, c))
    ensures Free(DoStep(s, step), c)
  {
    hide NarrowAll, Triggers, GuardedBut, Inv, HeededOn, Harmless, FreeAlarm, FreeAwait, AwaitRequest, ChangeAttributes,
      ChangeStatus, Listened, HeardBut, IsSystem;
    GuardedFree(s, c, Nobody);
    match step {
      case DoAwait(client, w, reqs, clock) => AwaitGuardedIff(s, client, w, reqs, clock, c);
      case DoCreateAlarm(client, a, attrs, clock) =>
        if a !in s.alarms && a !in s.counters { CreateAlarmGuardedIff(s, client, a, attrs, clock, c); }
      case DoChangeAlarm(client, a, attrs, clock) =>
        if a in s.alarms { ChangeAlarmGuardedIff(s, client, a, attrs, clock, c); }
      case DoDestroyAlarm(_, a) => if a in s.alarms { AlarmGoneGuarded(s, a, c); }
      case ReapAlarm(a) => if a in s.alarms { AlarmGoneGuarded(s, a, c); }
      case ReapAwait(w) => if w in s.awaits { AwaitGoneGuarded(s, w, c); }
    }
    if GuardedBut(DoStep(s, step), c, Nobody) {
      GuardedFree(DoStep(s, step), c, Nobody);
    }
  }

  /** Every unrestricted system counter is guarded. */
  ghost predicate AllGuarded(s: State) {
    forall c | Free(s, c) :: GuardedBut(s, c, Nobody)
  }

  lemma CreatedGuarded(s: State, c: Xid, v: Int64)
    requires c != NONE && c !in s.counters && c !in s.alarms
    ensures GuardedBut(CreateCounter(s, c, v, SystemCounter(Unrestricted, NO_BRACKETS)), c, Nobody)
  {
  }

  lemma FreeBefore(s: State, s': State, but: Option<Xid>, c: Xid)
    requires CountersFrom(s, s', but) && Free(s', c)
    ensures Free(s, c)
  {
  }

  lemma NewClientCounter(s: State, step: Step, c: Xid)
    requires step.DoCreateCounter? && Free(DoStep(s, step), c)
    ensures Free(s, c)
  {
  }

  lemma NewCounterIs(s: State, d: Xid, v: Int64, ct: CounterType, c: Xid)
    requires Free(DoStep(s, DoCreateSystemCounter(d, v, ct)), c) && !Free(s, c)
    ensures c == d && c != NONE && c !in s.counters && c !in s.alarms && ct == Unrestricted
    ensures DoStep(s, DoCreateSystemCounter(d, v, ct)) == CreateCounter(s, c, v, SystemCounter(Unrestricted, NO_BRACKETS))
  {
  }

  /**
   * A legal step from a state in which every unrestricted counter is guarded leaves every one guarded exactly if it is
   * timely.
   */
  lemma StepGuardedIff(s: State, step: Step)
    requires Inv(s) && Legal(s, step) && AllGuarded(s)
    ensures AllGuarded(DoStep(s, step)) <==> Timely(s, step)
  {
    hide NarrowAll, Triggers, GuardedBut, Inv, DoStep, Legal, TimelyOn, IsSystem;
    var s' := DoStep(s, step);
    forall c
      ensures Free(s, c) && c in s.counters ==> ((Free(s', c) ==> GuardedBut(s', c, Nobody)) <==> TimelyOn(s, step, c))
    {
      if Free(s, c) {
        OldGuardedIff(s, step, c);
      }
    }
    forall c | Free(s', c) && !Free(s, c)
      ensures GuardedBut(s', c, Nobody)
    {
      NewGuarded(s, step, c);
    }
    forall c | Free(s, c)
      ensures c in s.counters
    {
      FreeIn(s, c);
    }
  }

  lemma OldGuardedIff(s: State, step: Step, c: Xid)
    requires Inv(s) && Legal(s, step) && GuardedBut(s, c, Nobody)
    ensures c in s.counters
    ensures (Free(DoStep(s, step), c) ==> GuardedBut(DoStep(s, step), c, Nobody)) <==> TimelyOn(s, step, c)
  {
    hide NarrowAll, Triggers, GuardedBut, Inv, DoStep, Legal, HeardBut, HeededOn, Listened, IsSystem;
    GuardedFree(s, c, Nobody);
    if SyncRuns.AlarmStep(step) {
      AlarmStepGuardedIff(s, step, c);
    } else {
      FreeIn(DoStep(s, step), c);
      if c in DoStep(s, step).counters {
        CounterStepGuardedIff(s, step, c);
      } else {
        QueryStays(s, step, c);
      }
    }
  }

  lemma QueryStays(s: State, step: Step, c: Xid)
    requires c in s.counters && c !in DoStep(s, step).counters
    ensures !step.DoQueryCounter?
  {
  }

  lemma NewGuarded(s: State, step: Step, c: Xid)
    requires Inv(s) && Legal(s, step) && Free(DoStep(s, step), c) && !Free(s, c)
    ensures GuardedBut(DoStep(s, step), c, Nobody)
  {
    hide NarrowAll, Triggers, GuardedBut, Inv, DoStep, Legal, IsSystem;
    if !step.DoCreateCounter? && !step.DoCreateSystemCounter? {
      StepCounters(s, step);
      FreeBefore(s, DoStep(s, step), Touched(step), c);
    } else if step.DoCreateCounter? {
      NewClientCounter(s, step, c);
    } else {
      NewCounterIs(s, step.c, step.v, step.ct, c);
      CreatedGuarded(s, c, step.v);
    }
  }

  // ----- runs -----

  /** Every step of the run is timely. */
  ghost predicate TimelyRun(s: State, steps: seq<Step>)
    decreases steps
  {
    steps == [] || (Timely(s, steps[0]) && TimelyRun(DoStep(s, steps[0]), steps[1..]))
  }

  /** Every unrestricted counter is guarded all along the run. */
  ghost predicate StaysGuarded(s: State, steps: seq<Step>)
    decreases steps
  {
    AllGuarded(s) && (steps == [] || StaysGuarded(DoStep(s, steps[0]), steps[1..]))
  }

  lemma {:induction false} RunGuardedIff(s: State, steps: seq<Step>)
    requires Inv(s) && AllGuarded(s) && LegalRun(s, steps)
    ensures StaysGuarded(s, steps) <==> TimelyRun(s, steps)
    decreases steps
  {
    hide Inv, AllGuarded, DoStep, Legal, Timely;
    if steps != [] {
      SyncRuns.StepInv(s, steps[0]);
      StepGuardedIff(s, steps[0]);
      if AllGuarded(DoStep(s, steps[0])) {
        RunGuardedIff(DoStep(s, steps[0]), steps[1..]);
      }
    }
  }

  /**
   * The shortcut, from the start of the server: after any legal run whatever, it misses nothing on an unrestricted counter
   * if and only if no pending trigger can fire unseen by the brackets and from the value that the run has left.
   */
  lemma ShortcutInRuns(steps: seq<Step>, c: Xid)
    requires LegalRun(INITIAL, steps) && Free(Run(INITIAL, steps), c)
    ensures var s := Run(INITIAL, steps); MissesNothing(s, c) <==> NoneUnseen(s, c, BracketsOf(s, c))
  {
    hide FastRun, SlowRun, Unseen;
    SyncRuns.RunInv(INITIAL, steps);
    MissesNothingIff(Run(INITIAL, steps), c);
  }

  /** A timely run keeps the shortcut from missing anything, at its end and all the way. */
  lemma TimelyMissesNothing(steps: seq<Step>, c: Xid)
    requires LegalRun(INITIAL, steps) && TimelyRun(INITIAL, steps) && Free(Run(INITIAL, steps), c)
    ensures StaysGuarded(INITIAL, steps) && MissesNothing(Run(INITIAL, steps), c)
  {
    hide FastRun, SlowRun, Unseen, MissesNothing, HeardBut;
    assert AllGuarded(INITIAL);
    RunGuardedIff(INITIAL, steps);
    SyncRuns.RunInv(INITIAL, steps);
    EndGuarded(INITIAL, steps);
    GuardedMissesNothing(Run(INITIAL, steps), c);
  }

  lemma {:induction false} EndGuarded(s: State, steps: seq<Step>)
    requires StaysGuarded(s, steps)
    ensures AllGuarded(Run(s, steps))
    decreases steps
  {
    hide AllGuarded, DoStep;
    if steps != [] {
      EndGuarded(DoStep(s, steps[0]), steps[1..]);
    }
  }
}
