/**
 * Alarms that a request puts on an unrestricted system counter: what their going off at once does to the brackets, to the
 * shortcut, and to the counter being guarded.
 */
module SyncArrivals {
  import opened Options
  import opened Wire
  import opened SyncTypes
  import opened SyncBrackets
  import opened SyncModel
  import opened SyncRequests
  import opened SyncLinks
  import opened SyncInvariants
  import opened SyncInit
  import SyncRuns
  import opened SyncIdle
  import opened SyncMissed
  import opened SyncGuards

  // ----- an alarm that arrives on the counter -----

  /** What FireIfTrue does to an Active alarm in order, on a counter */
  lemma ArrivalFires(s: State, a: Xid, c: Xid)
    requires a in s.alarms && s.alarms[a].state == Active && Agrees(s.alarms[a]) && s.alarms[a].trigger.sync == Some(c)
    ensures var alarm, s' := s.alarms[a], FireIfTrue(s, a);
      var trig, v := alarm.trigger, ValueOf(s, c);
      && s'.counters == s.counters && s'.awaits == s.awaits && s'.alarms.Keys == s.alarms.Keys
      && (forall b | b in s.alarms && b != a :: s'.alarms[b] == s.alarms[b])
      && s'.alarms[a].trigger == trig.(testValue := s'.alarms[a].trigger.testValue)
      && (s'.alarms[a].state == Active ==> !CheckValue(trig.check, v, v, s'.alarms[a].trigger.testValue))
      && s'.alarms[a].trigger.testValue
         == if alarm.delta == 0 || !CheckValue(trig.check, v, v, trig.testValue) then trig.testValue
            else match Advance(trig.check, v, trig.testValue, alarm.delta)
                 case Some(next) => next
                 case None => trig.testValue
    ensures var alarm, s' := s.alarms[a], FireIfTrue(s, a);
      var trig, v := alarm.trigger, ValueOf(s, c);
      s'.alarms[a].state
      == if !CheckValue(trig.check, v, v, trig.testValue)
            || (alarm.delta != 0 && Advance(trig.check, v, trig.testValue, alarm.delta).Some?) then Active
         else Inactive
  {
    FireAlarmEffect(s, a);
  }

  /** Brackets that are up to date before the alarm goes off stay so exactly if the alarm does not make them stale. */
  lemma FiredFresh(s: State, s1: State, a: Xid, c: Xid)
    requires a in s1.alarms && s1.alarms[a].state == Active && Agrees(s1.alarms[a]) && s1.alarms[a].trigger.sync == Some(c)
    requires Fresh(s1, c) && c in s.counters && AlarmTrigger(a) in s1.counters[c].triggers
    requires NoDup(s.counters[c].triggers) && forall t | t in s1.counters[c].triggers :: Has(s1, t)
    requires forall t | t in s.counters[c].triggers && t != AlarmTrigger(a) ::
               Has(s, t) && Has(s1, t) && Trig(s1, t) == Trig(s, t)
    requires forall t :: t in s1.counters[c].triggers <==> t == AlarmTrigger(a) || t in s.counters[c].triggers
    ensures var v, alarm := s1.counters[c].value, s1.alarms[a];
      Fresh(FireIfTrue(s1, a), c) <==> !GoesStale(alarm.trigger, alarm.delta, v, Others(s, c, a, v))
  {
    hide NarrowAll, Triggers, FireIfTrue, FireAlarm, Narrow, Advance, Nearest;
    var v, alarm, s' := s1.counters[c].value, s1.alarms[a], FireIfTrue(s1, a);
    var others := Others(s, c, a, v);
    ArrivalFires(s1, a, c);
    var next := s'.alarms[a].trigger.testValue;
    OthersAnd(s, s1, c, a, v);
    OthersAnd(s, s', c, a, v);
    if alarm.delta != 0 && CheckValue(alarm.trigger.check, v, v, alarm.trigger.testValue)
       && Advance(alarm.trigger.check, v, alarm.trigger.testValue, alarm.delta).Some? {
      OthersBeside(s, c, a, v);
      SidesIff(alarm.trigger, alarm.delta, next, v, others);
    } else {
      assert s'.alarms[a].trigger == alarm.trigger;
    }
  }

  lemma OthersBeside(s: State, c: Xid, a: Xid, v: Int64)
    requires c in s.counters
    ensures var others := Others(s, c, a, v);
      && (others.greater.Some? ==> v <= others.greater.value < INT64_MAX)
      && (others.less.Some? ==> INT64_MIN < others.less.value <= v)
  {
    NearestBrackets(Unrestricted, v, Triggers(s, Without(s.counters[c].triggers, AlarmTrigger(a))));
  }

  /** The alarm as it is when the request looks whether it has to go off, and the other triggers of its counter */
  lemma Arrived(s: State, client: Client, a: Xid, attrs: Attributes, clock: Clock, c: Xid)
    requires Inv(s) && a in s.alarms && ChangeStatus(s, a, attrs, clock) == Success && Free(s, c)
    requires SyncRuns.Arriving(s, a, attrs, clock).sync == Some(c)
    ensures var s1 := ChangeAttributes(s, client, a, attrs, clock);
      && SyncRuns.InvBut(s1, a) && s1.alarms[a].state == Active && Agrees(s1.alarms[a])
      && s1.alarms[a].trigger == SyncRuns.Arriving(s, a, attrs, clock)
        && s1.alarms[a].delta == Get(attrs.delta, s.alarms[a].delta)
      && Fresh(s1, c) && s1.counters[c].value == clock(c)
      && s1 == s.(alarms := s.alarms[a := s1.alarms[a]], counters := s1.counters)
      && Moved(s, s1, AlarmTrigger(a), Some(c))
  {
    hide *;
    assert SyncRuns.InvBut(s, a) && Agrees(s.alarms[a]) && Linked(s) by { InOrderBut(s, a); }
    SyncRuns.ChangeAttributesSuccess(s, client, a, attrs, clock);
    SyncRuns.AttributesEffect(s, client, a, attrs, clock);
    AttributesFresh(s, client, a, attrs, clock, c);
  }

  lemma InOrderBut(s: State, a: Xid)
    requires Inv(s) && a in s.alarms
    ensures SyncRuns.InvBut(s, a) && Agrees(s.alarms[a]) && Linked(s)
  {
    assert AlarmOk(s, a);
  }

  /**
   * A CreateAlarm or ChangeAlarm that puts an alarm on counter c leaves the brackets of c up to date exactly if the alarm
   * does not go off at once, or the test value it then advances to asks for the same brackets.
   */
  lemma ArrivalFresh(s: State, client: Client, a: Xid, attrs: Attributes, clock: Clock, c: Xid)
    requires Inv(s) && a in s.alarms && ChangeStatus(s, a, attrs, clock) == Success && Free(s, c)
    requires SyncRuns.Arriving(s, a, attrs, clock).sync == Some(c)
    ensures Fresh(FireIfTrue(ChangeAttributes(s, client, a, attrs, clock), a), c)
            <==> !GoesStale(SyncRuns.Arriving(s, a, attrs, clock), Get(attrs.delta, s.alarms[a].delta), clock(c),
                            Others(s, c, a, clock(c)))
  {
    hide NarrowAll, Triggers, FireIfTrue, ChangeAttributes, GoesStale, SyncRuns.Arriving, ChangeStatus, Fresh;
    Arrived(s, client, a, attrs, clock, c);
    var s1 := ChangeAttributes(s, client, a, attrs, clock);
    assert forall t | t in s.counters[c].triggers :: Armed(s, t);
    forall t | t in s1.counters[c].triggers
      ensures Has(s1, t) && (t != AlarmTrigger(a) ==> Trig(s1, t) == Trig(s, t))
    {
      assert t == AlarmTrigger(a) || t in s.counters[c].triggers;
    }
    FiredFresh(s, s1, a, c);
  }

  lemma ChangeAlarmFresh(s: State, client: Client, a: Xid, attrs: Attributes, clock: Clock, c: Xid)
    requires Inv(s) && a in s.alarms && ChangeStatus(s, a, attrs, clock) == Success && Free(s, c)
    requires SyncRuns.Arriving(s, a, attrs, clock).sync == Some(c)
    ensures Fresh(SyncRequests.ChangeAlarm(s, client, a, attrs, clock), c)
            <==> !GoesStale(SyncRuns.Arriving(s, a, attrs, clock), Get(attrs.delta, s.alarms[a].delta), clock(c),
                            Others(s, c, a, clock(c)))
  {
    hide *;
    ArrivalFresh(s, client, a, attrs, clock, c);
    assert SyncRequests.ChangeAlarm(s, client, a, attrs, clock)
      == FireIfTrue(ChangeAttributes(s, client, a, attrs, clock), a) by {
      ChangeAlarmFires(s, client, a, attrs, clock);
    }
  }

  lemma ChangeAlarmFires(s: State, client: Client, a: Xid, attrs: Attributes, clock: Clock)
    requires a in s.alarms && ChangeStatus(s, a, attrs, clock) == Success
    ensures SyncRequests.ChangeAlarm(s, client, a, attrs, clock)
             == FireIfTrue(ChangeAttributes(s, client, a, attrs, clock), a)
  {
    hide FireIfTrue, ChangeAttributes, ChangeStatus;
  }

  lemma CreateAlarmFires(s: State, client: Client, a: Xid, attrs: Attributes, clock: Clock, c: Xid)
    requires Inv(s) && a !in s.alarms && a !in s.counters
    requires var s0 := SetAlarm(s, a, NewAlarm(client));
      ChangeStatus(s0, a, attrs, clock) == Success && SyncRuns.Arriving(s0, a, attrs, clock).sync == Some(c)
    ensures SyncRequests.CreateAlarm(s, client, a, attrs, clock)
         == FireIfTrue(ChangeAttributes(SetAlarm(s, a, NewAlarm(client)), client, a, attrs, clock), a)
  {
    hide FireIfTrue, ChangeAttributes, ChangeStatus, SyncRuns.Arriving, Linked, Complete, Blocking;
    var s0 := SetAlarm(s, a, NewAlarm(client));
    SyncRuns.NewAlarmInv(s, client, a);
    SyncRuns.AttributesEffect(s0, client, a, attrs, clock);
  }

  lemma CreateAlarmFresh(s: State, client: Client, a: Xid, attrs: Attributes, clock: Clock, c: Xid)
    requires Inv(s) && a !in s.alarms && a !in s.counters && Free(s, c)
    requires var s0 := SetAlarm(s, a, NewAlarm(client));
      ChangeStatus(s0, a, attrs, clock) == Success && SyncRuns.Arriving(s0, a, attrs, clock).sync == Some(c)
    ensures var s0 := SetAlarm(s, a, NewAlarm(client));
      Fresh(SyncRequests.CreateAlarm(s, client, a, attrs, clock), c)
      <==> !GoesStale(SyncRuns.Arriving(s0, a, attrs, clock), Get(attrs.delta, 1), clock(c), Others(s0, c, a, clock(c)))
  {
    hide FireIfTrue, ChangeAttributes, ChangeStatus, SyncRuns.Arriving, Inv, GoesStale, Others, Fresh;
    var s0 := SetAlarm(s, a, NewAlarm(client));
    SyncRuns.NewAlarmInv(s, client, a);
    CreateAlarmFires(s, client, a, attrs, clock, c);
    ArrivalFresh(s0, client, a, attrs, clock, c);
  }

  // ----- what the shortcut does about it -----

  /** The trigger is TRUE on arrival and advances to a test value that brackets b do not see. */
  predicate GoesUnseen(trig: Trigger, delta: Int64, v: Int64, b: Brackets) {
    delta != 0 && CheckValue(trig.check, v, v, trig.testValue) &&
    match Advance(trig.check, v, trig.testValue, delta)
    case Some(next) => Unseen(trig.(testValue := next), b, v)
    case None => false
  }

  /** The brackets that a request computes when it puts the alarm on counter c at value v */
  function Asked(s: State, c: Xid, a: Xid, trig: Trigger, v: Int64): Brackets
    requires c in s.counters
  {
    Narrow(Unrestricted, v, trig, Others(s, c, a, v))
  }

  /** No other pending trigger of c than those of o can fire unseen by brackets b at value v. */
  ghost predicate SeenBut(s: State, c: Xid, b: Brackets, v: Int64, o: Owner) {
    c in s.counters &&
    forall t | t in s.counters[c].triggers && Has(s, t) && Pending(s, t) && !Owns(o, t) :: !Unseen(Trig(s, t), b, v)
  }

  lemma JoinedSeen(s: State, s': State, c: Xid, b: Brackets, v: Int64, o: Owner)
    requires Joined(s, s', c, o)
    ensures SeenBut(s', c, b, v, o) <==> SeenBut(s, c, b, v, o)
  {
    hide NarrowAll, Triggers, Unseen;
    forall t | t in s.counters[c].triggers && !Owns(o, t)
      ensures Unseen(Trig(s, t), b, v) <==> Unseen(Trig(s', t), b, v)
    {
      SameUnseen(Trig(s, t), Trig(s', t), b, v);
    }
  }

  lemma SameUnseen(trig: Trigger, trig': Trigger, b: Brackets, u: Int64)
    requires SameTest(trig, trig')
    ensures Unseen(trig, b, u) <==> Unseen(trig', b, u)
  {
  }

  /** The others, and the alarm itself */
  lemma SplitAlarm(s: State, c: Xid, a: Xid)
    requires Free(s, c) && AlarmTrigger(a) in s.counters[c].triggers && a in s.alarms
    ensures var active, trig := s.alarms[a].state == Active, s.alarms[a].trigger;
      var b, v := BracketsOf(s, c), s.counters[c].value;
      && (GuardedBut(s, c, Nobody) <==> GuardedBut(s, c, OfAlarm(a)) && (active ==> Heard(trig, b, v)))
      && (NoneUnseen(s, c, b) <==> SeenBut(s, c, b, v, OfAlarm(a)) && (active ==> !Unseen(trig, b, v)))
  {
    hide NarrowAll, Triggers, Unseen;
  }

  /** After the request the alarm is heard, or Inactive, exactly if it has not gone off to a value unseen. */
  lemma AlarmHeard(s1: State, a: Xid, c: Xid)
    requires a in s1.alarms && s1.alarms[a].state == Active && Agrees(s1.alarms[a]) && s1.alarms[a].trigger.sync == Some(c)
    requires Fresh(s1, c) && AlarmTrigger(a) in s1.counters[c].triggers && Has(s1, AlarmTrigger(a))
    ensures var s', v, b := FireIfTrue(s1, a), s1.counters[c].value, BracketsOf(s1, c);
      var unseen := GoesUnseen(s1.alarms[a].trigger, s1.alarms[a].delta, v, b);
      && a in s'.alarms
      && ((s'.alarms[a].state == Active ==> Heard(s'.alarms[a].trigger, b, v)) <==> !unseen)
      && ((s'.alarms[a].state == Active ==> !Unseen(s'.alarms[a].trigger, b, v)) <==> !unseen)
  {
    hide NarrowAll, Triggers, FireIfTrue, Advance, Unseen;
    ArrivalFires(s1, a, c);
    var trig, v := s1.alarms[a].trigger, s1.counters[c].value;
    if !CheckValue(trig.check, v, v, trig.testValue) {
      ComputedSee(v, Triggers(s1, s1.counters[c].triggers), trig);
    }
  }

  lemma ArrivedJoined(s: State, s1: State, a: Xid, c: Xid)
    requires Inv(s) && Free(s, c) && SyncRuns.InvBut(s1, a)
    requires a in s.alarms && s1 == s.(alarms := s.alarms[a := s1.alarms[a]], counters := s1.counters)
    requires Moved(s, s1, AlarmTrigger(a), Some(c))
    ensures Joined(s, s1, c, OfAlarm(a)) && AlarmTrigger(a) in s1.counters[c].triggers && Has(s1, AlarmTrigger(a))
  {
    assert forall t | t in s.counters[c].triggers :: Armed(s, t);
  }

  lemma FiredJoined(s1: State, a: Xid, c: Xid)
    requires a in s1.alarms && s1.alarms[a].state == Active && Agrees(s1.alarms[a]) && s1.alarms[a].trigger.sync == Some(c)
    requires c in s1.counters && forall t | t in s1.counters[c].triggers :: Has(s1, t)
    ensures var s' := FireIfTrue(s1, a);
      Joined(s1, s', c, OfAlarm(a)) && s'.counters == s1.counters && a in s'.alarms
  {
    hide NarrowAll, Triggers, FireIfTrue, Advance;
    ArrivalFires(s1, a, c);
  }

  /** What is known of the state a request leaves when it has put alarm a on counter c */
  lemma ArrivalKnown(s: State, client: Client, a: Xid, attrs: Attributes, clock: Clock, c: Xid)
    requires Inv(s) && a in s.alarms && ChangeStatus(s, a, attrs, clock) == Success && Free(s, c)
    requires SyncRuns.Arriving(s, a, attrs, clock).sync == Some(c)
    ensures var s' := FireIfTrue(ChangeAttributes(s, client, a, attrs, clock), a);
      var trig, v := SyncRuns.Arriving(s, a, attrs, clock), clock(c);
      var unseen := GoesUnseen(trig, Get(attrs.delta, s.alarms[a].delta), v, Asked(s, c, a, trig, v));
      && Free(s', c) && s'.counters[c].value == v && BracketsOf(s', c) == Asked(s, c, a, trig, v)
      && Joined(s, s', c, OfAlarm(a)) && AlarmTrigger(a) in s'.counters[c].triggers && a in s'.alarms
      && ((s'.alarms[a].state == Active ==> Heard(s'.alarms[a].trigger, BracketsOf(s', c), v)) <==> !unseen)
      && ((s'.alarms[a].state == Active ==> !Unseen(s'.alarms[a].trigger, BracketsOf(s', c), v)) <==> !unseen)
      && (GuardedBut(s', c, OfAlarm(a)) <==> QuiescentBut(s, c, v, OfAlarm(a)))
  {
    hide *;
    var s1 := ChangeAttributes(s, client, a, attrs, clock);
    var s' := FireIfTrue(s1, a);
    Arrived(s, client, a, attrs, clock, c);
    ArrivedJoined(s, s1, a, c);
    ArrivedListed(s, s1, a, c);
    FiredJoined(s1, a, c);
    AlarmHeard(s1, a, c);
    JoinedTwice(s, s1, s', c, OfAlarm(a));
    OthersAnd(s, s1, c, a, clock(c));
    FreshFree(s1, c);
    FreeThere(s1, s', c);
    SameThere(s1, s', c);
    FreshIs(s1, c);
    JoinedQuiescent(s, s1, c, clock(c), OfAlarm(a));
    FreshGuardIff(s1, c, OfAlarm(a));
    JoinedHeard(s1, s', c, clock(c), OfAlarm(a));
    GuardedIs(s1, c, OfAlarm(a));
    GuardedIs(s', c, OfAlarm(a));
    AskedIs(s, c, a, SyncRuns.Arriving(s, a, attrs, clock), clock(c));
  }

  lemma AskedIs(s: State, c: Xid, a: Xid, trig: Trigger, v: Int64)
    requires c in s.counters
    ensures Asked(s, c, a, trig, v) == Narrow(Unrestricted, v, trig, Others(s, c, a, v))
  {
  }

  lemma FreshIs(s: State, c: Xid)
    requires Fresh(s, c)
    ensures BracketsOf(s, c) == Computed(s, c, s.counters[c].value)
  {
  }

  lemma GuardedIs(s: State, c: Xid, o: Owner)
    requires Free(s, c)
    ensures GuardedBut(s, c, o) <==> HeardBut(s, c, s.counters[c].value, o)
  {
    hide HeardBut;
  }

  lemma SameThere(s: State, s': State, c: Xid)
    requires Free(s, c) && s'.counters == s.counters
    ensures BracketsOf(s', c) == BracketsOf(s, c)
  {
  }

  /** The conditions of OthersAnd */
  lemma ArrivedListed(s: State, s1: State, a: Xid, c: Xid)
    requires Inv(s) && Free(s, c) && SyncRuns.InvBut(s1, a)
    requires a in s.alarms && s1 == s.(alarms := s.alarms[a := s1.alarms[a]], counters := s1.counters)
    requires Moved(s, s1, AlarmTrigger(a), Some(c))
    ensures c in s.counters && NoDup(s.counters[c].triggers)
    ensures forall t | t in s1.counters[c].triggers :: Has(s1, t)
    ensures forall t | t in s.counters[c].triggers && t != AlarmTrigger(a) ::
              Has(s, t) && Has(s1, t) && Trig(s1, t) == Trig(s, t)
    ensures forall t :: t in s1.counters[c].triggers <==> t == AlarmTrigger(a) || t in s.counters[c].triggers
  {
    assert forall t | t in s.counters[c].triggers :: Armed(s, t);
  }

  /** A request that puts an alarm on c leaves c guarded exactly if no other trigger is TRUE and the alarm is seen. */
  lemma ArrivalGuardedIff(s: State, client: Client, a: Xid, attrs: Attributes, clock: Clock, c: Xid)
    requires Inv(s) && a in s.alarms && ChangeStatus(s, a, attrs, clock) == Success && Free(s, c)
    requires SyncRuns.Arriving(s, a, attrs, clock).sync == Some(c)
    ensures Free(FireIfTrue(ChangeAttributes(s, client, a, attrs, clock), a), c)
    ensures var trig, v := SyncRuns.Arriving(s, a, attrs, clock), clock(c);
      GuardedBut(FireIfTrue(ChangeAttributes(s, client, a, attrs, clock), a), c, Nobody)
      <==> QuiescentBut(s, c, v, OfAlarm(a))
           && !GoesUnseen(trig, Get(attrs.delta, s.alarms[a].delta), v, Asked(s, c, a, trig, v))
  {
    hide *;
    ArrivalKnown(s, client, a, attrs, clock, c);
    SplitAlarm(FireIfTrue(ChangeAttributes(s, client, a, attrs, clock), a), c, a);
  }

  /**
   * After a request that puts an alarm on counter c the shortcut misses nothing exactly if no other pending trigger can
   * fire unseen by the brackets just computed, and the alarm, if it goes off at once, does not go to a test value that can.
   */
  lemma ArrivalMissesNothing(s: State, client: Client, a: Xid, attrs: Attributes, clock: Clock, c: Xid)
    requires Inv(s) && a in s.alarms && ChangeStatus(s, a, attrs, clock) == Success && Free(s, c)
    requires SyncRuns.Arriving(s, a, attrs, clock).sync == Some(c)
    requires Inv(FireIfTrue(ChangeAttributes(s, client, a, attrs, clock), a))
    ensures var trig, v := SyncRuns.Arriving(s, a, attrs, clock), clock(c);
      var b := Asked(s, c, a, trig, v);
      MissesNothing(FireIfTrue(ChangeAttributes(s, client, a, attrs, clock), a), c)
      <==> SeenBut(s, c, b, v, OfAlarm(a)) && !GoesUnseen(trig, Get(attrs.delta, s.alarms[a].delta), v, b)
  {
    hide *;
    var s' := FireIfTrue(ChangeAttributes(s, client, a, attrs, clock), a);
    ArrivalKnown(s, client, a, attrs, clock, c);
    SplitAlarm(s', c, a);
    JoinedSeen(s, s', c, BracketsOf(s', c), clock(c), OfAlarm(a));
    FreeIs(s', c);
    MissesNothingIff(s', c);
  }

  lemma FreeIs(s: State, c: Xid)
    requires Free(s, c)
    ensures IsSystem(s, c) && c in s.counters && s.counters[c].kind.ct == Unrestricted
  {
  }

  lemma ChangeAlarmMissesNothing(s: State, client: Client, a: Xid, attrs: Attributes, clock: Clock, c: Xid)
    requires Inv(s) && a in s.alarms && ChangeStatus(s, a, attrs, clock) == Success && Free(s, c)
    requires SyncRuns.Arriving(s, a, attrs, clock).sync == Some(c)
    ensures var trig, v := SyncRuns.Arriving(s, a, attrs, clock), clock(c);
      var b := Asked(s, c, a, trig, v);
      MissesNothing(SyncRequests.ChangeAlarm(s, client, a, attrs, clock), c)
      <==> SeenBut(s, c, b, v, OfAlarm(a)) && !GoesUnseen(trig, Get(attrs.delta, s.alarms[a].delta), v, b)
  {
    hide *;
    ChangeAlarmFires(s, client, a, attrs, clock);
    SyncRuns.ChangeAlarmInv(s, client, a, attrs, clock);
    SuccessHarmless(s, a, attrs, clock);
    ArrivalMissesNothing(s, client, a, attrs, clock, c);
  }

  lemma SuccessHarmless(s: State, a: Xid, attrs: Attributes, clock: Clock)
    requires a in s.alarms && ChangeStatus(s, a, attrs, clock) == Success
    ensures Harmless(s, a, attrs, clock)
  {
  }

  lemma CreateAlarmMissesNothing(s: State, client: Client, a: Xid, attrs: Attributes, clock: Clock, c: Xid)
    requires Inv(s) && a !in s.alarms && a !in s.counters && Free(s, c)
    requires var s0 := SetAlarm(s, a, NewAlarm(client));
      ChangeStatus(s0, a, attrs, clock) == Success && SyncRuns.Arriving(s0, a, attrs, clock).sync == Some(c)
    ensures var s0 := SetAlarm(s, a, NewAlarm(client));
      var trig, v := SyncRuns.Arriving(s0, a, attrs, clock), clock(c);
      var b := Asked(s0, c, a, trig, v);
      MissesNothing(SyncRequests.CreateAlarm(s, client, a, attrs, clock), c)
      <==> SeenBut(s, c, b, v, Nobody) && !GoesUnseen(trig, Get(attrs.delta, 1), v, b)
  {
    hide ChangeAttributes, ChangeStatus, FireIfTrue, SyncRuns.Arriving, Linked, Complete, Blocking, AlarmsOk, Unseen,
      GoesUnseen, MissesNothing, Asked, NarrowAll, Triggers;
    var s0 := SetAlarm(s, a, NewAlarm(client));
    SyncRuns.NewAlarmInv(s, client, a);
    CreateAlarmFires(s, client, a, attrs, clock, c);
    SyncRuns.CreateAlarmInv(s, client, a, attrs, clock);
    ArrivalMissesNothing(s0, client, a, attrs, clock, c);
    var trig := SyncRuns.Arriving(s0, a, attrs, clock);
    NewAlarmSeen(s, client, a, c, Asked(s0, c, a, trig, clock(c)), clock(c));
  }

  lemma NewAlarmSeen(s: State, client: Client, a: Xid, c: Xid, b: Brackets, v: Int64)
    requires Linked(s) && a !in s.alarms && c in s.counters
    ensures SeenBut(SetAlarm(s, a, NewAlarm(client)), c, b, v, OfAlarm(a)) <==> SeenBut(s, c, b, v, Nobody)
  {
    hide Unseen;
    var s0 := SetAlarm(s, a, NewAlarm(client));
    forall t | t in s.counters[c].triggers
      ensures t != AlarmTrigger(a) && Has(s, t) && Has(s0, t) && Trig(s0, t) == Trig(s, t)
      ensures Pending(s0, t) <==> Pending(s, t)
    {
      assert Armed(s, t);
    }
  }

  // ----- a query -----

  /** After a query the shortcut misses nothing exactly if no pending trigger can fire unseen from the value read. */
  lemma QueryMissesNothing(s: State, c: Xid, clock: Clock)
    requires Inv(s) && Free(s, c)
    ensures MissesNothing(Query(s, Some(c), clock), c) <==> SeenBut(s, c, BracketsOf(s, c), clock(c), Nobody)
  {
    hide Unseen, FastRun, SlowRun, MissesNothing, Linked, Complete, Blocking, AlarmsOk;
    var s' := Query(s, Some(c), clock);
    SyncRuns.SetValueInv(s, c, clock(c));
    MissesNothingIff(s', c);
    forall t | t in s.counters[c].triggers && Has(s, t)
      ensures Has(s', t) && Trig(s', t) == Trig(s, t) && (Pending(s', t) <==> Pending(s, t))
    {
    }
  }

  /** A transition trigger that the value read has jumped, and that can come back to */
  predicate Jumped(trig: Trigger, b: Brackets, v: Int64) {
    Lo(b) <= Hi(b) &&
    match trig.testType
    case PositiveTransition => v < trig.testValue <= Hi(b)
    case NegativeTransition => v > trig.testValue >= Lo(b)
    case _ => false
  }

  /** Where nothing was missed before, only transition triggers can be lost by a query. */
  lemma QueryJumps(s: State, c: Xid, clock: Clock)
    requires Inv(s) && Free(s, c) && MissesNothing(s, c)
    ensures MissesNothing(Query(s, Some(c), clock), c)
            <==> forall t | t in s.counters[c].triggers && Has(s, t) && Pending(s, t) ::
                   !Jumped(Trig(s, t), BracketsOf(s, c), clock(c))
  {
    hide FastRun, SlowRun, MissesNothing, Inv;
    MissesNothingIff(s, c);
    QueryMissesNothing(s, c, clock);
    forall t | t in s.counters[c].triggers && Has(s, t) && Pending(s, t)
      ensures Unseen(Trig(s, t), BracketsOf(s, c), clock(c)) <==> Jumped(Trig(s, t), BracketsOf(s, c), clock(c))
    {
      assert !Unseen(Trig(s, t), BracketsOf(s, c), s.counters[c].value);
    }
  }
}
