/** Runs on which Xext/sync.c does not keep what it sets out to keep, each as short as it can be. */
module SyncLapses {
  import opened Options
  import opened SyncTypes
  import opened SyncBrackets
  import opened SyncModel
  import opened SyncRequests
  import opened SyncLinks
  import opened SyncInvariants
  import opened SyncInit
  import opened SyncAlarms
  import SyncRuns
  import opened SyncIdle
  import opened SyncGuards
  import opened SyncMissed
  import SyncArrivals
  import SyncAwaits
  import SyncDestroy

  // ----- one counter, one alarm -----

  function Asking(counter: Xid, value: Int64, test: TestType, delta: Int64): Attributes {
    Attributes(Some(counter), Some(Absolute), Some(value), Some(test), Some(delta), None, false)
  }

  lemma RunTwo(s: State, one: Step, two: Step)
    ensures Run(s, [one, two]) == DoStep(DoStep(s, one), two)
    ensures LegalRun(s, [one, two]) <==> Legal(s, one) && Legal(DoStep(s, one), two)
  {
    hide DoStep, Legal;
    assert [one, two][1..] == [two];
    assert [two][1..] == [];
    assert Run(DoStep(s, one), [two]) == Run(DoStep(DoStep(s, one), two), []);
    assert LegalRun(DoStep(DoStep(s, one), two), []);
    assert LegalRun(DoStep(s, one), [two]) <==> Legal(DoStep(s, one), two);
  }

  lemma RunThree(s: State, one: Step, two: Step, three: Step)
    ensures Run(s, [one, two, three]) == DoStep(DoStep(DoStep(s, one), two), three)
    ensures LegalRun(s, [one, two, three])
            <==> Legal(s, one) && Legal(DoStep(s, one), two) && Legal(DoStep(DoStep(s, one), two), three)
  {
    hide DoStep, Legal;
    assert [one, two, three][1..] == [two, three];
    RunTwo(DoStep(s, one), two, three);
  }

  lemma OnlyNode(list: seq<TriggerId>, t: TriggerId)
    requires NoDup(list) && forall u :: u in list <==> u == t
    ensures list == [t]
  {
    assert t in list;
    assert forall i | 0 <= i < |list| :: list[i] in list;
    if |list| > 1 {
      FirstTwoDiffer(list);
      assert false;
    }
  }

  lemma FirstTwoDiffer(list: seq<TriggerId>)
    requires NoDup(list) && |list| > 1
    ensures list[0] != list[1]
  {
  }

  /** The alarm as CreateAlarm has made it, before it looks whether it has to go off */
  lemma FirstAlarm(s: State, client: Client, a: Xid, c: Xid, value: Int64, test: TestType, delta: Int64, clock: Clock)
    requires Inv(s) && s.alarms == map[] && c != NONE && c in s.counters && s.counters[c].triggers == []
    requires !test.OtherTest? && !WrongSign(test, delta)
    ensures var s0, attrs := SetAlarm(s, a, NewAlarm(client)), Asking(c, value, test, delta);
      var s' := ChangeAttributes(s0, client, a, attrs, clock);
      && Inv(s0) && a in s0.alarms && ChangeStatus(s0, a, attrs, clock) == Success
      && SyncRuns.Arriving(s0, a, attrs, clock) == Trigger(Some(c), value, Absolute, test, value, test)
      && SyncRuns.InvBut(s', a) && s'.alarms[a].trigger == Trigger(Some(c), value, Absolute, test, value, test)
      && s'.alarms[a].state == Active && s'.alarms[a].delta == delta && s'.alarms == map[a := s'.alarms[a]]
      && c in s'.counters && s'.counters[c].triggers == [AlarmTrigger(a)]
      && CountersKept(s, s') && s' == s.(alarms := s'.alarms, counters := s'.counters)
  {
    hide ChangeAttributes, Linked, Blocking, Complete, NoneDying;
    var s0, attrs := SetAlarm(s, a, NewAlarm(client)), Asking(c, value, test, delta);
    SyncRuns.NewAlarmInv(s, client, a);
    SyncArrivals.InOrderBut(s0, a);
    FirstStatus(s0, client, a, c, value, test, delta, clock);
    SyncRuns.AttributesEffect(s0, client, a, attrs, clock);
    SyncRuns.ChangeAttributesSuccess(s0, client, a, attrs, clock);
    var s' := ChangeAttributes(s0, client, a, attrs, clock);
    OnlyNode(s'.counters[c].triggers, AlarmTrigger(a));
  }

  lemma FirstStatus(s0: State, client: Client, a: Xid, c: Xid, value: Int64, test: TestType, delta: Int64, clock: Clock)
    requires a in s0.alarms && s0.alarms[a] == NewAlarm(client) && c != NONE && c in s0.counters
    requires !test.OtherTest? && !WrongSign(test, delta)
    ensures ChangeStatus(s0, a, Asking(c, value, test, delta), clock) == Success
    ensures SyncRuns.Arriving(s0, a, Asking(c, value, test, delta), clock)
         == Trigger(Some(c), value, Absolute, test, value, test)
  {
    hide Query;
    WrapInside(value);
  }

  lemma WrapInside(x: Int64)
    ensures Wrap(x) == x
  {
  }

  // ----- brackets that an alarm leaves stale -----

  const FIVE_SECONDS: Clock := (c: Xid) => 5000

  /** An alarm that is TRUE at once: at 5 s, for 1 s, and then every minute */
  const STALE: seq<Step> := [
    DoCreateSystemCounter(1, 5000, Unrestricted),
    DoCreateAlarm(7, 2, Asking(1, 1000, PositiveComparison, 60000), FIVE_SECONDS)]

  const AFTER_A_MINUTE := [Reading(61000, false)]

  lemma StaleStart()
    ensures var s := CreateCounter(INITIAL, 1, 5000, SystemCounter(Unrestricted, NO_BRACKETS));
      && Inv(INITIAL) && Inv(s) && Free(s, 1) && s.alarms == map[] && 1 in s.counters && s.counters[1].triggers == []
      && s.counters.Keys == {1} && s.log == [] && s.gone == {} && s.ignore == map[]
  {
    assert Inv(INITIAL);
    SyncRuns.NewCounterInv(INITIAL, 1, 5000, SystemCounter(Unrestricted, NO_BRACKETS));
  }

  lemma MinuteAdvance()
    ensures Advance(PositiveComparison, 5000, 1000, 60000) == Some(61000)
  {
  }

  const EVERY_MINUTE := Trigger(Some(1), 1000, Absolute, PositiveComparison, 1000, PositiveComparison)

  lemma MinuteFires(s: State)
    requires 2 in s.alarms && s.alarms[2].trigger == EVERY_MINUTE && s.alarms[2].delta == 60000
             && s.alarms[2].state == Active
    requires 1 in s.counters && s.counters[1].value == 5000
    ensures var s' := FireIfTrue(s, 2);
      && s' == s.(alarms := s'.alarms, log := s'.log) && 2 in s'.alarms
      && s'.alarms[2] == s.alarms[2].(trigger := EVERY_MINUTE.(testValue := 61000))
  {
    hide Advance;
    MinuteAdvance();
  }

  /** One alarm below the present value asks for the lower bracket only. */
  lemma MinuteBrackets(s: State)
    requires 2 in s.alarms && s.alarms[2].trigger == EVERY_MINUTE
    requires Fresh(s, 1) && s.counters[1].value == 5000 && s.counters[1].triggers == [AlarmTrigger(2)]
    ensures BracketsOf(s, 1) == Brackets(Some(1000), None)
  {
    assert [AlarmTrigger(2)][..0] == [];
    assert Triggers(s, [AlarmTrigger(2)]) == [EVERY_MINUTE];
    NarrowOne(5000, EVERY_MINUTE);
  }

  lemma NarrowOne(v: Int64, trig: Trigger)
    ensures NarrowAll(Unrestricted, v, [trig]) == Narrow(Unrestricted, v, trig, NO_BRACKETS)
  {
    assert [trig][..0] == [];
    assert NarrowAll(Unrestricted, v, []) == NO_BRACKETS;
  }

  /** What the alarm has become, and the brackets computed before it went off */
  lemma StaleState()
    ensures LegalRun(INITIAL, STALE)
    ensures var s := Run(INITIAL, STALE);
      && Inv(s) && Free(s, 1) && s.counters[1].value == 5000 && s.counters[1].triggers == [AlarmTrigger(2)]
      && 2 in s.alarms && s.alarms[2].state == Active && s.alarms[2].trigger == EVERY_MINUTE.(testValue := 61000)
      && s.alarms[2].delta == 60000 && BracketsOf(s, 1) == Brackets(Some(1000), None)
  {
    hide ChangeAttributes, FireIfTrue, ChangeStatus, Inv, SyncRuns.Arriving, Linked, Complete, Blocking, NoneDying, AlarmOk,
      SyncModel.ChangeCounter, Fresh;
    var one, two := STALE[0], STALE[1];
    var attrs := Asking(1, 1000, PositiveComparison, 60000);
    var s := CreateCounter(INITIAL, 1, 5000, SystemCounter(Unrestricted, NO_BRACKETS));
    var s0 := SetAlarm(s, 2, NewAlarm(7));
    StaleStart();
    RunTwo(INITIAL, one, two);
    FirstAlarm(s, 7, 2, 1, 1000, PositiveComparison, 60000, FIVE_SECONDS);
    SyncArrivals.InOrderBut(s0, 2);
    AttributesFresh(s0, 7, 2, attrs, FIVE_SECONDS, 1);
    var s1 := ChangeAttributes(s0, 7, 2, attrs, FIVE_SECONDS);
    MinuteBrackets(s1);
    MinuteFires(s1);
    assert Run(INITIAL, STALE) == FireIfTrue(s1, 2);
    SyncRuns.RunInv(INITIAL, STALE);
  }

  lemma MinutePassed(s: State)
    requires Inv(s) && Free(s, 1) && s.counters[1].value == 5000 && s.counters[1].triggers == [AlarmTrigger(2)]
    requires 2 in s.alarms && s.alarms[2].state == Active && s.alarms[2].trigger == EVERY_MINUTE.(testValue := 61000)
    requires BracketsOf(s, 1) == Brackets(Some(1000), None)
    ensures FastRun(s, 1, AFTER_A_MINUTE).log == s.log
    ensures |SlowRun(s, 1, AFTER_A_MINUTE).log| == |s.log| + 1
  {
    hide NarrowAll, Advance, FireAlarm, Refresh, Linked, Complete, Blocking;
    assert AFTER_A_MINUTE[1..] == [];
    var s1 := SetValue(s, 1, 61000);
    assert Quiet(BracketsOf(s, 1), 61000);
    assert FastRun(s, 1, AFTER_A_MINUTE) == FastRun(s1, 1, []);
    var t := AlarmTrigger(2);
    assert [t][..0] == [];
    assert True(s1, [t], 5000) == [t];
    assert FireAll(s1, [t]) == FireAlarm(s1, 2);
    assert Agrees(s1.alarms[2]) by { assert AlarmOk(s, 2); }
    AlarmGoesOff(s1, 2);
    RefreshFrame(FireAlarm(s1, 2), 1);
    assert SlowRun(s, 1, AFTER_A_MINUTE) == SlowRun(SyncModel.ChangeCounter(s, 1, 61000), 1, []);
  }

  /**
   * After an alarm that is TRUE when it is created, the brackets are those it asked for before it went off. A minute later
   * the shortcut leaves it unchecked, while a check of every reading sends its event.
   */
  lemma AlarmMissed()
    ensures LegalRun(INITIAL, STALE) && Free(Run(INITIAL, STALE), 1)
    ensures var s := Run(INITIAL, STALE);
      && !Fresh(s, 1) && BracketsOf(s, 1) == Brackets(Some(1000), None)
      && 2 in s.alarms && s.alarms[2].state == Active && s.alarms[2].trigger.testValue == 61000
      && FastRun(s, 1, AFTER_A_MINUTE).log == s.log && |SlowRun(s, 1, AFTER_A_MINUTE).log| == |s.log| + 1
  {
    hide Inv, SlowRun, FastRun, NarrowAll;
    StaleState();
    MinutePassed(Run(INITIAL, STALE));
    MinuteStale(Run(INITIAL, STALE));
  }

  lemma MinuteStale(s: State)
    requires Free(s, 1) && s.counters[1].value == 5000 && s.counters[1].triggers == [AlarmTrigger(2)]
    requires 2 in s.alarms && s.alarms[2].trigger == EVERY_MINUTE.(testValue := 61000)
    requires BracketsOf(s, 1) == Brackets(Some(1000), None)
    ensures !Fresh(s, 1)
  {
    assert [AlarmTrigger(2)][..0] == [];
    assert Triggers(s, [AlarmTrigger(2)]) == [s.alarms[2].trigger];
    NarrowOne(5000, s.alarms[2].trigger);
  }

  // ----- a request that reads the counter outside its brackets -----

  const AT_HALF: Clock := (c: Xid) => 500
  const AT_TWO: Clock := (c: Xid) => 2000

  /** An alarm at 1 s, and a QueryCounter that is the first to see the counter above it */
  function ReadOutside(test: TestType): seq<Step> {
    [DoCreateSystemCounter(1, 500, Unrestricted),
     DoCreateAlarm(7, 2, Asking(1, 1000, test, 0), AT_HALF),
     DoQueryCounter(7, 1, AT_TWO)]
  }

  const BACK_AGAIN := [Reading(0, true)]

  function AtOneSecond(test: TestType): Trigger {
    Trigger(Some(1), 1000, Absolute, test, 1000, test)
  }

  lemma OutsideBrackets(s: State, test: TestType)
    requires test in {NegativeTransition, PositiveComparison}
    requires 2 in s.alarms && s.alarms[2].trigger == AtOneSecond(test)
    requires Fresh(s, 1) && s.counters[1].value == 500 && s.counters[1].triggers == [AlarmTrigger(2)]
    ensures BracketsOf(s, 1) == Brackets(None, Some(1000))
    ensures FireIfTrue(s, 2) == s
  {
    assert [AlarmTrigger(2)][..0] == [];
    assert Triggers(s, [AlarmTrigger(2)]) == [AtOneSecond(test)];
    NarrowOne(500, AtOneSecond(test));
  }

  lemma OutsideStart(s: State)
    requires s == CreateCounter(INITIAL, 1, 500, SystemCounter(Unrestricted, NO_BRACKETS))
    ensures Inv(INITIAL) && Inv(s) && Free(s, 1) && s.alarms == map[] && 1 in s.counters && s.counters[1].triggers == []
    ensures s.counters.Keys == {1} && s.gone == {} && s.ignore == map[]
  {
    assert Inv(INITIAL);
    SyncRuns.NewCounterInv(INITIAL, 1, 500, SystemCounter(Unrestricted, NO_BRACKETS));
  }

  lemma OutsideState(test: TestType)
    requires test in {NegativeTransition, PositiveComparison}
    ensures LegalRun(INITIAL, ReadOutside(test))
    ensures var s := Run(INITIAL, ReadOutside(test));
      && Inv(s) && Free(s, 1) && s.counters[1].value == 2000 && s.counters[1].triggers == [AlarmTrigger(2)]
      && 2 in s.alarms && s.alarms[2].state == Active && s.alarms[2].trigger == AtOneSecond(test)
      && BracketsOf(s, 1) == Brackets(None, Some(1000))
  {
    hide ChangeAttributes, FireIfTrue, ChangeStatus, Inv, SyncRuns.Arriving, Linked, Complete, Blocking, NoneDying, AlarmOk,
      SyncModel.ChangeCounter, Fresh;
    var one, two, three := ReadOutside(test)[0], ReadOutside(test)[1], ReadOutside(test)[2];
    var s := CreateCounter(INITIAL, 1, 500, SystemCounter(Unrestricted, NO_BRACKETS));
    var s0 := SetAlarm(s, 2, NewAlarm(7));
    OutsideStart(s);
    RunThree(INITIAL, one, two, three);
    FirstAlarm(s, 7, 2, 1, 1000, test, 0, AT_HALF);
    SyncArrivals.InOrderBut(s0, 2);
    AttributesFresh(s0, 7, 2, Asking(1, 1000, test, 0), AT_HALF, 1);
    var s1 := ChangeAttributes(s0, 7, 2, Asking(1, 1000, test, 0), AT_HALF);
    OutsideBrackets(s1, test);
    assert DoStep(DoStep(INITIAL, one), two) == s1;
    assert Run(INITIAL, ReadOutside(test)) == SetValue(s1, 1, 2000);
    SyncRuns.RunInv(INITIAL, ReadOutside(test));
  }

  lemma FallPassed(s: State)
    requires Inv(s) && Free(s, 1) && s.counters[1].value == 2000 && s.counters[1].triggers == [AlarmTrigger(2)]
    requires 2 in s.alarms && s.alarms[2].state == Active && s.alarms[2].trigger == AtOneSecond(NegativeTransition)
    requires BracketsOf(s, 1) == Brackets(None, Some(1000))
    ensures FastRun(s, 1, BACK_AGAIN).log == s.log
    ensures |SlowRun(s, 1, BACK_AGAIN).log| == |s.log| + 1
  {
    hide NarrowAll, Advance, FireAlarm, Refresh, Linked, Complete, Blocking;
    assert BACK_AGAIN[1..] == [];
    var s1 := SetValue(s, 1, 0);
    assert FastRun(s, 1, BACK_AGAIN) == FastRun(s1, 1, []);
    var t := AlarmTrigger(2);
    assert [t][..0] == [];
    assert True(s1, [t], 2000) == [t];
    assert FireAll(s1, [t]) == FireAlarm(s1, 2);
    assert Agrees(s1.alarms[2]) by { assert AlarmOk(s, 2); }
    AlarmGoesOff(s1, 2);
    RefreshFrame(FireAlarm(s1, 2), 1);
    assert SlowRun(s, 1, BACK_AGAIN) == SlowRun(SyncModel.ChangeCounter(s, 1, 0), 1, []);
  }

  /** A query stores what it reads and checks nothing: the fall from there is missed inside the brackets. */
  lemma FallMissed()
    ensures var steps := ReadOutside(NegativeTransition); LegalRun(INITIAL, steps) && Free(Run(INITIAL, steps), 1)
    ensures var s := Run(INITIAL, ReadOutside(NegativeTransition));
      && !Quiet(BracketsOf(s, 1), s.counters[1].value)
      && FastRun(s, 1, BACK_AGAIN).log == s.log && |SlowRun(s, 1, BACK_AGAIN).log| == |s.log| + 1
  {
    hide Inv, SlowRun, FastRun, NarrowAll;
    OutsideState(NegativeTransition);
    FallPassed(Run(INITIAL, ReadOutside(NegativeTransition)));
  }

  /** A comparison is not lost that way, though it is TRUE already: no idle time inside the brackets makes it so. */
  lemma RiseNotMissed()
    ensures var steps := ReadOutside(PositiveComparison); LegalRun(INITIAL, steps) && Free(Run(INITIAL, steps), 1)
    ensures var s := Run(INITIAL, ReadOutside(PositiveComparison));
      !Quiet(BracketsOf(s, 1), s.counters[1].value) && MissesNothing(s, 1) && !Guarded(s, 1)
  {
    hide Inv, SlowRun, FastRun, NarrowAll, MissesNothing;
    OutsideState(PositiveComparison);
    var s := Run(INITIAL, ReadOutside(PositiveComparison));
    assert Pending(s, AlarmTrigger(2)) && Has(s, AlarmTrigger(2)) && AlarmTrigger(2) in s.counters[1].triggers;
    MissesNothingIff(s, 1);
  }

  // ----- wakeups with no brackets -----

  /** An alarm that goes off at once, for good, and leaves no bracket */
  const NO_BRACKET_LEFT: seq<Step> := [
    DoCreateSystemCounter(1, 500, Unrestricted),
    DoCreateAlarm(7, 2, Asking(1, 500, PositiveComparison, 0), AT_HALF)]

  const AT_ONCE := Trigger(Some(1), 500, Absolute, PositiveComparison, 500, PositiveComparison)

  lemma AtOnceFires(s: State)
    requires 2 in s.alarms && s.alarms[2].trigger == AT_ONCE && s.alarms[2].delta == 0 && s.alarms[2].state == Active
    requires Fresh(s, 1) && s.counters[1].value == 500 && s.counters[1].triggers == [AlarmTrigger(2)]
    ensures BracketsOf(s, 1) == NO_BRACKETS
    ensures var s' := FireIfTrue(s, 2);
      s'.counters == s.counters && s'.awaits == s.awaits && s'.alarms == s.alarms[2 := s.alarms[2].(state := Inactive)]
  {
    assert [AlarmTrigger(2)][..0] == [];
    assert Triggers(s, [AlarmTrigger(2)]) == [AT_ONCE];
    NarrowOne(500, AT_ONCE);
  }

  lemma NoBracketState()
    ensures LegalRun(INITIAL, NO_BRACKET_LEFT)
    ensures var s := Run(INITIAL, NO_BRACKET_LEFT);
      && Inv(s) && Free(s, 1) && s.counters[1].value == 500 && s.counters[1].triggers == [AlarmTrigger(2)]
      && s.alarms.Keys == {2} && s.alarms[2].state == Inactive && s.alarms[2].trigger == AT_ONCE
      && BracketsOf(s, 1) == NO_BRACKETS
  {
    hide ChangeAttributes, FireIfTrue, ChangeStatus, Inv, SyncRuns.Arriving, Linked, Complete, Blocking, NoneDying, AlarmOk,
      SyncModel.ChangeCounter, Fresh;
    var one, two := NO_BRACKET_LEFT[0], NO_BRACKET_LEFT[1];
    var s := CreateCounter(INITIAL, 1, 500, SystemCounter(Unrestricted, NO_BRACKETS));
    var s0 := SetAlarm(s, 2, NewAlarm(7));
    OutsideStart(s);
    RunTwo(INITIAL, one, two);
    FirstAlarm(s, 7, 2, 1, 500, PositiveComparison, 0, AT_HALF);
    SyncArrivals.InOrderBut(s0, 2);
    AttributesFresh(s0, 7, 2, Asking(1, 500, PositiveComparison, 0), AT_HALF, 1);
    var s1 := ChangeAttributes(s0, 7, 2, Asking(1, 500, PositiveComparison, 0), AT_HALF);
    AtOnceFires(s1);
    assert Run(INITIAL, NO_BRACKET_LEFT) == FireIfTrue(s1, 2);
    SyncRuns.RunInv(INITIAL, NO_BRACKET_LEFT);
  }

  lemma FarewellValue(s: State)
    requires 2 in s.alarms && s.alarms[2].trigger == AT_ONCE && 1 in s.counters
    ensures var log := FreeAlarm(s, 2).log;
      |log| == |s.log| + 1 && log[|s.log|].AlarmNotify? && log[|s.log|].counterValue == s.counters[1].value
  {
    hide DeleteTrigger;
    DeleteOnly(NotifyAlarm(SetAlarm(s, 2, s.alarms[2].(state := Destroyed)), 2), AlarmTrigger(2));
  }

  /**
   * The shortcut misses nothing here, but without a bracket a wakeup does not even store the idle time, and the next
   * request that gives the counter's value gives an old one. Through requests the two ways of checking part.
   */
  lemma OldValueReported()
    ensures LegalRun(INITIAL, NO_BRACKET_LEFT) && Free(Run(INITIAL, NO_BRACKET_LEFT), 1)
    ensures var s := Run(INITIAL, NO_BRACKET_LEFT);
      var fast, slow := FastRun(s, 1, AFTER_A_MINUTE), SlowRun(s, 1, AFTER_A_MINUTE);
      && MissesNothing(s, 1) && SameOutcome(fast, slow)
      && 2 in fast.alarms && 2 in slow.alarms
      && var told, owed := FreeAlarm(fast, 2).log, FreeAlarm(slow, 2).log;
      && |told| == |owed| == |s.log| + 1
      && told[|s.log|].AlarmNotify? && told[|s.log|].counterValue == 500
      && owed[|s.log|].AlarmNotify? && owed[|s.log|].counterValue == 61000
  {
    hide Inv, NarrowAll, Triggers, FreeAlarm, MissesNothing, FastRun, SlowRun, SyncModel.ChangeCounter;
    var s := Run(INITIAL, NO_BRACKET_LEFT);
    NoBracketState();
    forall t | t in s.counters[1].triggers
      ensures t == AlarmTrigger(2) && !Pending(s, t)
    {
    }
    MissesNothingIff(s, 1);
    OneReading(s, 1, 61000);
    NothingFires(s, 1, 61000);
    RefreshFrame(SetValue(s, 1, 61000), 1);
    FarewellValue(FastRun(s, 1, AFTER_A_MINUTE));
    FarewellValue(SlowRun(s, 1, AFTER_A_MINUTE));
  }

  // ----- a ChangeAlarm that fails late -----

  const NEARLY_MAX: Int64 := INT64_MAX - 5

  const ANY_TIME: Clock := (c: Xid) => 0

  const WAITING: seq<Step> := [
    DoCreateCounter(7, 1, NEARLY_MAX),
    DoCreateAlarm(7, 2, Asking(1, INT64_MAX, PositiveComparison, 1), ANY_TIME)]

  const AT_MAX := Trigger(Some(1), INT64_MAX, Absolute, PositiveComparison, INT64_MAX, PositiveComparison)

  lemma WaitingStart(s: State)
    requires s == CreateCounter(INITIAL, 1, NEARLY_MAX, ClientCounter(7))
    ensures Inv(INITIAL) && Inv(s) && s.alarms == map[]
             && s.counters == map[1 := Counter(NEARLY_MAX, [], false, ClientCounter(7))]
    ensures s.gone == {} && s.ignore == map[]
  {
    assert Inv(INITIAL);
    SyncRuns.NewCounterInv(INITIAL, 1, NEARLY_MAX, ClientCounter(7));
  }

  lemma NotYetTrue(s: State)
    requires 2 in s.alarms && s.alarms[2].trigger == AT_MAX && ValueOf(s, 1) == NEARLY_MAX
    ensures FireIfTrue(s, 2) == s
  {
  }

  /** An Active alarm, FALSE by 5 */
  lemma WaitingState()
    ensures LegalRun(INITIAL, WAITING)
    ensures var s := Run(INITIAL, WAITING);
      && Inv(s) && 1 in s.counters && s.counters[1].value == NEARLY_MAX && s.counters[1].kind == ClientCounter(7)
      && s.counters[1].triggers == [AlarmTrigger(2)] && s.counters.Keys == {1}
      && 2 in s.alarms && s.alarms[2].state == Active && s.alarms[2].trigger == AT_MAX && s.alarms[2].delta == 1
      && s.gone == {} && s.ignore == map[]
  {
    hide ChangeAttributes, FireIfTrue, ChangeStatus, Inv, SyncRuns.Arriving, Linked, Complete, Blocking, NoneDying, AlarmOk,
      SyncModel.ChangeCounter;
    var one, two := WAITING[0], WAITING[1];
    var s := CreateCounter(INITIAL, 1, NEARLY_MAX, ClientCounter(7));
    WaitingStart(s);
    RunTwo(INITIAL, one, two);
    FirstAlarm(s, 7, 2, 1, INT64_MAX, PositiveComparison, 1, ANY_TIME);
    NotYetTrue(ChangeAttributes(SetAlarm(s, 2, NewAlarm(7)), 7, 2, Asking(1, INT64_MAX, PositiveComparison, 1), ANY_TIME));
    SyncRuns.RunInv(INITIAL, WAITING);
  }

  /** Ten more than there is room for */
  const TEN_MORE := Attributes(None, Some(Relative), Some(10), None, None, None, false)

  lemma TenMoreFails(s: State)
    requires 1 in s.counters && s.counters[1].value == NEARLY_MAX && s.counters[1].kind == ClientCounter(7)
    requires 2 in s.alarms && s.alarms[2].trigger == AT_MAX
    ensures EarlyStatus(s.alarms[2], TEN_MORE) == Success && ChangeStatus(s, 2, TEN_MORE, ANY_TIME) == BadValue
    ensures LateTest(s, 2, TEN_MORE, ANY_TIME) == INT64_MIN + 4
  {
  }

  /**
   * A relative value that overflows is refused after the sum, wrapped round, has become the test value: the alarm is
   * Active, TRUE and will not go off, although its check function is still the one of its test type.
   */
  lemma RefusedAndTrue()
    ensures var s := Run(INITIAL, WAITING);
      LegalRun(INITIAL, WAITING) && Dispatched(s, 7) && 2 in s.alarms && ChangeStatus(s, 2, TEN_MORE, ANY_TIME) == BadValue
    ensures var s := DoStep(Run(INITIAL, WAITING), DoChangeAlarm(7, 2, TEN_MORE, ANY_TIME));
      && !Inv(s) && 2 in s.alarms && s.alarms[2].state == Active && Agrees(s.alarms[2])
      && Check(s, s.alarms[2].trigger, ValueOf(s, 1))
  {
    hide ChangeStatus, ChangeAttributes, LateTest, Linked, Complete, Blocking, NoneDying, AlarmOk;
    var s := Run(INITIAL, WAITING);
    WaitingState();
    TenMoreFails(s);
    SyncArrivals.InOrderBut(s, 2);
    SyncRuns.LateFailureEffect(s, 7, 2, TEN_MORE, ANY_TIME);
    SyncRuns.LateFailureInv(s, 7, 2, TEN_MORE, ANY_TIME);
  }

  /** A transition test with delta 0, and a counter that does not exist */
  const NO_SUCH_COUNTER := Attributes(Some(99), None, None, Some(PositiveTransition), Some(0), None, false)

  lemma NoSuchCounterFails(s: State)
    requires s.counters.Keys == {1} && 2 in s.alarms && s.alarms[2].trigger == AT_MAX
    ensures EarlyStatus(s.alarms[2], NO_SUCH_COUNTER) == Success
    ensures ChangeStatus(s, 2, NO_SUCH_COUNTER, ANY_TIME) == BadCounter
    ensures LateTest(s, 2, NO_SUCH_COUNTER, ANY_TIME) == INT64_MAX
  {
  }

  /**
   * A refused ChangeAlarm leaves delta 0 and a transition test type beside the check function of a comparison; when the
   * counter reaches the test value, the loop that advances the alarm does not end.
   */
  lemma RefusedAndEndless()
    ensures var s := Run(INITIAL, WAITING);
      LegalRun(INITIAL, WAITING) && Dispatched(s, 7) && 2 in s.alarms
      && ChangeStatus(s, 2, NO_SUCH_COUNTER, ANY_TIME) == BadCounter
    ensures var s := DoStep(Run(INITIAL, WAITING), DoChangeAlarm(7, 2, NO_SUCH_COUNTER, ANY_TIME));
      && Dispatched(s, 7) && 1 in s.counters && 2 in s.alarms && s.alarms[2].delta == 0
      && AlarmTrigger(2) in True(SetValue(s, 1, INT64_MAX), s.counters[1].triggers, s.counters[1].value)
      && !Returns(s.alarms[2], INT64_MAX)
  {
    hide ChangeStatus, ChangeAttributes, LateTest, Complete, Blocking, NoneDying, AlarmOk, Returns;
    var s := Run(INITIAL, WAITING);
    WaitingState();
    NoSuchCounterFails(s);
    SyncArrivals.InOrderBut(s, 2);
    SyncRuns.LateFailureEffect(s, 7, 2, NO_SUCH_COUNTER, ANY_TIME);
    SyncRuns.ChangeAttributesFailed(s, 7, 2, NO_SUCH_COUNTER, ANY_TIME);
    var s' := ChangeAttributes(s, 7, 2, NO_SUCH_COUNTER, ANY_TIME);
    assert s'.counters[1].triggers == [AlarmTrigger(2)];
    ReturnsIff(s'.alarms[2], INT64_MAX);
  }

  // ----- an Await that names one counter twice -----

  function AtLeast(value: Int64): WaitCondition {
    WaitCondition(1, Absolute, value, PositiveComparison, 0)
  }

  const TWICE := [AtLeast(5), AtLeast(6)]

  const WAITS_TWICE: seq<Step> := [DoCreateCounter(7, 1, 0), DoAwait(7, 3, TWICE, ANY_TIME)]

  lemma TwiceStart(s: State)
    requires s == CreateCounter(INITIAL, 1, 0, ClientCounter(7))
    ensures Inv(s) && s.counters == map[1 := Counter(0, [], false, ClientCounter(7))] && s.awaits == map[]
  {
    assert Inv(INITIAL);
    SyncRuns.NewCounterInv(INITIAL, 1, 0, ClientCounter(7));
  }

  /** One condition on counter 1 is accepted and put in front of the list. */
  lemma NextOnList(s: State, p: State, n: nat)
    requires n < 2 && SyncRuns.Setting(s, p, 7, 3, TWICE, n) && 1 in p.counters && p.counters[1].kind.ClientCounter?
    requires p.awaits[3].conds[n] == Blank(TWICE[n])
    ensures CondStatus(p, 3, n, TWICE[n], ANY_TIME) == Success
    ensures var p' := SetupOne(p, 3, n, TWICE[n], ANY_TIME).0;
      var aw, trig := p.awaits[3], Blank(TWICE[n]).trigger.(sync := Some(1), testValue := TWICE[n].waitValue);
      && SetupOne(p, 3, n, TWICE[n], ANY_TIME).1 == Success && SyncRuns.Setting(s, p', 7, 3, TWICE, n + 1)
      && p'.awaits[3] == aw.(armed := n + 1, conds := aw.conds[n := aw.conds[n].(trigger := trig)])
      && 1 in p'.counters && p'.counters[1].triggers == [AwaitTrigger(3, n)] + p.counters[1].triggers
      && p'.counters[1].kind == p.counters[1].kind && p'.counters[1].value == p.counters[1].value
  {
    hide SetupOne, Linked, SyncRuns.ListsBut;
    WrapInside(TWICE[n].waitValue);
    TwiceAccepted(p, n);
    SyncAwaits.WaitingOpen(s, p, 7, 3, TWICE, n);
    SyncRuns.UnarmedOnNoList(p, 3, n);
    SyncRuns.SetupOneState(p, 3, n, TWICE[n], ANY_TIME);
    SyncRuns.SetupStep(s, p, 7, 3, TWICE, n, ANY_TIME);
    SyncAwaits.SetupOneStatus(p, 3, n, TWICE[n], ANY_TIME);
  }

  lemma TwiceAccepted(p: State, n: nat)
    requires n < 2 && 3 in p.awaits && n < |p.awaits[3].conds| && p.awaits[3].conds[n] == Blank(TWICE[n]) && 1 in p.counters
    ensures CondStatus(p, 3, n, TWICE[n], ANY_TIME) == Success
  {
  }

  lemma TwiceSetUp(s: State)
    requires s == CreateCounter(INITIAL, 1, 0, ClientCounter(7))
    ensures var r := Setup(Prologue(s, 7, 3, TWICE), 3, TWICE, 2, ANY_TIME);
      && r.1 == Success && SyncRuns.Setting(s, r.0, 7, 3, TWICE, 2)
      && 1 in r.0.counters && r.0.counters[1].triggers == [AwaitTrigger(3, 1), AwaitTrigger(3, 0)]
      && r.0.counters[1].value == 0
      && r.0.awaits[3].conds[0].trigger == Blank(TWICE[0]).trigger.(sync := Some(1), testValue := 5)
      && r.0.awaits[3].conds[1].trigger == Blank(TWICE[1]).trigger.(sync := Some(1), testValue := 6)
  {
    hide SetupOne, SyncRuns.ListsBut, Linked, Complete, Blocking, SyncRuns.Setting, CondStatus;
    TwiceStart(s);
    var p := Prologue(s, 7, 3, TWICE);
    SyncRuns.PrologueSetting(s, 7, 3, TWICE);
    NextOnList(s, p, 0);
    var p1 := SetupOne(p, 3, 0, TWICE[0], ANY_TIME).0;
    NextOnList(s, p1, 1);
    assert Setup(p, 3, TWICE, 0, ANY_TIME) == (p, Success);
    assert Setup(p, 3, TWICE, 1, ANY_TIME) == SetupNext(Setup(p, 3, TWICE, 0, ANY_TIME), 3, 0, TWICE[0], ANY_TIME);
    assert Setup(p, 3, TWICE, 2, ANY_TIME) == SetupNext(Setup(p, 3, TWICE, 1, ANY_TIME), 3, 1, TWICE[1], ANY_TIME);
  }

  lemma NoneTrueYet(s: State)
    requires 3 in s.awaits && |s.awaits[3].conds| == 2 && ValueOf(s, 1) == 0
    requires s.awaits[3].conds[0].trigger == Blank(TWICE[0]).trigger.(sync := Some(1), testValue := 5)
    requires s.awaits[3].conds[1].trigger == Blank(TWICE[1]).trigger.(sync := Some(1), testValue := 6)
    ensures FirstTrue(s, 3, 0) == 2
  {
    assert FirstTrue(s, 3, 2) == 2;
    assert FirstTrue(s, 3, 1) == 2;
  }

  lemma TwiceBlocked()
    ensures var s := CreateCounter(INITIAL, 1, 0, ClientCounter(7));
      && Run(INITIAL, WAITS_TWICE) == Ignore(Setup(Prologue(s, 7, 3, TWICE), 3, TWICE, 2, ANY_TIME).0, 7)
      && AwaitStatus(s, 7, 3, TWICE, ANY_TIME) == Success
  {
    hide Setup, FirstTrue, Prologue, SyncRuns.ListsBut, Linked;
    var s := CreateCounter(INITIAL, 1, 0, ClientCounter(7));
    TwiceSetUp(s);
    RunTwo(INITIAL, WAITS_TWICE[0], WAITS_TWICE[1]);
    NoneTrueYet(Ignore(Setup(Prologue(s, 7, 3, TWICE), 3, TWICE, 2, ANY_TIME).0, 7));
  }

  lemma BothTrue(s: State)
    requires 3 in s.awaits && |s.awaits[3].conds| == 2 && ValueOf(s, 1) == 10
    requires s.awaits[3].conds[0].trigger == Blank(TWICE[0]).trigger.(sync := Some(1), testValue := 5)
    requires s.awaits[3].conds[1].trigger == Blank(TWICE[1]).trigger.(sync := Some(1), testValue := 6)
    ensures True(s, [AwaitTrigger(3, 1), AwaitTrigger(3, 0)], 0) == [AwaitTrigger(3, 1), AwaitTrigger(3, 0)]
  {
    var t, u := AwaitTrigger(3, 1), AwaitTrigger(3, 0);
    assert [t, u][..1] == [t];
    assert [t][..0] == [];
    assert True(s, [t], 0) == [t];
  }

  /**
   * A client waits twice on one counter and another sets the counter past both values: both nodes of the list are due to
   * fire, and firing the first one frees the second, which the walk has saved as the next.
   */
  lemma SavedNextIsGone()
    ensures var s := Run(INITIAL, WAITS_TWICE);
      var first, next := AwaitTrigger(3, 1), AwaitTrigger(3, 0);
      && Dispatched(s, 8) && 1 in s.counters && s.counters[1].triggers == [first, next]
      && var s1 := SetValue(s, 1, 10);
      && True(s1, s1.counters[1].triggers, s.counters[1].value) == [first, next]
      && var s2 := Fire(s1, first);
      && 1 in s2.counters && next !in s2.counters[1].triggers && 3 !in s2.awaits
  {
    hide Setup, Prologue, SyncRuns.ListsBut, Linked, Fire, Complete, Blocking, AlarmsOk;
    var s0 := CreateCounter(INITIAL, 1, 0, ClientCounter(7));
    TwiceStart(s0);
    TwiceBlocked();
    TwiceSetUp(s0);
    var p := Setup(Prologue(s0, 7, 3, TWICE), 3, TWICE, 2, ANY_TIME).0;
    var s := Ignore(p, 7);
    LinkedFrame(p, s);
    var s1 := SetValue(s, 1, 10);
    SameLinksLinked(s, s1);
    BothTrue(s1);
    SavedNextIsSafe(s1, 1, 0);
    FireEffect(s1, AwaitTrigger(3, 1));
  }

  lemma CondemnedLinked(s: State, c: Xid)
    requires Linked(s) && c in s.counters
    ensures Linked(SyncDestroy.Condemned(s, c))
  {
    var d := SyncDestroy.Condemned(s, c);
    assert forall t | Armed(d, t) :: Armed(s, t) && Trig(d, t) == Trig(s, t);
    assert forall t | Armed(s, t) :: Armed(d, t);
    forall x, t | x in d.counters && t in d.counters[x].triggers
      ensures Armed(d, t) && Trig(d, t).sync == Some(x)
    {
      assert t in s.counters[x].triggers;
    }
  }

  /**
   * The same client, and another that destroys the counter: telling the first node's trigger frees the await, the second
   * node stays on the list of the dying counter, and the walk goes on to tell a trigger that is no longer there.
   */
  lemma ToldWhenGone()
    ensures var s := Run(INITIAL, WAITS_TWICE);
      var first, next := AwaitTrigger(3, 1), AwaitTrigger(3, 0);
      && Dispatched(s, 8) && 1 in s.counters && s.counters[1].triggers == [first, next]
      && var d := SyncDestroy.Condemned(s, 1);
      var s1 := NotifyDestroyed(d, first);
      1 in s1.counters && s1.counters[1].triggers == [first, next] && !Has(s1, next)
  {
    hide Setup, Prologue, SyncRuns.ListsBut, Linked, FireAwait, Complete, Blocking, AlarmsOk, Prune;
    var s0 := CreateCounter(INITIAL, 1, 0, ClientCounter(7));
    TwiceStart(s0);
    TwiceBlocked();
    TwiceSetUp(s0);
    var p := Setup(Prologue(s0, 7, 3, TWICE), 3, TWICE, 2, ANY_TIME).0;
    var s := Ignore(p, 7);
    LinkedFrame(p, s);
    var d := SyncDestroy.Condemned(s, 1);
    CondemnedLinked(s, 1);
    FireAwaitEffect(d, 3);
    assert Relisted(d.counters[1], FireAwait(d, 3).counters[1], Pruned(d.counters[1], 3, d.awaits[3].armed));
  }
}
