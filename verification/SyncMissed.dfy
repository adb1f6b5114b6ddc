/**
 * What the bracket shortcut misses, exactly: in any state that keeps the invariant, whatever its brackets were computed
 * from, some sequence of idle times tells checking inside the brackets from not checking if and only if some pending
 * trigger can fire between two of them.
 */
module SyncMissed {
  import opened Options
  import opened Wire
  import opened SyncTypes
  import opened SyncBrackets
  import opened SyncModel
  import opened SyncRequests
  import opened SyncLinks
  import opened SyncInvariants
  import SyncAlarms
  import SyncDestroy
  import opened SyncIdle

  // ----- triggers that can fire unseen -----

  /** The smallest idle time inside the brackets, */
  function Lo(b: Brackets): int {
    if b.less.Some? && b.less.value >= 0 then b.less.value + 1 else 0
  }

  /** and the largest. There is none at all if this is below the other. */
  function Hi(b: Brackets): int {
    if b.greater.Some? && b.greater.value < 0x1_0000_0000 then b.greater.value - 1 else 0xFFFF_FFFF
  }

  lemma QuietBetween(b: Brackets, v: Int64)
    ensures Lo(b) <= v <= Hi(b) <==> 0 <= v < 0x1_0000_0000 && Quiet(b, v)
  {
  }

  /** With the counter at u, some idle times inside the brackets make the trigger TRUE. */
  predicate Unseen(trig: Trigger, b: Brackets, u: Int64) {
    Lo(b) <= Hi(b) &&
    match trig.testType
    case PositiveComparison => trig.testValue <= Hi(b)
    case NegativeComparison => trig.testValue >= Lo(b)
    case PositiveTransition => trig.testValue <= Hi(b) && (u < trig.testValue || Lo(b) < trig.testValue)
    case NegativeTransition => trig.testValue >= Lo(b) && (u > trig.testValue || Hi(b) > trig.testValue)
    case OtherTest(_) => false
  }

  /** A step from p, which is u or an idle time inside the brackets, to the idle time v inside them makes it TRUE. */
  predicate Skipped(trig: Trigger, b: Brackets, u: Int64, p: Int64, v: Int64) {
    && (p == u || (0 <= p < 0x1_0000_0000 && Quiet(b, p)))
    && 0 <= v < 0x1_0000_0000 && Quiet(b, v)
    && CheckValue(trig.testType, v, p, trig.testValue)
  }

  lemma UnseenStep(trig: Trigger, b: Brackets, u: Int64) returns (p: Int64, v: Int64)
    requires Unseen(trig, b, u)
    ensures Skipped(trig, b, u, p, v)
  {
    var lo: Int64, hi: Int64 := Lo(b), Hi(b);
    QuietBetween(b, lo);
    QuietBetween(b, hi);
    p, v := u, if trig.testType.Positive() then hi else lo;
    if trig.testType == PositiveTransition && u >= trig.testValue {
      p := lo;
    } else if trig.testType == NegativeTransition && u <= trig.testValue {
      p := hi;
    }
  }

  lemma SeenStep(trig: Trigger, b: Brackets, u: Int64, p: Int64, v: Int64)
    requires Skipped(trig, b, u, p, v)
    ensures Unseen(trig, b, u)
  {
    QuietBetween(b, p);
    QuietBetween(b, v);
  }

  /** The condition on test value, brackets and value, and what it means. */
  lemma UnseenIff(trig: Trigger, b: Brackets, u: Int64)
    ensures Unseen(trig, b, u) <==> exists p: Int64, v: Int64 :: Skipped(trig, b, u, p, v)
  {
    if Unseen(trig, b, u) {
      var p, v := UnseenStep(trig, b, u);
    }
    if p: Int64, v: Int64 :| Skipped(trig, b, u, p, v) {
      SeenStep(trig, b, u, p, v);
    }
  }

  /** A step inside the brackets leaves no trigger unseen that was not so before. */
  lemma LessUnseen(trig: Trigger, b: Brackets, u: Int64, v: Int64)
    requires Unseen(trig, b, v) && 0 <= v < 0x1_0000_0000 && Quiet(b, v)
    ensures Unseen(trig, b, u)
  {
    QuietBetween(b, v);
  }

  /** No pending trigger of the counter can fire unseen, if the shortcut goes by brackets b. */
  ghost predicate NoneUnseen(s: State, c: Xid, b: Brackets) {
    c in s.counters &&
    forall t | t in s.counters[c].triggers && Has(s, t) && Pending(s, t) :: !Unseen(Trig(s, t), b, s.counters[c].value)
  }

  /** Brackets computed for a trigger that is not a TRUE comparison see it. */
  lemma ComputedSee(v: Int64, ts: seq<Trigger>, trig: Trigger)
    requires trig in ts && !ComparisonTrue(v, trig)
    ensures !Unseen(trig, NarrowAll(Unrestricted, v, ts), v)
  {
    hide NarrowAll, Unseen;
    var b := NarrowAll(Unrestricted, v, ts);
    if Unseen(trig, b, v) {
      var p, x := UnseenStep(trig, b, v);
      if !Blind(v, b, trig) {
        QuietStep(v, ts, trig, p, x);
      }
      assert false;
    }
  }

  lemma FreshSees(s: State, c: Xid)
    requires Fresh(s, c) && Quiescent(s, c, s.counters[c].value)
    ensures NoneUnseen(s, c, BracketsOf(s, c))
  {
    hide NarrowAll, Unseen;
    forall t | t in s.counters[c].triggers && Has(s, t) && Pending(s, t)
      ensures !Unseen(Trig(s, t), BracketsOf(s, c), s.counters[c].value)
    {
      ComputedSee(s.counters[c].value, Triggers(s, s.counters[c].triggers), Trig(s, t));
    }
  }

  // ----- what a reading inside the brackets would have done -----

  /** A pending trigger of the counter is TRUE when it goes to v. */
  ghost predicate FiresAt(s: State, c: Xid, v: Int64, t: TriggerId)
    requires c in s.counters
  {
    t in s.counters[c].triggers && Has(s, t) && Pending(s, t)
    && CheckValue(Trig(s, t).testType, v, s.counters[c].value, Trig(s, t).testValue)
  }

  lemma FiresIff(s: State, c: Xid, v: Int64, t: TriggerId)
    requires Inv(s) && c in s.counters && t in s.counters[c].triggers && Has(s, t) && Pending(s, t)
    ensures t in True(SetValue(s, c, v), s.counters[c].triggers, s.counters[c].value) <==> FiresAt(s, c, v, t)
  {
    assert Armed(s, t) && Trig(s, t).sync == Some(c);
    CheckIsTest(s, t);
  }

  /** A full check that fires no pending trigger comes to storing the value and computing the brackets anew. */
  lemma NothingFires(s: State, c: Xid, v: Int64)
    requires Inv(s) && c in s.counters && forall t :: !FiresAt(s, c, v, t)
    ensures SyncModel.ChangeCounter(s, c, v) == Refresh(SetValue(s, c, v), c)
  {
    hide FiresAt, Complete, Blocking, AlarmsOk, Triggers;
    var list := s.counters[c].triggers;
    var s1 := SetValue(s, c, v);
    var ts := True(s1, list, s.counters[c].value);
    forall t | t in ts
      ensures t.AlarmTrigger? && !Pending(s1, t)
    {
      assert t in list && Armed(s, t);
      if Pending(s, t) {
        FiresIff(s, c, v, t);
      }
    }
    IdleFireAll(s1, ts);
  }

  lemma QuietChange(s: State, c: Xid, b: Brackets, v: Int64)
    requires Inv(s) && NoneUnseen(s, c, b) && 0 <= v < 0x1_0000_0000 && Quiet(b, v)
    ensures SyncModel.ChangeCounter(s, c, v) == Refresh(SetValue(s, c, v), c)
  {
    hide Inv, Unseen, Quiet;
    forall t
      ensures !FiresAt(s, c, v, t)
    {
      if FiresAt(s, c, v, t) {
        assert Skipped(Trig(s, t), b, s.counters[c].value, s.counters[c].value, v);
        SeenStep(Trig(s, t), b, s.counters[c].value, s.counters[c].value, v);
      }
    }
    NothingFires(s, c, v);
  }

  // ----- nothing unseen, nothing missed -----

  ghost predicate SameOutcome(f: State, l: State) {
    f.log == l.log && f.alarms == l.alarms && f.awaits == l.awaits && f.ignore == l.ignore
  }

  /** However the readings go on, checking at every one of them does nothing that the shortcut does not do. */
  ghost predicate MissesNothing(s: State, c: Xid) {
    forall readings: seq<Reading> :: SameOutcome(FastRun(s, c, readings), SlowRun(s, c, readings))
  }

  /** The fast state and the slow one, between readings */
  ghost predicate Simulates(f: State, l: State, c: Xid) {
    && SameButCounter(f, l, c) && Inv(l) && NoneUnseen(l, c, BracketsOf(f, c))
    && (BracketsOf(f, c) != NO_BRACKETS ==> f.counters[c].value == l.counters[c].value)
  }

  lemma QuietKeepsSeen(l: State, c: Xid, b: Brackets, v: Int64)
    requires NoneUnseen(l, c, b) && 0 <= v < 0x1_0000_0000 && Quiet(b, v)
    ensures NoneUnseen(Refresh(SetValue(l, c, v), c), c, b)
  {
    hide Unseen, NarrowAll, Triggers, Quiet;
    var l' := Refresh(SetValue(l, c, v), c);
    RefreshFrame(SetValue(l, c, v), c);
    forall t | t in l'.counters[c].triggers && Has(l', t) && Pending(l', t)
      ensures !Unseen(Trig(l', t), b, l'.counters[c].value)
    {
      assert t in l.counters[c].triggers && Has(l, t) && Pending(l, t) && Trig(l', t) == Trig(l, t);
      if Unseen(Trig(l, t), b, v) {
        LessUnseen(Trig(l, t), b, l.counters[c].value, v);
      }
    }
  }

  lemma QuietSimulates(f: State, l: State, c: Xid, v: Card32)
    requires Simulates(f, l, c) && Quiet(BracketsOf(f, c), v)
    ensures Simulates(SetValue(f, c, v), CheckAlways(l, c, v), c)
    ensures BracketsOf(f, c) == NO_BRACKETS ==> Simulates(f, CheckAlways(l, c, v), c)
  {
    hide Inv, NoneUnseen, NarrowAll, Triggers, Quiet, SyncModel.ChangeCounter;
    QuietChange(l, c, BracketsOf(f, c), v);
    QuietKeepsSeen(l, c, BracketsOf(f, c), v);
    ChangeCounterInv(l, c, v);
    QuietSame(f, l, c, v);
    RefreshFrame(SetValue(l, c, v), c);
  }

  lemma LoudSimulates(f: State, l: State, c: Xid, v: Card32)
    requires Simulates(f, l, c) && !Quiet(BracketsOf(f, c), v)
    ensures CheckBrackets(f, c, v) == CheckAlways(l, c, v)
    ensures Simulates(CheckBrackets(f, c, v), CheckAlways(l, c, v), c)
  {
    hide NarrowAll, Triggers, NoneUnseen, SyncModel.ChangeCounter, Linked, Complete, Blocking, AlarmsOk, NoneDying;
    assert SameButBrackets(l, f, c);
    ChangeCounterSame(l, f, c, v);
    ChangeCounterInv(l, c, v);
    QuiescentAfter(l, c, v);
    FreshAfter(l, c, v);
    FreshSees(SyncModel.ChangeCounter(l, c, v), c);
    var l' := SyncModel.ChangeCounter(l, c, v);
    assert l'.counters == l'.counters[c := l'.counters[c]];
  }

  lemma CheckSimulates(f: State, l: State, c: Xid, v: Card32)
    requires Simulates(f, l, c)
    ensures Simulates(CheckBrackets(f, c, v), CheckAlways(l, c, v), c)
  {
    hide NoneUnseen, CheckAlways, Quiet, Inv;
    if Quiet(BracketsOf(f, c), v) {
      QuietSimulates(f, l, c, v);
    } else {
      LoudSimulates(f, l, c, v);
    }
  }

  /** One wakeup, with or without the idle time having been reset */
  lemma WakeupSimulates(f: State, l: State, c: Xid, idle: Card32, reset: bool)
    requires Simulates(f, l, c)
    ensures Simulates(IdleWakeup(f, c, idle, reset), SlowWakeup(l, c, idle, reset), c)
  {
    hide CheckAlways, CheckBrackets, Inv, NoneUnseen;
    if BracketsOf(f, c) == NO_BRACKETS {
      var l1 := l;
      if reset && idle != 0 {
        QuietSimulates(f, l, c, 0);
        l1 := CheckAlways(l, c, 0);
      }
      QuietSimulates(f, l1, c, idle);
    } else if reset && idle != 0 {
      CheckSimulates(f, l, c, 0);
      CheckSimulates(CheckBrackets(f, c, 0), CheckAlways(l, c, 0), c, idle);
    } else {
      CheckSimulates(f, l, c, idle);
    }
  }

  lemma {:induction false} FastSimulatesSlow(f: State, l: State, c: Xid, readings: seq<Reading>)
    requires Simulates(f, l, c)
    ensures Simulates(FastRun(f, c, readings), SlowRun(l, c, readings), c)
    decreases |readings|
  {
    hide IdleWakeup, SlowWakeup, Simulates;
    if readings != [] {
      var r := readings[0];
      WakeupSimulates(f, l, c, r.idle, r.reset);
      FastSimulatesSlow(IdleWakeup(f, c, r.idle, r.reset), SlowWakeup(l, c, r.idle, r.reset), c, readings[1..]);
    }
  }

  // ----- something unseen, something missed -----

  lemma {:induction false} FireAllLogs(s: State, ts: seq<TriggerId>)
    requires Linked(s) && NoneDying(s)
    ensures |s.log| <= |FireAll(s, ts).log|
    ensures forall a | AlarmTrigger(a) in ts && a in s.alarms && s.alarms[a].state == Active && Agrees(s.alarms[a]) ::
              |s.log| < |FireAll(s, ts).log|
  {
    hide Fire, Linked, NoneDying;
    if ts != [] {
      var n := |ts| - 1;
      FireAllLogs(s, ts[..n]);
      FireAllEffect(s, ts[..n]);
      var p := FireAll(s, ts[..n]);
      FireLogs(p, ts[n]);
      assert forall t | t in ts :: t in ts[..n] || t == ts[n];
    }
  }

  lemma FireLogs(s: State, t: TriggerId)
    requires Linked(s) && NoneDying(s)
    ensures |s.log| <= |Fire(s, t).log|
    ensures t.AlarmTrigger? && t.alarm in s.alarms && s.alarms[t.alarm].state == Active && Agrees(s.alarms[t.alarm]) ==>
              |s.log| < |Fire(s, t).log|
  {
    hide FireAwait, Advance, CounterEvents, EventConds;
    match t
    case AlarmTrigger(a) =>
      if a in s.alarms && s.alarms[a].state == Active && Agrees(s.alarms[a]) {
        SyncAlarms.AlarmGoesOff(s, a);
      }
    case AwaitTrigger(w, _) =>
      if w in s.awaits {
        SyncDestroy.TellLog(s, w);
      }
  }

  /** A check that fires a pending trigger sends an event or unblocks a client. */
  lemma FiringShows(s: State, c: Xid, v: Int64, t: TriggerId)
    requires Inv(s) && c in s.counters && FiresAt(s, c, v, t)
    ensures !SameOutcome(s, SyncModel.ChangeCounter(s, c, v))
  {
    hide Linked, Complete, Blocking, NoneDying, Triggers, True, Refresh;
    var s1 := SetValue(s, c, v);
    var ts := True(s1, s.counters[c].triggers, s.counters[c].value);
    FiresIff(s, c, v, t);
    SameLinksLinked(s, s1);
    FireAllLogs(s1, ts);
    FireAllEffect(s1, ts);
    RefreshFrame(FireAll(s1, ts), c);
    if t.AlarmTrigger? {
      assert AlarmOk(s, t.alarm);
    }
  }

  /** One reading inside the brackets, without a reset: the shortcut at most stores it. */
  lemma FastQuiet(s: State, c: Xid, v: Card32)
    requires IsSystem(s, c) && Quiet(BracketsOf(s, c), v)
    ensures var s' := IdleWakeup(s, c, v, false);
      IsSystem(s', c) && SameOutcome(s', s) && BracketsOf(s', c) == BracketsOf(s, c)
  {
  }

  lemma OneReading(s: State, c: Xid, v: Card32)
    requires c in s.counters
    ensures var readings := [Reading(v, false)];
      && FastRun(s, c, readings) == IdleWakeup(s, c, v, false)
      && SlowRun(s, c, readings) == SyncModel.ChangeCounter(s, c, v)
  {
    hide IdleWakeup, SyncModel.ChangeCounter;
    var readings := [Reading(v, false)];
    assert readings[1..] == [];
  }

  lemma TwoReadings(s: State, c: Xid, p: Card32, v: Card32)
    requires c in s.counters && c in SyncModel.ChangeCounter(s, c, p).counters
    ensures var readings := [Reading(p, false), Reading(v, false)];
      && FastRun(s, c, readings) == IdleWakeup(IdleWakeup(s, c, p, false), c, v, false)
      && SlowRun(s, c, readings) == SyncModel.ChangeCounter(SyncModel.ChangeCounter(s, c, p), c, v)
  {
    hide IdleWakeup, SyncModel.ChangeCounter;
    var readings := [Reading(p, false), Reading(v, false)];
    assert readings[1..] == [Reading(v, false)];
    OneReading(SyncModel.ChangeCounter(s, c, p), c, v);
    var s1 := IdleWakeup(s, c, p, false);
    assert FastRun(s, c, readings) == FastRun(s1, c, [Reading(v, false)]);
    assert [Reading(v, false)][1..] == [];
    assert FastRun(s1, c, [Reading(v, false)]) == FastRun(IdleWakeup(s1, c, v, false), c, []);
  }

  lemma MissedAtOnce(s: State, c: Xid, v: Card32, t: TriggerId)
    requires Inv(s) && IsSystem(s, c) && Quiet(BracketsOf(s, c), v) && FiresAt(s, c, v, t)
    ensures !MissesNothing(s, c)
  {
    hide Inv, IdleWakeup, SyncModel.ChangeCounter, FiresAt, FastRun, SlowRun;
    OneReading(s, c, v);
    FastQuiet(s, c, v);
    FiringShows(s, c, v, t);
    assert !SameOutcome(FastRun(s, c, [Reading(v, false)]), SlowRun(s, c, [Reading(v, false)]));
  }

  lemma MissedLater(s: State, c: Xid, p: Card32, v: Card32, t: TriggerId)
    requires Inv(s) && IsSystem(s, c) && Quiet(BracketsOf(s, c), p) && Quiet(BracketsOf(s, c), v)
    requires t in s.counters[c].triggers && Has(s, t) && Pending(s, t)
    requires CheckValue(Trig(s, t).testType, v, p, Trig(s, t).testValue)
    ensures !MissesNothing(s, c)
  {
    hide Inv, IdleWakeup, SyncModel.ChangeCounter, FastRun, SlowRun, Quiet, NarrowAll, Triggers;
    if u :| FiresAt(s, c, p, u) {
      MissedAtOnce(s, c, p, u);
    } else {
      NothingFires(s, c, p);
      var s1 := SetValue(s, c, p);
      RefreshFrame(s1, c);
      ChangeCounterInv(s, c, p);
      var s2 := SyncModel.ChangeCounter(s, c, p);
      FiringShows(s2, c, v, t);
      TwoReadings(s, c, p, v);
      FastQuiet(s, c, p);
      FastQuiet(IdleWakeup(s, c, p, false), c, v);
      var readings := [Reading(p, false), Reading(v, false)];
      assert !SameOutcome(FastRun(s, c, readings), SlowRun(s, c, readings));
    }
  }

  lemma UnseenIsMissed(s: State, c: Xid, t: TriggerId)
    requires Inv(s) && IsSystem(s, c) && t in s.counters[c].triggers && Has(s, t) && Pending(s, t)
    requires Unseen(Trig(s, t), BracketsOf(s, c), s.counters[c].value)
    ensures !MissesNothing(s, c)
  {
    hide Inv, Unseen, MissesNothing, Quiet;
    var p, v := UnseenStep(Trig(s, t), BracketsOf(s, c), s.counters[c].value);
    var reading: Card32 := v;
    if p == s.counters[c].value {
      MissedAtOnce(s, c, reading, t);
    } else {
      var first: Card32 := p;
      MissedLater(s, c, first, reading, t);
    }
  }

  /**
   * The bracket shortcut of an unrestricted counter, exactly: for every sequence of idle times, with resets or without,
   * it produces the events, alarms, awaits and unblocked clients that calling SyncChangeCounter at every reading would
   * have produced, if and only if no pending trigger can fire unseen by the brackets the counter has.
   */
  lemma MissesNothingIff(s: State, c: Xid)
    requires Inv(s) && IsSystem(s, c) && s.counters[c].kind.ct == Unrestricted
    ensures MissesNothing(s, c) <==> NoneUnseen(s, c, BracketsOf(s, c))
  {
    hide Inv, Unseen, FastRun, SlowRun;
    if NoneUnseen(s, c, BracketsOf(s, c)) {
      assert s.counters == s.counters[c := s.counters[c]];
      assert Simulates(s, s, c);
      forall readings: seq<Reading>
        ensures SameOutcome(FastRun(s, c, readings), SlowRun(s, c, readings))
      {
        FastSimulatesSlow(s, s, c, readings);
      }
    } else {
      var t :| t in s.counters[c].triggers && Has(s, t) && Pending(s, t)
        && Unseen(Trig(s, t), BracketsOf(s, c), s.counters[c].value);
      UnseenIsMissed(s, c, t);
    }
  }
}
