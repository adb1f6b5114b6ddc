/**
 * The bracket shortcut of IDLETIME. IdleTimeWakeupHandler only checks the triggers when a reading leaves
 * the brackets; here is what a walk over the list leaves, and the two ways to run. SyncMissed compares them.
 */
module SyncIdle {
  import opened Options
  import opened Wire
  import opened SyncTypes
  import opened SyncBrackets
  import opened SyncModel
  import opened SyncRequests
  import opened SyncLinks
  import opened SyncInvariants

  // ----- the brackets of one counter do not matter to what fires -----

  /** Equal states, but for the brackets of system counter c. */
  ghost predicate SameButBrackets(f: State, l: State, c: Xid) {
    && IsSystem(f, c) && IsSystem(l, c)
    && f == l.(counters := l.counters[c := f.counters[c]])
    && f.counters[c] == l.counters[c].(kind := f.counters[c].kind)
    && f.counters[c].kind.ct == l.counters[c].kind.ct
  }

  lemma {:induction false} SameTriggers(s: State, s': State, list: seq<TriggerId>)
    requires s'.alarms == s.alarms && s'.awaits == s.awaits
    ensures Triggers(s', list) == Triggers(s, list)
  {
    if list != [] {
      SameTriggers(s, s', list[..|list| - 1]);
    }
  }

  lemma RefreshSame(f: State, l: State, c: Xid, d: Xid)
    requires SameButBrackets(f, l, c)
    ensures SameButBrackets(Refresh(f, d), Refresh(l, d), c)
    ensures c == d && f.counters[c].kind.ct != NeverChanges ==> Refresh(f, d) == Refresh(l, d)
  {
    if d in f.counters {
      SameTriggers(f, l, f.counters[d].triggers);
    }
  }

  lemma DeleteSame(f: State, l: State, c: Xid, t: TriggerId)
    requires SameButBrackets(f, l, c)
    ensures SameButBrackets(DeleteTrigger(f, t), DeleteTrigger(l, t), c)
  {
    if Has(f, t) && Trig(f, t).sync.Some? && Trig(f, t).sync.value in f.counters {
      var d := Trig(f, t).sync.value;
      var list := Without(f.counters[d].triggers, t);
      RefreshSame(SetList(f, d, list), SetList(l, d, list), c, d);
    }
  }

  lemma {:induction false} UnlinkSame(f: State, l: State, c: Xid, w: Xid, n: nat)
    requires SameButBrackets(f, l, c)
    ensures SameButBrackets(Unlink(f, w, n), Unlink(l, w, n), c)
  {
    if n > 0 {
      UnlinkSame(f, l, c, w, n - 1);
      DeleteSame(Unlink(f, w, n - 1), Unlink(l, w, n - 1), c, AwaitTrigger(w, n - 1));
    }
  }

  lemma {:induction false} EventCondsSame(f: State, l: State, c: Xid, conds: seq<Condition>)
    requires SameButBrackets(f, l, c)
    ensures EventConds(f, conds) == EventConds(l, conds)
  {
    if conds != [] {
      EventCondsSame(f, l, c, conds[..|conds| - 1]);
    }
  }

  lemma CounterEventsSame(f: State, l: State, c: Xid, client: Client, conds: seq<Condition>)
    requires SameButBrackets(f, l, c)
    ensures CounterEvents(f, client, conds) == CounterEvents(l, client, conds)
  {
  }

  lemma FireAwaitSame(f: State, l: State, c: Xid, w: Xid)
    requires SameButBrackets(f, l, c) && w in f.awaits && f.awaits[w].armed <= |f.awaits[w].conds|
    ensures SameButBrackets(FireAwait(f, w), FireAwait(l, w), c)
  {
    var aw := f.awaits[w];
    var conds := EventConds(f, aw.conds[..aw.armed]);
    EventCondsSame(f, l, c, aw.conds[..aw.armed]);
    CounterEventsSame(f, l, c, aw.client, conds);
    var events := if aw.client in f.gone then [] else CounterEvents(f, aw.client, conds);
    var f1 := Unignore(f.(log := f.log + events), aw.client);
    var l1 := Unignore(l.(log := l.log + events), aw.client);
    FreeAwaitSame(f1, l1, c, w);
  }

  lemma FreeAwaitSame(f: State, l: State, c: Xid, w: Xid)
    requires SameButBrackets(f, l, c) && w in f.awaits
    ensures SameButBrackets(FreeAwait(f, w), FreeAwait(l, w), c)
  {
    UnlinkSame(f, l, c, w, f.awaits[w].armed);
  }

  lemma FireSame(f: State, l: State, c: Xid, t: TriggerId)
    requires SameButBrackets(f, l, c)
    ensures SameButBrackets(Fire(f, t), Fire(l, t), c)
  {
    match t
    case AlarmTrigger(a) => if a in f.alarms { FireAlarmSame(f, l, c, a); }
    case AwaitTrigger(w, _) => if w in f.awaits && f.awaits[w].armed <= |f.awaits[w].conds| { FireAwaitSame(f, l, c, w); }
  }

  lemma FireAlarmSame(f: State, l: State, c: Xid, a: Xid)
    requires SameButBrackets(f, l, c) && a in f.alarms
    ensures SameButBrackets(FireAlarm(f, a), FireAlarm(l, a), c)
  {
    hide Advance;
  }

  lemma {:induction false} FireAllSame(f: State, l: State, c: Xid, ts: seq<TriggerId>)
    requires SameButBrackets(f, l, c)
    ensures SameButBrackets(FireAll(f, ts), FireAll(l, ts), c)
  {
    if ts != [] {
      FireAllSame(f, l, c, ts[..|ts| - 1]);
      FireSame(FireAll(f, ts[..|ts| - 1]), FireAll(l, ts[..|ts| - 1]), c, ts[|ts| - 1]);
    }
  }

  lemma {:induction false} TrueSame(f: State, l: State, c: Xid, list: seq<TriggerId>, was: Int64)
    requires SameButBrackets(f, l, c)
    ensures True(f, list, was) == True(l, list, was)
  {
    if list != [] {
      TrueSame(f, l, c, list[..|list| - 1], was);
    }
  }

  lemma ChangeCounterSame(f: State, l: State, c: Xid, v: Int64)
    requires SameButBrackets(f, l, c) && f.counters[c].kind.ct != NeverChanges && Linked(f) && NoneDying(f)
    ensures SyncModel.ChangeCounter(f, c, v) == SyncModel.ChangeCounter(l, c, v)
  {
    var f1, l1 := SetValue(f, c, v), SetValue(l, c, v);
    var list, was := f.counters[c].triggers, f.counters[c].value;
    TrueSame(f1, l1, c, list, was);
    var ts := True(f1, list, was);
    FireAllSame(f1, l1, c, ts);
    SameLinksLinked(f, f1);
    FireAllEffect(f1, ts);
    assert Relisted(f1.counters[c], FireAll(f1, ts).counters[c], FireAll(f1, ts).counters[c].triggers);
    RefreshSame(FireAll(f1, ts), FireAll(l1, ts), c, c);
  }

  // ----- what is waited for -----

  /** No trigger that would do anything is a true comparison at v. */
  ghost predicate Quiescent(s: State, c: Xid, v: Int64) {
    c in s.counters &&
    forall t | t in s.counters[c].triggers && Has(s, t) && Pending(s, t) :: !ComparisonTrue(v, Trig(s, t))
  }

  function Computed(s: State, c: Xid, v: Int64): Brackets
    requires c in s.counters
  {
    NarrowAll(Unrestricted, v, Triggers(s, s.counters[c].triggers))
  }

  /** The check function of a trigger that matters is the one of its test type. */
  lemma CheckIsTest(s: State, t: TriggerId)
    requires Inv(s) && Has(s, t) && Pending(s, t)
    ensures Trig(s, t).check == Trig(s, t).testType
  {
    match t
    case AlarmTrigger(a) => assert AlarmOk(s, a);
    case AwaitTrigger(w, i) => assert AwaitComplete(s.awaits[w]);
  }

  lemma {:induction false} IdleFireAll(s: State, ts: seq<TriggerId>)
    requires forall t | t in ts :: t.AlarmTrigger? && !Pending(s, t)
    ensures FireAll(s, ts) == s
  {
    if ts != [] {
      IdleFireAll(s, ts[..|ts| - 1]);
    }
  }

  /** What is waited for has not changed. */
  lemma SameWaiting(s: State, s': State, c: Xid, base: Int64)
    requires c in s.counters && c in s'.counters && s'.counters[c].triggers == s.counters[c].triggers
    requires s'.alarms == s.alarms && s'.awaits == s.awaits
    ensures Computed(s', c, base) == Computed(s, c, base)
    ensures Quiescent(s, c, base) ==> Quiescent(s', c, base)
  {
    SameTriggers(s, s', s.counters[c].triggers);
  }

  // ----- after a walk the counter is quiescent again -----

  lemma AlarmQuiescentAfter(s: State, c: Xid, list: seq<TriggerId>, was: Int64, a: Xid)
    requires Linked(s) && NoneDying(s) && c in s.counters && s.counters[c].triggers == list
    requires AlarmTrigger(a) in list && a in s.alarms && Checks(s.alarms[a].trigger)
    ensures var s' := FireAll(s, True(s, list, was));
      a in s'.alarms && (s'.alarms[a].state == Active ==> !ComparisonTrue(s.counters[c].value, s'.alarms[a].trigger))
  {
    var t := AlarmTrigger(a);
    var ts := True(s, list, was);
    FireAllEffect(s, ts);
    assert Armed(s, t) && Trig(s, t).sync == Some(c);
    assert SameAlarm(s.alarms[a], FireAll(s, ts).alarms[a]);
    assert Relisted(s.counters[c], FireAll(s, ts).counters[c], FireAll(s, ts).counters[c].triggers);
    if t in ts {
      FiredAlarmsAreFalse(s, ts, a);
    }
  }

  lemma AwaitQuiescentAfter(s: State, s': State, c: Xid, was: Int64, t: TriggerId)
    requires Linked(s) && Linked(s') && Fired(s, s') && Complete(s) && c in s.counters
    requires forall u | u in True(s, s.counters[c].triggers, was) && u.AwaitTrigger? :: u.await !in s'.awaits
    requires t.AwaitTrigger? && t in s'.counters[c].triggers
    ensures Has(s', t) && !ComparisonTrue(s.counters[c].value, Trig(s', t))
  {
    assert t in s.counters[c].triggers;
    assert Armed(s', t) && Armed(s, t);
    var trig := Trig(s, t);
    assert trig.sync == Some(c) && Trig(s', t) == trig;
    assert AwaitComplete(s.awaits[t.await]);
    assert t !in True(s, s.counters[c].triggers, was);
    assert !Check(s, trig, was);
  }

  lemma QuiescentAfterWalk(s: State, s1: State, s2: State, c: Xid, was: Int64)
    requires Inv(s) && s1.alarms == s.alarms && Linked(s1) && NoneDying(s1) && Complete(s1) && c in s1.counters
    requires s2 == FireAll(s1, True(s1, s1.counters[c].triggers, was))
    ensures Quiescent(s2, c, s1.counters[c].value)
  {
    var list := s1.counters[c].triggers;
    FireAllEffect(s1, True(s1, list, was));
    forall t | t in s2.counters[c].triggers && Has(s2, t) && Pending(s2, t)
      ensures !ComparisonTrue(s1.counters[c].value, Trig(s2, t))
    {
      assert t in list && Armed(s1, t);
      if t.AlarmTrigger? {
        assert AlarmOk(s, t.alarm);
        AlarmQuiescentAfter(s1, c, list, was, t.alarm);
      } else {
        AwaitQuiescentAfter(s1, s2, c, was, t);
      }
    }
  }

  lemma QuiescentAfter(s: State, c: Xid, v: Int64)
    requires Inv(s) && c in s.counters
    ensures Quiescent(SyncModel.ChangeCounter(s, c, v), c, v)
  {
    var s1 := SetValue(s, c, v);
    SameLinksLinked(s, s1);
    var s2 := FireAll(s1, True(s1, s.counters[c].triggers, s.counters[c].value));
    QuiescentAfterWalk(s, s1, s2, c, s.counters[c].value);
    RefreshFrame(s2, c);
    SameWaiting(s2, Refresh(s2, c), c, v);
  }

  /** The brackets are those of the current value and list. */
  ghost predicate Fresh(s: State, c: Xid) {
    IsSystem(s, c) && s.counters[c].kind.ct == Unrestricted && BracketsOf(s, c) == Computed(s, c, s.counters[c].value)
  }

  lemma RefreshFresh(s: State, c: Xid)
    requires IsSystem(s, c) && s.counters[c].kind.ct == Unrestricted
    ensures Fresh(Refresh(s, c), c)
  {
    SameTriggers(s, Refresh(s, c), s.counters[c].triggers);
  }

  lemma FreshAfter(s: State, c: Xid, v: Int64)
    requires Inv(s) && IsSystem(s, c) && s.counters[c].kind.ct == Unrestricted
    ensures var s' := SyncModel.ChangeCounter(s, c, v); Fresh(s', c) && s'.counters[c].value == v
  {
    hide NarrowAll, Triggers, FireAll, Refresh, Fresh, Complete, Blocking, AlarmsOk;
    var s1 := SetValue(s, c, v);
    SameLinksLinked(s, s1);
    var ts := True(s1, s.counters[c].triggers, s.counters[c].value);
    FireAllEffect(s1, ts);
    var s2 := FireAll(s1, ts);
    assert Relisted(s1.counters[c], s2.counters[c], s2.counters[c].triggers);
    RefreshFresh(s2, c);
    RefreshFrame(s2, c);
  }

  // ----- the two runs -----

  /** What a wakeup finds: the idle time, and whether the last event time has been reset */
  datatype Reading = Reading(idle: Card32, reset: bool)

  function FastRun(s: State, c: Xid, readings: seq<Reading>): State
    decreases |readings|
  {
    if readings == [] then s else FastRun(IdleWakeup(s, c, readings[0].idle, readings[0].reset), c, readings[1..])
  }

  function CheckAlways(s: State, c: Xid, v: Int64): State {
    if c in s.counters then SyncModel.ChangeCounter(s, c, v) else s
  }

  /** The same values, every one checked against every trigger */
  function SlowWakeup(s: State, c: Xid, idle: Int64, reset: bool): State {
    CheckAlways(if reset && idle != 0 then CheckAlways(s, c, 0) else s, c, idle)
  }

  function SlowRun(s: State, c: Xid, readings: seq<Reading>): State
    decreases |readings|
  {
    if readings == [] then s else SlowRun(SlowWakeup(s, c, readings[0].idle, readings[0].reset), c, readings[1..])
  }

  /** Equal but for what counter c itself says: its value and its brackets. */
  ghost predicate SameButCounter(f: State, l: State, c: Xid) {
    && IsSystem(f, c) && IsSystem(l, c)
    && f == l.(counters := l.counters[c := f.counters[c]])
    && f.counters[c] == l.counters[c].(value := f.counters[c].value, kind := f.counters[c].kind)
    && f.counters[c].kind.ct == l.counters[c].kind.ct == Unrestricted
  }

  lemma QuietSame(f: State, l: State, c: Xid, v: Int64)
    requires SameButCounter(f, l, c) && Quiet(BracketsOf(f, c), v)
    ensures var l' := Refresh(SetValue(l, c, v), c);
      && SameButCounter(SetValue(f, c, v), l', c) && SameButCounter(f, l', c)
      && BracketsOf(SetValue(f, c, v), c) == BracketsOf(f, c)
  {
    var l1 := SetValue(l, c, v);
    RefreshFrame(l1, c);
    var l', f' := Refresh(l1, c), SetValue(f, c, v);
    assert f'.counters == l'.counters[c := f'.counters[c]];
    assert f.counters == l'.counters[c := f.counters[c]];
  }
}
