/** No client is left waiting for what has happened: the counterpart, for awaits, of the alarm invariant. */
module SyncWaits {
  import opened Options
  import opened SyncTypes
  import opened SyncBrackets
  import opened SyncModel
  import opened SyncRequests
  import opened SyncLinks
  import opened SyncInvariants
  import opened SyncInit
  import SyncRuns
  import opened SyncIdle
  import SyncDestroy

  // ----- what a step does to the counters -----

  predicate SameKind(k: CounterKind, k': CounterKind) {
    match k
    case ClientCounter(_) => k' == k
    case SystemCounter(ct, _) => k'.SystemCounter? && k'.ct == ct
  }

  /** The counters of s' were there in s, of the same kind; those of clients, but for one, with the same value. */
  ghost predicate CountersFrom(s: State, s': State, but: Option<Xid>) {
    forall c | c in s'.counters ::
      && c in s.counters && SameKind(s.counters[c].kind, s'.counters[c].kind)
      && (s.counters[c].kind.ClientCounter? && but != Some(c) ==> s'.counters[c].value == s.counters[c].value)
  }

  ghost predicate AwaitsFrom(s: State, s': State) {
    forall w | w in s'.awaits :: w in s.awaits && s'.awaits[w] == s.awaits[w]
  }

  lemma KeptFrom(s: State, s': State)
    requires CountersKept(s, s')
    ensures CountersFrom(s, s', None)
  {
  }

  lemma SubFrom(s: State, s': State)
    requires forall c | c in s'.counters ::
               c in s.counters && s'.counters[c].kind == s.counters[c].kind && s'.counters[c].value == s.counters[c].value
    ensures CountersFrom(s, s', None)
  {
  }

  lemma FromTwice(s1: State, s2: State, s3: State, but: Option<Xid>)
    requires CountersFrom(s1, s2, but) && CountersFrom(s2, s3, None)
    ensures CountersFrom(s1, s3, but)
  {
  }

  lemma ChangeFrom(s: State, d: Xid, v: Int64)
    requires Inv(s) && d in s.counters
    ensures var s' := SyncModel.ChangeCounter(s, d, v);
      CountersFrom(s, s', Some(d)) && AwaitsFrom(s, s') && d in s'.counters && s'.counters[d].value == v
  {
    hide NarrowAll, Triggers, FireAll, Refresh, Blocking, AlarmsOk, Complete;
    var s1 := SetValue(s, d, v);
    var ts := True(s1, s.counters[d].triggers, s.counters[d].value);
    SameLinksLinked(s, s1);
    FireAllEffect(s1, ts);
    var s2 := FireAll(s1, ts);
    RefreshFrame(s2, d);
    forall c | c in s2.counters
      ensures c in s.counters && Relisted(s1.counters[c], s2.counters[c], s2.counters[c].triggers)
    {
    }
  }

  lemma {:induction false} DestroyWalkFrom(s: State, d: Xid, list: seq<TriggerId>)
    requires Dying(s, d, list)
    ensures CountersFrom(s, DestroyWalk(s, d, list), None)
    decreases |list|
  {
    hide NotifyDestroyed, Dying;
    if list == [] {
      SubFrom(s, s);
    } else {
      var s1 := NotifyDestroyed(s, list[0]);
      NotifyFrom(s, d, list);
      if list[0].AlarmTrigger? {
        DestroyAlarmStep(s, d, list);
      } else {
        DestroyAwaitStep(s, d, list);
      }
      var s2 := SetList(s1, d, list[1..]);
      SubFrom(s1, s2);
      DestroyWalkFrom(s2, d, list[1..]);
      FromTwice(s, s1, s2, None);
      FromTwice(s, s2, DestroyWalk(s2, d, list[1..]), None);
    }
  }

  lemma NotifyFrom(s: State, d: Xid, list: seq<TriggerId>)
    requires Dying(s, d, list) && list != []
    ensures d in NotifyDestroyed(s, list[0]).counters && CountersFrom(s, NotifyDestroyed(s, list[0]), None)
  {
    hide FireAwait, Prune, Linked, Complete, AlarmsOk, Blocking;
    if list[0].AwaitTrigger? && list[0].await in s.awaits {
      FireAwaitEffect(s, list[0].await);
    }
  }

  lemma FreeCounterFrom(s: State, d: Xid)
    requires Inv(s) && d in s.counters
    ensures CountersFrom(s, FreeCounter(s, d), None) && AwaitsFrom(s, FreeCounter(s, d))
  {
    hide NarrowAll, Triggers, DestroyWalk, Dying;
    var s1 := s.(counters := s.counters[d := s.counters[d].(beingDestroyed := true)]);
    SameLinksButDying(s, s1, d);
    DestroyWalkFrom(s1, d, s.counters[d].triggers);
    var s2 := DestroyWalk(s1, d, s.counters[d].triggers);
    SubFrom(s, s1);
    SubFrom(s2, FreeCounter(s, d));
    FromTwice(s, s1, s2, None);
    FromTwice(s, s2, FreeCounter(s, d), None);
    SyncDestroy.FreeCounterTells(s, d);
  }

  lemma FireIfTrueFrom(s: State, s1: State, a: Xid)
    requires a in s1.alarms && CountersFrom(s, s1, None)
    ensures CountersFrom(s, FireIfTrue(s1, a), None) && FireIfTrue(s1, a).awaits == s1.awaits
  {
    hide FireAlarm;
    FireAlarmEffect(s1, a);
  }

  lemma ChangeAlarmFrom(s: State, client: Client, a: Xid, attrs: Attributes, clock: Clock)
    requires Inv(s)
    ensures a in s.alarms ==>
              var s' := ChangeAttributes(s, client, a, attrs, clock); CountersFrom(s, s', None) && s'.awaits == s.awaits
    ensures var s' := SyncRequests.ChangeAlarm(s, client, a, attrs, clock);
      CountersFrom(s, s', None) && s'.awaits == s.awaits
  {
    hide ChangeStatus, ChangeAttributes, FireIfTrue, Linked, AlarmsOk, Complete, Blocking, Moved, SyncRuns.Arriving;
    if a in s.alarms {
      var s' := ChangeAttributes(s, client, a, attrs, clock);
      if ChangeStatus(s, a, attrs, clock) == Success {
        SyncRuns.AttributesEffect(s, client, a, attrs, clock);
        KeptFrom(s, s');
        FireIfTrueFrom(s, s', a);
      } else {
        SyncRuns.ChangeAttributesFailed(s, client, a, attrs, clock);
        KeptFrom(s, s');
      }
    } else {
      SubFrom(s, s);
    }
  }

  lemma CreateAlarmFrom(s: State, client: Client, a: Xid, attrs: Attributes, clock: Clock)
    requires Inv(s)
    ensures var s' := SyncRequests.CreateAlarm(s, client, a, attrs, clock);
      CountersFrom(s, s', None) && s'.awaits == s.awaits
  {
    hide ChangeStatus, ChangeAttributes, FireIfTrue, Linked, AlarmsOk, Complete, Blocking, CountersFrom;
    if a !in s.alarms && a !in s.counters {
      var s0 := SetAlarm(s, a, NewAlarm(client));
      SyncRuns.NewAlarmInv(s, client, a);
      ChangeAlarmFrom(s0, client, a, attrs, clock);
      var s2 := ChangeAttributes(s0, client, a, attrs, clock);
      SubFrom(s, s0);
      FromTwice(s, s0, s2, None);
      SubFrom(s2, s2.(alarms := s2.alarms - {a}));
      FromTwice(s, s2, s2.(alarms := s2.alarms - {a}), None);
      if a in s2.alarms {
        FireIfTrueFrom(s, s2, a);
        var idle := SetAlarm(s2, a, s2.alarms[a].(state := Inactive));
        SubFrom(s2, idle);
        FromTwice(s, s2, idle, None);
      }
    } else {
      SubFrom(s, s);
    }
  }

  lemma FreeAlarmFrom(s: State, a: Xid)
    requires Inv(s) && a in s.alarms
    ensures CountersFrom(s, FreeAlarm(s, a), None) && FreeAlarm(s, a).awaits == s.awaits
  {
    hide FreeAlarm;
    FreeAlarmEffect(s, a);
  }

  lemma FreeAwaitFrom(s: State, w: Xid)
    requires Linked(s) && w in s.awaits
    ensures CountersFrom(s, FreeAwait(s, w), None) && AwaitsFrom(s, FreeAwait(s, w)) && w !in FreeAwait(s, w).awaits
  {
    hide FreeAwait, Prune;
    FreeAwaitEffect(s, w);
  }

  lemma FireAwaitFrom(s: State, w: Xid)
    requires Linked(s) && w in s.awaits
    ensures CountersFrom(s, FireAwait(s, w), None) && AwaitsFrom(s, FireAwait(s, w)) && w !in FireAwait(s, w).awaits
  {
    hide FireAwait, Prune;
    FireAwaitEffect(s, w);
  }

  lemma WakeupFrom(s: State, d: Xid, v: Int64)
    requires Inv(s) && IsSystem(s, d)
    ensures CountersFrom(s, ServertimeWakeup(s, d, v), None) && CountersFrom(s, CheckBrackets(s, d, v), None)
    ensures AwaitsFrom(s, ServertimeWakeup(s, d, v)) && AwaitsFrom(s, CheckBrackets(s, d, v))
  {
    hide SyncModel.ChangeCounter, Linked, AlarmsOk, Complete, Blocking;
    ChangeFrom(s, d, v);
  }

  lemma IdleFrom(s: State, d: Xid, v: Int64, reset: bool)
    requires Inv(s) && IsSystem(s, d)
    ensures CountersFrom(s, IdleWakeup(s, d, v, reset), None) && AwaitsFrom(s, IdleWakeup(s, d, v, reset))
  {
    hide Inv, CheckBrackets, CountersFrom;
    SubFrom(s, s);
    SyncRuns.WakeupInv(s, d, 0);
    WakeupFrom(s, d, 0);
    var s1 := if reset && v != 0 then CheckBrackets(s, d, 0) else s;
    WakeupFrom(s1, d, v);
    FromTwice(s, s1, CheckBrackets(s1, d, v), None);
  }

  // ----- awaits -----

  /** No outstanding await has a comparison on a client's counter that is TRUE. */
  ghost predicate NoneMissed(s: State) {
    forall w, i | w in s.awaits && 0 <= i < |s.awaits[w].conds| :: NotMissed(s, s.awaits[w].conds[i].trigger)
  }

  predicate NotMissed(s: State, trig: Trigger) {
    trig.sync.Some? && trig.sync.value in s.counters && s.counters[trig.sync.value].kind.ClientCounter? ==>
      !ComparisonTrue(s.counters[trig.sync.value].value, trig)
  }

  lemma NotMissedKept(s: State, s': State, trig: Trigger, but: Option<Xid>)
    requires NotMissed(s, trig) && CountersFrom(s, s', but) && (but.Some? ==> trig.sync != but)
    ensures NotMissed(s', trig)
  {
  }

  lemma NoneMissedKept(s: State, s': State)
    requires NoneMissed(s) && CountersFrom(s, s', None) && AwaitsFrom(s, s')
    ensures NoneMissed(s')
  {
    hide CountersFrom, NotMissed;
    forall w, i | w in s'.awaits && 0 <= i < |s'.awaits[w].conds|
      ensures NotMissed(s', s'.awaits[w].conds[i].trigger)
    {
      NotMissedKept(s, s', s'.awaits[w].conds[i].trigger, None);
    }
  }

  lemma CondArmed(s: State, w: Xid, i: nat)
    requires Linked(s) && Complete(s) && w in s.awaits && i < |s.awaits[w].conds|
    ensures var t := AwaitTrigger(w, i);
      && Armed(s, t) && Pending(s, t) && Has(s, t) && Trig(s, t) == s.awaits[w].conds[i].trigger && Trig(s, t).sync.Some?
      && Trig(s, t).sync.value in s.counters && t in s.counters[Trig(s, t).sync.value].triggers
  {
    assert AwaitComplete(s.awaits[w]);
    assert Armed(s, AwaitTrigger(w, i));
  }

  /** The counter that has changed is quiescent, and the others have not changed. */
  lemma ChangeMissesNone(s: State, d: Xid, v: Int64)
    requires Inv(s) && NoneMissed(s) && d in s.counters
    ensures NoneMissed(SyncModel.ChangeCounter(s, d, v))
  {
    hide SyncModel.ChangeCounter, CountersFrom, NotMissed, Linked, Complete, Blocking, AlarmsOk, NoneDying;
    var s' := SyncModel.ChangeCounter(s, d, v);
    ChangeFrom(s, d, v);
    QuiescentAfter(s, d, v);
    ChangeCounterInv(s, d, v);
    forall w, i | w in s'.awaits && 0 <= i < |s'.awaits[w].conds|
      ensures NotMissed(s', s'.awaits[w].conds[i].trigger)
    {
      CondArmed(s', w, i);
      if s'.awaits[w].conds[i].trigger.sync != Some(d) {
        NotMissedKept(s, s', s'.awaits[w].conds[i].trigger, Some(d));
      } else {
        NotMissedNow(s', d, AwaitTrigger(w, i));
      }
    }
  }

  lemma NotMissedNow(s: State, d: Xid, t: TriggerId)
    requires d in s.counters && Quiescent(s, d, s.counters[d].value) && t in s.counters[d].triggers
    requires Has(s, t) && Pending(s, t) && Trig(s, t).sync == Some(d)
    ensures NotMissed(s, Trig(s, t))
  {
  }

  /** An await that stays after SyncAwaitEpilogue has looked has no TRUE condition. */
  lemma StaysMissesNone(s: State, s1: State, w: Xid)
    requires NoneMissed(s) && CountersFrom(s, s1, None) && w in s1.awaits && FirstTrue(s1, w, 0) == |s1.awaits[w].conds|
    requires forall x | x in s1.awaits && x != w :: x in s.awaits && s1.awaits[x] == s.awaits[x]
    requires forall i | 0 <= i < |s1.awaits[w].conds| :: Checks(s1.awaits[w].conds[i].trigger)
    ensures NoneMissed(s1)
  {
    hide CountersFrom, FirstTrue;
    forall x, i | x in s1.awaits && 0 <= i < |s1.awaits[x].conds|
      ensures NotMissed(s1, s1.awaits[x].conds[i].trigger)
    {
      if x != w {
        NotMissedKept(s, s1, s1.awaits[x].conds[i].trigger, None);
      }
    }
  }

  lemma AwaitFrom(s: State, client: Client, w: Xid, reqs: seq<WaitCondition>, clock: Clock)
    requires Inv(s) && w !in s.awaits
    ensures CountersFrom(s, AwaitRequest(s, client, w, reqs, clock), None)
    ensures NoneMissed(s) ==> NoneMissed(AwaitRequest(s, client, w, reqs, clock))
  {
    hide Setup, FreeAwait, Epilogue, AlarmsOk, Blocking, Complete, Linked, SyncRuns.Setting, CountersFrom, NoneMissed;
    if reqs != [] {
      SyncRuns.SetupSetting(s, client, w, reqs, |reqs|, clock);
      var r := Setup(Prologue(s, client, w, reqs), w, reqs, |reqs|, clock);
      if r.1 != Success {
        AwaitFailed(s, r.0, client, w, reqs, r.0.awaits[w].armed);
      } else {
        AwaitBlocked(s, r.0, client, w, reqs);
      }
    } else {
      SubFrom(s, s);
    }
  }

  lemma SettingFrom(s: State, p: State, client: Client, w: Xid, reqs: seq<WaitCondition>, n: nat)
    requires SyncRuns.Setting(s, p, client, w, reqs, n)
    ensures Linked(p) && w in p.awaits && p.awaits[w].armed <= |p.awaits[w].conds| && CountersFrom(s, p, None)
    ensures forall x | x in p.awaits && x != w :: x in s.awaits && p.awaits[x] == s.awaits[x]
    ensures forall i | 0 <= i < n :: i < |p.awaits[w].conds| && Checks(p.awaits[w].conds[i].trigger)
    ensures |p.awaits[w].conds| == |reqs|
  {
  }

  lemma AwaitFailed(s: State, p: State, client: Client, w: Xid, reqs: seq<WaitCondition>, n: nat)
    requires SyncRuns.Setting(s, p, client, w, reqs, n)
    ensures w in p.awaits && CountersFrom(s, FreeAwait(p, w), None)
    ensures NoneMissed(s) ==> NoneMissed(FreeAwait(p, w))
  {
    hide SyncRuns.Setting, CountersFrom, FreeAwait, Linked, NoneMissed;
    SettingFrom(s, p, client, w, reqs, n);
    FreeAwaitFrom(p, w);
    FromTwice(s, p, FreeAwait(p, w), None);
    if NoneMissed(s) {
      NoneMissedKept(s, FreeAwait(p, w));
    }
  }

  lemma AwaitBlocked(s: State, p: State, client: Client, w: Xid, reqs: seq<WaitCondition>)
    requires SyncRuns.Setting(s, p, client, w, reqs, |reqs|)
    ensures w in p.awaits && CountersFrom(s, Epilogue(p, client, w), None)
    ensures NoneMissed(s) ==> NoneMissed(Epilogue(p, client, w))
  {
    hide SyncRuns.Setting, CountersFrom, FireAwait, FirstTrue, Linked, NoneMissed;
    SettingFrom(s, p, client, w, reqs, |reqs|);
    var s1 := Ignore(p, client);
    SubFrom(p, s1);
    FromTwice(s, p, s1, None);
    LinkedFrame(p, s1);
    if FirstTrue(s1, w, 0) < |s1.awaits[w].conds| {
      FireAwaitFrom(s1, w);
      FromTwice(s, s1, FireAwait(s1, w), None);
      if NoneMissed(s) {
        NoneMissedKept(s, FireAwait(s1, w));
      }
    } else if NoneMissed(s) {
      StaysMissesNone(s, s1, w);
    }
  }

  // ----- steps and runs -----

  /** The client counter that a step may give another value */
  function Touched(step: Step): Option<Xid> {
    if step.DoSetCounter? || step.DoChangeCounter? then Some(step.c) else None
  }

  lemma AlarmStepFrom(s: State, step: Step)
    requires Inv(s) && Legal(s, step) && SyncRuns.AlarmStep(step)
    ensures CountersFrom(s, DoStep(s, step), None)
    ensures NoneMissed(s) ==> NoneMissed(DoStep(s, step))
  {
    hide CountersFrom, NoneMissed, SyncRequests.CreateAlarm, SyncRequests.ChangeAlarm, AwaitRequest, FreeAlarm,
      FreeAwait, Harmless,
      Linked, Complete, Blocking, AlarmsOk, NoneDying;
    SubFrom(s, s);
    match step {
      case DoAwait(client, w, reqs, clock) => AwaitFrom(s, client, w, reqs, clock);
      case DoCreateAlarm(client, a, attrs, clock) => CreateAlarmFrom(s, client, a, attrs, clock);
      case DoChangeAlarm(client, a, attrs, clock) => ChangeAlarmFrom(s, client, a, attrs, clock);
      case DoDestroyAlarm(_, a) => if a in s.alarms { FreeAlarmFrom(s, a); }
      case ReapAlarm(a) => if a in s.alarms { FreeAlarmFrom(s, a); }
      case ReapAwait(w) => if w in s.awaits { FreeAwaitFrom(s, w); }
    }
    var s' := DoStep(s, step);
    if NoneMissed(s) && !step.DoAwait? {
      NoneMissedKept(s, s');
    }
  }

  /** No step but the creation of one adds a counter or changes the kind of one. */
  lemma StepCounters(s: State, step: Step)
    requires Inv(s) && Legal(s, step) && !step.DoCreateCounter? && !step.DoCreateSystemCounter?
    ensures CountersFrom(s, DoStep(s, step), Touched(step))
  {
    hide Linked, AlarmsOk, Complete, Blocking, SyncModel.ChangeCounter, FreeCounter, IdleWakeup,
      ServertimeWakeup, AwaitRequest;
    if SyncRuns.AlarmStep(step) {
      AlarmStepFrom(s, step);
    } else {
      match step
      case DoSetCounter(_, c, v) => if c in s.counters { ChangeFrom(s, c, v); }
      case DoChangeCounter(_, c, v) =>
        if c in s.counters && InRange(v + s.counters[c].value) { ChangeFrom(s, c, v + s.counters[c].value); }
      case DoQueryCounter(_, c, clock) =>
      case DoDestroyCounter(_, c) => if c in s.counters { FreeCounterFrom(s, c); }
      case DoIdleWakeup(c, v, reset) => IdleFrom(s, c, v, reset);
      case DoServertimeWakeup(c, v) => WakeupFrom(s, c, v);
      case ClientGone(client) =>
      case ReapCounter(c) => if c in s.counters { FreeCounterFrom(s, c); }
    }
  }

  lemma NewCounterMissesNone(s: State, c: Xid, v: Int64, kind: CounterKind)
    requires Inv(s) && NoneMissed(s)
    ensures NoneMissed(CreateCounter(s, c, v, kind))
  {
    hide AlarmsOk, Blocking;
    var s' := CreateCounter(s, c, v, kind);
    forall w, i | w in s'.awaits && 0 <= i < |s'.awaits[w].conds|
      ensures NotMissed(s', s'.awaits[w].conds[i].trigger)
    {
      CondArmed(s, w, i);
      assert NotMissed(s, s.awaits[w].conds[i].trigger);
    }
  }

  lemma CounterStepMissesNone(s: State, step: Step)
    requires Inv(s) && Legal(s, step) && !SyncRuns.AlarmStep(step) && NoneMissed(s)
    ensures NoneMissed(DoStep(s, step))
  {
    hide Inv, SyncModel.ChangeCounter, FreeCounter, IdleWakeup, ServertimeWakeup, NoneMissed, CountersFrom, AwaitsFrom;
    match step
    case DoCreateCounter(client, c, v) => NewCounterMissesNone(s, c, v, ClientCounter(client));
    case DoCreateSystemCounter(c, v, ct) => NewCounterMissesNone(s, c, v, SystemCounter(ct, NO_BRACKETS));
    case DoSetCounter(_, c, v) => if c in s.counters { ChangeMissesNone(s, c, v); }
    case DoChangeCounter(_, c, v) =>
      if c in s.counters && InRange(v + s.counters[c].value) { ChangeMissesNone(s, c, v + s.counters[c].value); }
    case DoQueryCounter(_, c, clock) => QueryMissesNone(s, c, clock);
    case DoDestroyCounter(_, c) => if c in s.counters { FreeCounterFrom(s, c); NoneMissedKept(s, FreeCounter(s, c)); }
    case DoIdleWakeup(c, v, reset) => IdleFrom(s, c, v, reset); NoneMissedKept(s, IdleWakeup(s, c, v, reset));
    case DoServertimeWakeup(c, v) => WakeupFrom(s, c, v); NoneMissedKept(s, ServertimeWakeup(s, c, v));
    case ClientGone(client) => GoneMissesNone(s, client);
    case ReapCounter(c) => if c in s.counters { FreeCounterFrom(s, c); NoneMissedKept(s, FreeCounter(s, c)); }
  }

  lemma QueryMissesNone(s: State, c: Xid, clock: Clock)
    requires NoneMissed(s)
    ensures NoneMissed(Query(s, Some(c), clock))
  {
    NoneMissedKept(s, Query(s, Some(c), clock));
  }

  lemma GoneMissesNone(s: State, client: Client)
    requires NoneMissed(s)
    ensures NoneMissed(s.(gone := s.gone + {client}))
  {
    NoneMissedKept(s, s.(gone := s.gone + {client}));
  }

  lemma {:induction false} RunMissesNone(s: State, steps: seq<Step>)
    requires Inv(s) && NoneMissed(s) && LegalRun(s, steps)
    ensures NoneMissed(Run(s, steps))
    decreases steps
  {
    hide Inv, DoStep, Legal, NoneMissed, CountersFrom;
    if steps != [] {
      SyncRuns.StepInv(s, steps[0]);
      if SyncRuns.AlarmStep(steps[0]) {
        AlarmStepFrom(s, steps[0]);
      } else {
        CounterStepMissesNone(s, steps[0]);
      }
      RunMissesNone(DoStep(s, steps[0]), steps[1..]);
    }
  }

  /**
   * In every legal run a client that is still blocked waits for something that has not happened: each condition of an
   * outstanding await is on the list of a live counter, and a comparison on a client's counter is FALSE.
   */
  lemma StillWaiting(steps: seq<Step>, w: Xid, i: nat)
    requires LegalRun(INITIAL, steps) && w in Run(INITIAL, steps).awaits && i < |Run(INITIAL, steps).awaits[w].conds|
    ensures var s := Run(INITIAL, steps);
      var trig := s.awaits[w].conds[i].trigger;
      && trig.sync.Some? && trig.sync.value in s.counters && AwaitTrigger(w, i) in s.counters[trig.sync.value].triggers
      && var counter := s.counters[trig.sync.value];
      counter.kind.ClientCounter? && trig.testType.Comparison() ==>
        !CheckValue(trig.testType, counter.value, counter.value, trig.testValue)
  {
    SyncRuns.RunInv(INITIAL, steps);
    RunMissesNone(INITIAL, steps);
    var s := Run(INITIAL, steps);
    CondArmed(s, w, i);
    assert NotMissed(s, s.awaits[w].conds[i].trigger);
  }
}
