/** Every request keeps the invariant, and so does every legal run. */
module SyncRuns {
  import opened Options
  import opened SyncTypes
  import opened SyncBrackets
  import opened SyncModel
  import opened SyncRequests
  import opened SyncLinks
  import opened SyncInit
  import opened SyncInvariants

  // ----- alarms -----

  /** The invariant, but for the alarm that is being changed. */
  ghost predicate InvBut(s: State, a: Xid) {
    Linked(s) && Complete(s) && NoneDying(s) && Blocking(s) && a in s.alarms
    && forall b | b in s.alarms && b != a :: AlarmOk(s, b)
  }

  lemma SetAlarmInvBut(s: State, a: Xid, alarm: Alarm)
    requires InvBut(s, a) && alarm.trigger.sync == s.alarms[a].trigger.sync
    ensures InvBut(SetAlarm(s, a, alarm), a)
  {
    var s' := SetAlarm(s, a, alarm);
    SameLinksLinked(s, s');
    forall b | b in s'.alarms && b != a ensures AlarmOk(s', b) {
      AlarmOkKept(s, s', b);
    }
  }

  lemma UpdateTwice<K, V>(m: map<K, V>, k: K, x: V, y: V)
    ensures m[k := x][k := y] == m[k := y]
  {
  }

  /** s' is s with at most the alarm and the values of system counters changed. */
  ghost predicate OnlyAlarm(s: State, s': State, a: Xid) {
    && CountersKept(s, s') && SameLists(s, s') && a in s'.alarms
    && s' == s.(counters := s'.counters, alarms := s.alarms[a := s'.alarms[a]])
  }

  lemma SelectedOnlyAlarm(s: State, client: Client, a: Xid, attrs: Attributes)
    requires a in s.alarms
    ensures OnlyAlarm(s, Selected(s, client, a, attrs), a)
  {
    assert s.alarms[a := s.alarms[a]] == s.alarms;
  }

  lemma CommittedOnlyAlarm(s: State, client: Client, a: Xid, attrs: Attributes)
    requires a in s.alarms
    ensures OnlyAlarm(s, Committed(s, client, a, attrs), a)
  {
    SelectedOnlyAlarm(s, client, a, attrs);
    var s1 := Selected(s, client, a, attrs);
    UpdateTwice(s.alarms, a, s1.alarms[a], Committed(s, client, a, attrs).alarms[a]);
  }

  lemma CommittedInvBut(s: State, client: Client, a: Xid, attrs: Attributes)
    requires InvBut(s, a)
    ensures InvBut(Committed(s, client, a, attrs), a)
    ensures var alarm := Committed(s, client, a, attrs).alarms[a];
      && alarm.trigger == Wanted(s.alarms[a].trigger, attrs) && alarm.delta == Get(attrs.delta, s.alarms[a].delta)
      && alarm.state == s.alarms[a].state
    ensures Committed(s, client, a, attrs).counters == s.counters
  {
    hide Linked, Complete, NoneDying, Blocking, AlarmOk;
    var s2 := Committed(s, client, a, attrs);
    CommittedOnlyAlarm(s, client, a, attrs);
    SetAlarmInvBut(s, a, s2.alarms[a]);
    assert s2 == SetAlarm(s, a, s2.alarms[a]);
  }

  lemma InstalledInvBut(s: State, s': State, a: Xid)
    requires InvBut(s, a) && a in s'.alarms && s' == s.(alarms := s.alarms[a := s'.alarms[a]], counters := s'.counters)
    requires CountersKept(s, s') && Moved(s, s', AlarmTrigger(a), s'.alarms[a].trigger.sync)
    requires s'.alarms[a].trigger.sync.Some? ==> s'.alarms[a].trigger.sync.value in s.counters
    ensures InvBut(s', a)
  {
    MovedLinked(s, s', AlarmTrigger(a));
    forall b | b in s'.alarms && b != a ensures AlarmOk(s', b) {
      AlarmOkKept(s, s', b);
    }
  }

  lemma AlarmOnOwnList(s: State, a: Xid)
    requires Linked(s) && a in s.alarms
    ensures OnOwnList(s, AlarmTrigger(a))
    ensures s.alarms[a].trigger.sync.Some? ==>
              s.alarms[a].trigger.sync.value in s.counters
              && AlarmTrigger(a) in s.counters[s.alarms[a].trigger.sync.value].triggers
  {
    assert Armed(s, AlarmTrigger(a));
  }

  /** The trigger that a successful SyncChangeAlarmAttributes installs */
  function Arriving(s: State, a: Xid, attrs: Attributes, clock: Clock): Trigger
    requires a in s.alarms
  {
    Installed(s, Wanted(s.alarms[a].trigger, attrs), Get(attrs.counter, NONE), attrs.Mask(), clock)
  }

  lemma ArrivingSame(s: State, s1: State, a: Xid, attrs: Attributes, clock: Clock)
    requires a in s.alarms && s1.counters == s.counters
    ensures Installed(s1, Wanted(s.alarms[a].trigger, attrs), Get(attrs.counter, NONE), attrs.Mask(), clock)
         == Arriving(s, a, attrs, clock)
  {
    var trig := Wanted(s.alarms[a].trigger, attrs);
    SameTarget(s, s1, NewSync(trig, Get(attrs.counter, NONE), attrs.Mask()), trig, clock);
  }

  /** A successful SyncChangeAlarmAttributes, on the records and the lists */
  lemma AttributesEffect(s: State, client: Client, a: Xid, attrs: Attributes, clock: Clock)
    requires Linked(s) && a in s.alarms && ChangeStatus(s, a, attrs, clock) == Success
    ensures var s' := ChangeAttributes(s, client, a, attrs, clock);
      var trig := Arriving(s, a, attrs, clock);
      && (trig.sync.Some? ==> trig.sync.value in s.counters)
      && a in s'.alarms && s' == s.(alarms := s.alarms[a := s'.alarms[a]], counters := s'.counters)
      && s'.alarms[a].trigger == trig && s'.alarms[a].state == Active
        && s'.alarms[a].delta == Get(attrs.delta, s.alarms[a].delta)
      && CountersKept(s, s') && Moved(s, s', AlarmTrigger(a), trig.sync)
  {
    hide *;
    var t := AlarmTrigger(a);
    var s1 := Committed(s, client, a, attrs);
    CommittedLinked(s, client, a, attrs);
    ArrivingSame(s, s1, a, attrs, clock);
    StatusSame(s, s1, a, attrs, clock);
    InitSuccessEffect(s1, t, Get(attrs.counter, NONE), attrs.Mask(), clock);
    AttributesUnfold(s, client, a, attrs, clock);
    AttributesRecords(s, s1, InitSuccess(s1, t, Get(attrs.counter, NONE), attrs.Mask(), clock), a,
                      Arriving(s, a, attrs, clock));
  }

  lemma CommittedLinked(s: State, client: Client, a: Xid, attrs: Attributes)
    requires Linked(s) && a in s.alarms
    ensures var s1 := Committed(s, client, a, attrs);
      && Linked(s1) && a in s1.alarms && s1 == s.(alarms := s.alarms[a := s1.alarms[a]])
      && s1.alarms[a].trigger == Wanted(s.alarms[a].trigger, attrs)
        && s1.alarms[a].delta == Get(attrs.delta, s.alarms[a].delta)
      && Trig(s1, AlarmTrigger(a)) == s1.alarms[a].trigger && OnOwnList(s1, AlarmTrigger(a))
      && (s1.alarms[a].trigger.sync.Some? ==>
            s1.alarms[a].trigger.sync.value in s1.counters
            && AlarmTrigger(a) in s1.counters[s1.alarms[a].trigger.sync.value].triggers)
  {
    hide Linked, OnOwnList;
    CommittedRecord(s, client, a, attrs);
    SameLinksLinked(s, Committed(s, client, a, attrs));
    AlarmOnOwnList(Committed(s, client, a, attrs), a);
  }

  lemma CommittedRecord(s: State, client: Client, a: Xid, attrs: Attributes)
    requires a in s.alarms
    ensures var s1 := Committed(s, client, a, attrs);
      && a in s1.alarms && s1 == s.(alarms := s.alarms[a := s1.alarms[a]]) && SameLinks(s, s1)
      && s1.alarms[a].trigger == Wanted(s.alarms[a].trigger, attrs)
        && s1.alarms[a].delta == Get(attrs.delta, s.alarms[a].delta)
  {
    CommittedOnlyAlarm(s, client, a, attrs);
  }

  lemma AttributesUnfold(s: State, client: Client, a: Xid, attrs: Attributes, clock: Clock)
    requires a in s.alarms && ChangeStatus(s, a, attrs, clock) == Success && EarlyStatus(s.alarms[a], attrs) == Success
    ensures var s2 := InitSuccess(Committed(s, client, a, attrs), AlarmTrigger(a), Get(attrs.counter, NONE),
             attrs.Mask(), clock);
      ChangeAttributes(s, client, a, attrs, clock)
      == if a in s2.alarms then SetAlarm(s2, a, s2.alarms[a].(state := Active)) else s2
  {
    hide InitSuccess, Committed, ChangeStatus, EarlyStatus;
  }

  lemma AttributesRecords(s: State, s1: State, s2: State, a: Xid, trig: Trigger)
    requires a in s.alarms && a in s1.alarms && s1 == s.(alarms := s.alarms[a := s1.alarms[a]])
    requires s2 == SetTrig(s1, AlarmTrigger(a), trig).(counters := s2.counters)
    ensures a in s2.alarms
    ensures var s' := SetAlarm(s2, a, s2.alarms[a].(state := Active));
      && s' == s.(alarms := s.alarms[a := s'.alarms[a]], counters := s2.counters) && s'.alarms[a].trigger == trig
      && s'.alarms[a].state == Active && s'.alarms[a].delta == s1.alarms[a].delta
      && (CountersKept(s1, s2) ==> CountersKept(s, s'))
      && (Moved(s1, s2, AlarmTrigger(a), trig.sync) ==> Moved(s, s', AlarmTrigger(a), trig.sync))
  {
  }

  lemma StatusSame(s: State, s1: State, a: Xid, attrs: Attributes, clock: Clock)
    requires a in s.alarms && a in s1.alarms && s1.counters == s.counters
    requires s1.alarms[a].trigger == Wanted(s.alarms[a].trigger, attrs) && ChangeStatus(s, a, attrs, clock) == Success
    ensures EarlyStatus(s.alarms[a], attrs) == Success && Has(s1, AlarmTrigger(a))
    ensures InitStatus(s1, Trig(s1, AlarmTrigger(a)), Get(attrs.counter, NONE), attrs.Mask(), clock) == Success
  {
  }

  /** A successful SyncChangeAlarmAttributes: the alarm is Active and in order, but may be TRUE already. */
  lemma ChangeAttributesSuccess(s: State, client: Client, a: Xid, attrs: Attributes, clock: Clock)
    requires InvBut(s, a) && Agrees(s.alarms[a]) && ChangeStatus(s, a, attrs, clock) == Success
    ensures var s' := ChangeAttributes(s, client, a, attrs, clock);
      InvBut(s', a) && Agrees(s'.alarms[a]) && s'.alarms[a].state == Active
  {
    hide ChangeAttributes, ChangeStatus, Arriving, Linked, Complete, Blocking, NoneDying, AlarmOk, Moved, CountersKept;
    AttributesEffect(s, client, a, attrs, clock);
    InstalledInvBut(s, ChangeAttributes(s, client, a, attrs, clock), a);
    ArrivingAgrees(s, a, attrs, clock);
  }

  lemma ArrivingAgrees(s: State, a: Xid, attrs: Attributes, clock: Clock)
    requires a in s.alarms && Agrees(s.alarms[a]) && ChangeStatus(s, a, attrs, clock) == Success
    ensures var trig := Arriving(s, a, attrs, clock);
      Checks(trig) && !WrongSign(trig.testType, Get(attrs.delta, s.alarms[a].delta))
  {
    hide Wrap, InRange, Query, Target;
  }

  /** Firing the alarm if it is TRUE completes the invariant. */
  lemma FireIfTrueInv(s: State, a: Xid)
    requires InvBut(s, a) && Agrees(s.alarms[a]) && s.alarms[a].state == Active
    ensures Inv(FireIfTrue(s, a))
  {
    var s' := FireIfTrue(s, a);
    FireAlarmEffect(s, a);
    FireAlarmLinked(s, a);
    forall b | b in s'.alarms ensures AlarmOk(s', b) {
      if b != a {
        AlarmOkKept(s, s', b);
      }
    }
  }

  lemma InvButInv(s: State, a: Xid)
    requires InvBut(s, a) && AlarmOk(s, a)
    ensures Inv(s)
  {
  }

  /** A failure before the commit has at most changed the event selection. */
  lemma EarlyFailureInv(s: State, client: Client, a: Xid, attrs: Attributes)
    requires Inv(s) && a in s.alarms
    ensures Inv(Selected(s, client, a, attrs))
  {
    var s' := Selected(s, client, a, attrs);
    if s' != s {
      assert AlarmOk(s, a);
      SetAlarmInvBut(s, a, s'.alarms[a]);
    }
  }

  lemma SameTarget(s: State, s1: State, sync: Option<Xid>, trig: Trigger, clock: Clock)
    requires s1.counters == s.counters
    ensures Target(Query(s1, sync, clock), sync, trig) == Target(Query(s, sync, clock), sync, trig)
    ensures Query(s1, sync, clock).alarms == s1.alarms
  {
  }

  lemma LateTestIs(s: State, s1: State, a: Xid, attrs: Attributes, clock: Clock)
    requires a in s.alarms && a in s1.alarms && s1.counters == s.counters
    requires s1.alarms[a].trigger == Wanted(s.alarms[a].trigger, attrs)
    ensures var s' := InitFailure(s1, AlarmTrigger(a), Get(attrs.counter, NONE), attrs.Mask(), clock);
      a in s'.alarms && s'.alarms[a].trigger.testValue == LateTest(s, a, attrs, clock)
      && s'.alarms[a].delta == s1.alarms[a].delta && s'.alarms[a].state == s1.alarms[a].state
  {
    hide Wrap, InRange, Query, Target;
    var trig := s1.alarms[a].trigger;
    SameTarget(s, s1, NewSync(trig, Get(attrs.counter, NONE), attrs.Mask()), trig, clock);
  }

  /** What a late failure leaves: the committed attributes and test value, on lists and client counters as before. */
  lemma LateFailureEffect(s: State, client: Client, a: Xid, attrs: Attributes, clock: Clock)
    requires InvBut(s, a) && EarlyStatus(s.alarms[a], attrs) == Success
    requires ChangeStatus(s, a, attrs, clock) != Success
    ensures var s' := ChangeAttributes(s, client, a, attrs, clock);
      && a in s'.alarms && CountersKept(s, s')
      && var alarm, was := s'.alarms[a], s.alarms[a];
      && alarm.trigger == Wanted(was.trigger, attrs).(testValue := LateTest(s, a, attrs, clock))
      && alarm.delta == Get(attrs.delta, was.delta) && alarm.state == was.state
    ensures InvBut(ChangeAttributes(s, client, a, attrs, clock), a)
  {
    hide Linked, Complete, NoneDying, Blocking, AlarmOk, InitFailure, Committed, LateTest;
    var t := AlarmTrigger(a);
    var s1 := Committed(s, client, a, attrs);
    CommittedInvBut(s, client, a, attrs);
    LateTestIs(s, s1, a, attrs, clock);
    var s' := InitFailure(s1, t, Get(attrs.counter, NONE), attrs.Mask(), clock);
    InitFailureEffect(s1, t, Get(attrs.counter, NONE), attrs.Mask(), clock);
    SetAlarmInvBut(s1, a, s'.alarms[a]);
    CountersKeptInvBut(SetAlarm(s1, a, s'.alarms[a]), s', a);
  }

  lemma CountersKeptInvBut(s: State, s': State, a: Xid)
    requires InvBut(s, a) && OnlyCounters(s, s') && CountersKept(s, s') && SameLists(s, s')
    ensures InvBut(s', a)
  {
    SameLinksLinked(s, s');
    forall b | b in s'.alarms && b != a ensures AlarmOk(s', b) {
      AlarmOkKept(s, s', b);
    }
  }

  /**
   * The commit before the check, exactly: a ChangeAlarm that fails once the trigger has been committed keeps the
   * invariant if and only if it named no other test type, and did not leave an Active alarm on a client's counter with
   * a trigger that is TRUE.
   */
  lemma LateFailureInv(s: State, client: Client, a: Xid, attrs: Attributes, clock: Clock)
    requires Inv(s) && a in s.alarms
    requires ChangeStatus(s, a, attrs, clock) != Success && EarlyStatus(s.alarms[a], attrs) == Success
    ensures var was := s.alarms[a];
      var v := ValueOf(s, if was.trigger.sync.Some? then was.trigger.sync.value else NONE);
      Inv(SyncRequests.ChangeAlarm(s, client, a, attrs, clock))
      <==> Get(attrs.testType, was.trigger.testType) == was.trigger.testType
           && !(was.state == Active && OnClientCounter(s, a)
                && CheckValue(was.trigger.check, v, v, LateTest(s, a, attrs, clock)))
  {
    assert AlarmOk(s, a);
    LateFailureEffect(s, client, a, attrs, clock);
    var s' := ChangeAttributes(s, client, a, attrs, clock);
    assert Inv(s') <==> AlarmOk(s', a);
  }

  /** ChangeAlarm keeps the invariant exactly if it is harmless. */
  lemma ChangeAlarmInv(s: State, client: Client, a: Xid, attrs: Attributes, clock: Clock)
    requires Inv(s)
    ensures Inv(SyncRequests.ChangeAlarm(s, client, a, attrs, clock)) <==> (a in s.alarms ==> Harmless(s, a, attrs, clock))
  {
    if a in s.alarms {
      assert AlarmOk(s, a);
      if ChangeStatus(s, a, attrs, clock) == Success {
        ChangeAttributesSuccess(s, client, a, attrs, clock);
        FireIfTrueInv(ChangeAttributes(s, client, a, attrs, clock), a);
      } else if EarlyStatus(s.alarms[a], attrs) != Success {
        EarlyFailureInv(s, client, a, attrs);
      } else {
        LateFailureInv(s, client, a, attrs, clock);
      }
    }
  }

  lemma NewAlarmInv(s: State, client: Client, a: Xid)
    requires Inv(s) && a !in s.alarms
    ensures Inv(SetAlarm(s, a, NewAlarm(client)))
  {
    var s' := SetAlarm(s, a, NewAlarm(client));
    forall c, u | c in s'.counters && u in s'.counters[c].triggers
      ensures Armed(s', u) && Trig(s', u).sync == Some(c)
    {
      assert Armed(s, u);
    }
    forall u | Armed(s', u) && Trig(s', u).sync.Some?
      ensures var c := Trig(s', u).sync.value; c in s'.counters && u in s'.counters[c].triggers
    {
      assert u != AlarmTrigger(a) && Armed(s, u) && Trig(s, u) == Trig(s', u);
    }
    forall b | b in s'.alarms ensures AlarmOk(s', b) {
      if b != a {
        AlarmOkKept(s, s', b);
      }
    }
  }

  lemma CountersKeptInv(s: State, s': State)
    requires Inv(s) && OnlyCounters(s, s') && CountersKept(s, s') && SameLists(s, s')
    ensures Inv(s')
  {
    SameLinksLinked(s, s');
    forall b | b in s'.alarms ensures AlarmOk(s', b) {
      AlarmOkKept(s, s', b);
    }
  }

  lemma ChangeAttributesFailed(s: State, client: Client, a: Xid, attrs: Attributes, clock: Clock)
    requires a in s.alarms && ChangeStatus(s, a, attrs, clock) != Success
    ensures OnlyAlarm(s, ChangeAttributes(s, client, a, attrs, clock), a)
  {
    if EarlyStatus(s.alarms[a], attrs) != Success {
      SelectedOnlyAlarm(s, client, a, attrs);
    } else {
      CommittedOnlyAlarm(s, client, a, attrs);
      LateFailed(s, Committed(s, client, a, attrs), a, Get(attrs.counter, NONE), attrs.Mask(), clock);
    }
  }

  lemma LateFailed(s: State, s1: State, a: Xid, counter: Xid, ch: Changes, clock: Clock)
    requires OnlyAlarm(s, s1, a)
    ensures OnlyAlarm(s, InitFailure(s1, AlarmTrigger(a), counter, ch, clock), a)
  {
    var s' := InitFailure(s1, AlarmTrigger(a), counter, ch, clock);
    InitFailureEffect(s1, AlarmTrigger(a), counter, ch, clock);
    UpdateTwice(s.alarms, a, s1.alarms[a], s'.alarms[a]);
  }

  /** A CreateAlarm that fails leaves no trace of the alarm. */
  lemma CreateAlarmFailure(s: State, client: Client, a: Xid, attrs: Attributes, clock: Clock)
    requires a !in s.alarms && ChangeStatus(SetAlarm(s, a, NewAlarm(client)), a, attrs, clock) != Success
    ensures var s' := SyncRequests.CreateAlarm(s, client, a, attrs, clock);
      OnlyCounters(s, s') && CountersKept(s, s') && SameLists(s, s')
  {
    hide ChangeStatus, ChangeAttributes;
    var s1 := SetAlarm(s, a, NewAlarm(client));
    ChangeAttributesFailed(s1, client, a, attrs, clock);
    var s2 := ChangeAttributes(s1, client, a, attrs, clock);
    assert s2.alarms - {a} == s.alarms;
  }

  lemma CreateAlarmInv(s: State, client: Client, a: Xid, attrs: Attributes, clock: Clock)
    requires Inv(s)
    ensures Inv(SyncRequests.CreateAlarm(s, client, a, attrs, clock))
  {
    if a !in s.alarms && a !in s.counters {
      var s1 := SetAlarm(s, a, NewAlarm(client));
      NewAlarmInv(s, client, a);
      var s2 := ChangeAttributes(s1, client, a, attrs, clock);
      if ChangeStatus(s1, a, attrs, clock) == Success {
        ChangeAttributesSuccess(s1, client, a, attrs, clock);
        if s2.alarms[a].trigger.sync.None? {
          SetAlarmInvBut(s2, a, s2.alarms[a].(state := Inactive));
          InvButInv(SetAlarm(s2, a, s2.alarms[a].(state := Inactive)), a);
        } else {
          FireIfTrueInv(s2, a);
        }
      } else {
        CreateAlarmFailure(s, client, a, attrs, clock);
        CountersKeptInv(s, SyncRequests.CreateAlarm(s, client, a, attrs, clock));
      }
    }
  }

  // ----- awaits -----

  /** An await with the first n of its conditions set up. */
  predicate Partway(aw: Await, client: Client, reqs: seq<WaitCondition>, n: nat) {
    && aw.client == client && |aw.conds| == |reqs| && aw.armed == n <= |reqs|
    && (forall i | 0 <= i < |reqs| :: aw.conds[i].trigger.sync == if i < n then Some(reqs[i].counter) else None)
    && (forall i | 0 <= i < n :: Checks(aw.conds[i].trigger))
  }

  /** Without the conditions of w, the lists are those of s0. */
  ghost predicate ListsBut(s0: State, s: State, w: Xid, n: nat) {
    s.counters.Keys == s0.counters.Keys &&
    forall c | c in s.counters :: Prune(s.counters[c].triggers, w, n) == s0.counters[c].triggers
  }

  /** While the conditions of await w are being set up, n of them so far. */
  ghost predicate Setting(s0: State, s: State, client: Client, w: Xid, reqs: seq<WaitCondition>, n: nat) {
    && w in s.awaits && s == s0.(counters := s.counters, awaits := s0.awaits[w := s.awaits[w]])
    && Linked(s) && CountersKept(s0, s) && Partway(s.awaits[w], client, reqs, n) && ListsBut(s0, s, w, n)
  }

  lemma PrologueSetting(s: State, client: Client, w: Xid, reqs: seq<WaitCondition>)
    requires Linked(s) && w !in s.awaits
    ensures Setting(s, Prologue(s, client, w, reqs), client, w, reqs, 0)
  {
    hide Linked, ListsBut, Partway, Blanks;
    PrologueLinked(s, client, w, reqs);
    BlankPartway(client, reqs);
    NothingPruned(s, Prologue(s, client, w, reqs), w);
  }

  lemma PrologueLinked(s: State, client: Client, w: Xid, reqs: seq<WaitCondition>)
    requires Linked(s) && w !in s.awaits
    ensures Linked(Prologue(s, client, w, reqs))
  {
    hide Blanks;
    var s' := Prologue(s, client, w, reqs);
    assert forall t | Armed(s', t) :: Armed(s, t) && Trig(s', t) == Trig(s, t);
    assert forall t | Armed(s, t) :: Armed(s', t);
  }

  lemma BlankPartway(client: Client, reqs: seq<WaitCondition>)
    ensures Partway(Await(client, Blanks(reqs), 0), client, reqs, 0)
  {
  }

  lemma NothingPruned(s: State, s': State, w: Xid)
    requires s'.counters == s.counters
    ensures ListsBut(s, s', w, 0)
  {
    forall c | c in s'.counters
      ensures Prune(s'.counters[c].triggers, w, 0) == s.counters[c].triggers
    {
      PruneNone(s.counters[c].triggers, w, 0);
    }
  }

  lemma UnarmedOnNoList(s: State, w: Xid, i: nat)
    requires Linked(s) && w in s.awaits && s.awaits[w].armed <= i < |s.awaits[w].conds|
    requires s.awaits[w].conds[i].trigger.sync.None?
    ensures OnOwnList(s, AwaitTrigger(w, i))
    ensures forall c | c in s.counters :: AwaitTrigger(w, i) !in s.counters[c].triggers
  {
    assert !Armed(s, AwaitTrigger(w, i));
  }

  lemma SetupStepLists(s: State, s': State, w: Xid, n: nat, sync: Option<Xid>, c: Xid)
    requires c in s.counters && NoDup(s.counters[c].triggers) && AwaitTrigger(w, n) !in s.counters[c].triggers
    requires Headed(s, s', AwaitTrigger(w, n), sync)
    ensures Prune(s'.counters[c].triggers, w, n + 1) == Prune(s.counters[c].triggers, w, n)
  {
    var list := s.counters[c].triggers;
    PruneSame(list, w, n + 1);
    assert ([AwaitTrigger(w, n)] + list)[1..] == list;
    assert [] + list == list;
  }

  lemma ArmedAfter(s: State, s': State, w: Xid, n: nat)
    requires w in s.awaits && s.awaits[w].armed == n < |s.awaits[w].conds|
    requires s'.alarms == s.alarms && w in s'.awaits && s'.awaits == s.awaits[w := s'.awaits[w]]
    requires s'.awaits[w].armed == n + 1 && |s'.awaits[w].conds| == |s.awaits[w].conds|
    requires forall i | 0 <= i < n :: s'.awaits[w].conds[i] == s.awaits[w].conds[i]
    ensures forall u | u != AwaitTrigger(w, n) :: Armed(s', u) <==> Armed(s, u)
    ensures forall u | u != AwaitTrigger(w, n) && Armed(s, u) :: Trig(s', u) == Trig(s, u)
  {
  }

  lemma SettingNextLinked(s: State, s': State, w: Xid, n: nat)
    requires Linked(s) && w in s.awaits && s.awaits[w].armed == n < |s.awaits[w].conds|
    requires s'.alarms == s.alarms && w in s'.awaits && s'.awaits == s.awaits[w := s'.awaits[w]]
    requires s'.awaits[w].armed == n + 1 && |s'.awaits[w].conds| == |s.awaits[w].conds|
    requires forall i | 0 <= i < n :: s'.awaits[w].conds[i] == s.awaits[w].conds[i]
    requires Moved(s, s', AwaitTrigger(w, n), s'.awaits[w].conds[n].trigger.sync)
    requires s'.awaits[w].conds[n].trigger.sync.Some? ==> s'.awaits[w].conds[n].trigger.sync.value in s.counters
    ensures Linked(s')
  {
    ArmedAfter(s, s', w, n);
    MovedLinked(s, s', AwaitTrigger(w, n));
  }

  lemma SettingNextLists(s0: State, s: State, s': State, w: Xid, n: nat, sync: Option<Xid>)
    requires Linked(s) && w in s.awaits && s.awaits[w].armed == n < |s.awaits[w].conds|
    requires s.awaits[w].conds[n].trigger.sync.None?
    requires ListsBut(s0, s, w, n) && Headed(s, s', AwaitTrigger(w, n), sync)
    ensures ListsBut(s0, s', w, n + 1)
  {
    UnarmedOnNoList(s, w, n);
    forall c | c in s'.counters ensures Prune(s'.counters[c].triggers, w, n + 1) == s0.counters[c].triggers {
      SetupStepLists(s, s', w, n, sync, c);
    }
  }

  lemma CountersKeptTwice(s0: State, s: State, s': State)
    requires CountersKept(s0, s) && CountersKept(s, s')
    ensures CountersKept(s0, s')
  {
  }

  /** The await record once condition n has been given its trigger. */
  function ArmNext(aw: Await, n: nat, trig: Trigger): Await
    requires n < |aw.conds|
  {
    aw.(conds := aw.conds[n := aw.conds[n].(trigger := trig)], armed := n + 1)
  }

  lemma SetupOneState(s: State, w: Xid, n: nat, req: WaitCondition, clock: Clock)
    requires w in s.awaits && n < |s.awaits[w].conds| && CondStatus(s, w, n, req, clock) == Success
    requires s.awaits[w].conds[n].trigger.sync.None? && OnOwnList(s, AwaitTrigger(w, n))
    ensures var s' := SetupOne(s, w, n, req, clock).0;
      var trig := Installed(s, s.awaits[w].conds[n].trigger, req.counter, ALL_TRIGGER, clock);
      && trig.sync == Some(req.counter) && req.counter in s.counters && Checks(trig)
      && s' == s.(counters := s'.counters, awaits := s.awaits[w := ArmNext(s.awaits[w], n, trig)])
      && CountersKept(s, s') && Moved(s, s', AwaitTrigger(w, n), trig.sync) && Headed(s, s', AwaitTrigger(w, n), trig.sync)
  {
    hide *;
    var t := AwaitTrigger(w, n);
    CondAccepted(s, w, n, req, clock);
    InitSuccessEffect(s, t, req.counter, ALL_TRIGGER, clock);
    var trig := Installed(s, s.awaits[w].conds[n].trigger, req.counter, ALL_TRIGGER, clock);
    var s2 := InitSuccess(s, t, req.counter, ALL_TRIGGER, clock);
    RelocatedHeaded(s, s2, t, trig.sync);
    ArmState(s, s2, w, n, trig);
    ArmLists(s, s2, Arm(s2, w, n + 1), t, trig.sync);
  }

  lemma CondAccepted(s: State, w: Xid, n: nat, req: WaitCondition, clock: Clock)
    requires w in s.awaits && n < |s.awaits[w].conds| && CondStatus(s, w, n, req, clock) == Success
    requires s.awaits[w].conds[n].trigger.sync.None?
    ensures var t := AwaitTrigger(w, n);
      && Has(s, t) && Trig(s, t) == s.awaits[w].conds[n].trigger
      && InitStatus(s, Trig(s, t), req.counter, ALL_TRIGGER, clock) == Success
      && SetupOne(s, w, n, req, clock) == (Arm(InitSuccess(s, t, req.counter, ALL_TRIGGER, clock), w, n + 1), Success)
      && NewSync(Trig(s, t), req.counter, ALL_TRIGGER) == Some(req.counter) && req.counter in s.counters
      && Installed(s, Trig(s, t), req.counter, ALL_TRIGGER, clock).sync == Some(req.counter)
      && Checks(Installed(s, Trig(s, t), req.counter, ALL_TRIGGER, clock))
  {
    hide InitSuccess, Wrap, Query, Target, InRange;
  }

  lemma ArmLists(s: State, s2: State, s': State, t: TriggerId, sync: Option<Xid>)
    requires s'.counters == s2.counters && CountersKept(s, s2) && Moved(s, s2, t, sync) && Headed(s, s2, t, sync)
    ensures CountersKept(s, s') && Moved(s, s', t, sync) && Headed(s, s', t, sync)
  {
  }

  lemma ArmState(s: State, s1: State, w: Xid, n: nat, trig: Trigger)
    requires w in s.awaits && n < |s.awaits[w].conds|
    requires s1 == SetTrig(s, AwaitTrigger(w, n), trig).(counters := s1.counters)
    ensures Arm(s1, w, n + 1) == s.(counters := s1.counters, awaits := s.awaits[w := ArmNext(s.awaits[w], n, trig)])
  {
  }

  lemma SetupStep(s0: State, s: State, client: Client, w: Xid, reqs: seq<WaitCondition>, n: nat, clock: Clock)
    requires Setting(s0, s, client, w, reqs, n) && n < |reqs|
    requires CondStatus(s, w, n, reqs[n], clock) == Success
    ensures Setting(s0, SetupOne(s, w, n, reqs[n], clock).0, client, w, reqs, n + 1)
  {
    UnarmedOnNoList(s, w, n);
    SetupOneState(s, w, n, reqs[n], clock);
    SettingNext(s0, s, SetupOne(s, w, n, reqs[n], clock).0, client, w, reqs, n,
                Installed(s, s.awaits[w].conds[n].trigger, reqs[n].counter, ALL_TRIGGER, clock));
  }

  lemma PartwayNext(aw: Await, client: Client, reqs: seq<WaitCondition>, n: nat, trig: Trigger)
    requires Partway(aw, client, reqs, n) && n < |reqs| && trig.sync == Some(reqs[n].counter) && Checks(trig)
    ensures Partway(ArmNext(aw, n, trig), client, reqs, n + 1)
  {
  }

  /** One more condition is set up: s' is s with condition n armed on its counter. */
  lemma SettingNext(s0: State, s: State, s': State, client: Client, w: Xid, reqs: seq<WaitCondition>, n: nat,
      trig: Trigger)
    requires Setting(s0, s, client, w, reqs, n) && n < |reqs|
    requires trig.sync == Some(reqs[n].counter) && reqs[n].counter in s.counters && Checks(trig)
    requires s' == s.(counters := s'.counters, awaits := s.awaits[w := ArmNext(s.awaits[w], n, trig)])
    requires CountersKept(s, s')
    requires Moved(s, s', AwaitTrigger(w, n), trig.sync) && Headed(s, s', AwaitTrigger(w, n), trig.sync)
    ensures Setting(s0, s', client, w, reqs, n + 1)
  {
    assert Linked(s') by {
      SettingNextLinked(s, s', w, n);
    }
    assert ListsBut(s0, s', w, n + 1) by {
      SettingNextLists(s0, s, s', w, n, trig.sync);
    }
    assert CountersKept(s0, s') by {
      CountersKeptTwice(s0, s, s');
    }
    PartwayNext(s.awaits[w], client, reqs, n, trig);
    UpdateTwice(s0.awaits, w, s.awaits[w], s'.awaits[w]);
  }

  lemma SettingFailed(s0: State, s: State, s': State, client: Client, w: Xid, reqs: seq<WaitCondition>, k: nat,
      trig: Trigger)
    requires Setting(s0, s, client, w, reqs, k) && k < |reqs|
    requires s' == SetTrig(s, AwaitTrigger(w, k), trig).(counters := s'.counters) && trig.sync.None?
    requires CountersKept(s, s') && SameLists(s, s')
    ensures Setting(s0, s', client, w, reqs, k)
  {
    UnusedLinked(s, s', w, k, trig);
    CountersKeptTwice(s0, s, s');
    assert s'.awaits == s0.awaits[w := s'.awaits[w]];
  }

  lemma UnusedLinked(s: State, s': State, w: Xid, k: nat, trig: Trigger)
    requires Linked(s) && w in s.awaits && s.awaits[w].armed <= k < |s.awaits[w].conds| && SameLists(s, s')
    requires s' == SetTrig(s, AwaitTrigger(w, k), trig).(counters := s'.counters)
    ensures Linked(s')
  {
    assert forall u | Armed(s', u) :: Armed(s, u) && Trig(s', u) == Trig(s, u);
    assert forall u | Armed(s, u) :: Armed(s', u);
    forall c, u | c in s'.counters && u in s'.counters[c].triggers
      ensures Armed(s', u) && Trig(s', u).sync == Some(c)
    {
      assert u in s.counters[c].triggers;
    }
    forall u | Armed(s', u) && Trig(s', u).sync.Some?
      ensures var c := Trig(s', u).sync.value; c in s'.counters && u in s'.counters[c].triggers
    {
      assert u in s.counters[Trig(s, u).sync.value].triggers;
    }
  }

  /** A failing condition leaves at most a test value in a slot that is not in use. */
  lemma SetupFailure(s0: State, s: State, client: Client, w: Xid, reqs: seq<WaitCondition>, k: nat, clock: Clock)
    requires Setting(s0, s, client, w, reqs, k) && k < |reqs|
    requires CondStatus(s, w, k, reqs[k], clock) != Success
    ensures Setting(s0, SetupOne(s, w, k, reqs[k], clock).0, client, w, reqs, k)
  {
    var t := AwaitTrigger(w, k);
    if reqs[k].counter != NONE {
      InitFailureEffect(s, t, reqs[k].counter, ALL_TRIGGER, clock);
      var s' := InitFailure(s, t, reqs[k].counter, ALL_TRIGGER, clock);
      SettingFailed(s0, s, s', client, w, reqs, k, Trig(s', t));
    }
  }

  /** Where the loop of ProcSyncAwait is after n rounds: n conditions set up, or stopped before that. */
  ghost predicate SetUp(s: State, r: (State, Status), client: Client, w: Xid, reqs: seq<WaitCondition>, n: nat) {
    && w in r.0.awaits && Setting(s, r.0, client, w, reqs, r.0.awaits[w].armed)
    && (r.1 == Success ==> r.0.awaits[w].armed == n)
  }

  lemma SetupRound(s: State, r: (State, Status), client: Client, w: Xid, reqs: seq<WaitCondition>, n: nat, clock: Clock)
    requires n < |reqs| && SetUp(s, r, client, w, reqs, n)
    ensures SetUp(s, SetupNext(r, w, n, reqs[n], clock), client, w, reqs, n + 1)
  {
    if r.1 == Success {
      if CondStatus(r.0, w, n, reqs[n], clock) == Success {
        SetupStep(s, r.0, client, w, reqs, n, clock);
      } else {
        SetupFailure(s, r.0, client, w, reqs, n, clock);
      }
    }
  }

  lemma {:induction false} SetupSetting(s: State, client: Client, w: Xid, reqs: seq<WaitCondition>, n: nat,
      clock: Clock)
    requires Linked(s) && w !in s.awaits && n <= |reqs|
    ensures SetUp(s, Setup(Prologue(s, client, w, reqs), w, reqs, n, clock), client, w, reqs, n)
  {
    if n == 0 {
      PrologueSetting(s, client, w, reqs);
    } else {
      SetupSetting(s, client, w, reqs, n - 1, clock);
      SetupRound(s, Setup(Prologue(s, client, w, reqs), w, reqs, n - 1, clock), client, w, reqs, n - 1, clock);
    }
  }

  /** Two conditions of await w are on one list. */
  ghost predicate SharesList(s: State, w: Xid) {
    exists c, i: nat, j: nat :: c in s.counters && i < j && OnBoth(s.counters[c].triggers, w, i, j)
  }

  predicate OnBoth(list: seq<TriggerId>, w: Xid, i: nat, j: nat) {
    AwaitTrigger(w, i) in list && AwaitTrigger(w, j) in list
  }

  /** The request names a counter in two of its conditions. */
  ghost predicate NamesTwice(reqs: seq<WaitCondition>) {
    exists i, j :: 0 <= i < j < |reqs| && reqs[i].counter == reqs[j].counter
  }

  /** An Await that is set up has two conditions on one list exactly if it names a counter twice. */
  lemma SharesListIff(s: State, client: Client, w: Xid, reqs: seq<WaitCondition>, clock: Clock)
    requires Linked(s) && w !in s.awaits && AwaitStatus(s, client, w, reqs, clock) == Success
    ensures SharesList(Setup(Prologue(s, client, w, reqs), w, reqs, |reqs|, clock).0, w) <==> NamesTwice(reqs)
  {
    hide Setup, ListsBut;
    SetupSetting(s, client, w, reqs, |reqs|, clock);
    SettingShares(s, Setup(Prologue(s, client, w, reqs), w, reqs, |reqs|, clock).0, client, w, reqs);
  }

  lemma SettingShares(s: State, p: State, client: Client, w: Xid, reqs: seq<WaitCondition>)
    requires Setting(s, p, client, w, reqs, |reqs|)
    ensures SharesList(p, w) <==> NamesTwice(reqs)
  {
    hide Setting, OnBoth;
    if SharesList(p, w) {
      var c, i: nat, j: nat :| c in p.counters && i < j && OnBoth(p.counters[c].triggers, w, i, j);
      BothOn(p.counters[c].triggers, w, i, j);
      OnListNamed(s, p, client, w, reqs, c, i);
      OnListNamed(s, p, client, w, reqs, c, j);
      assert reqs[i].counter == reqs[j].counter;
    }
    if NamesTwice(reqs) {
      var i, j :| 0 <= i < j < |reqs| && reqs[i].counter == reqs[j].counter;
      var c := reqs[i].counter;
      OnListNamed(s, p, client, w, reqs, c, i);
      OnListNamed(s, p, client, w, reqs, c, j);
      BothOn(p.counters[c].triggers, w, i, j);
    }
  }

  lemma BothOn(list: seq<TriggerId>, w: Xid, i: nat, j: nat)
    ensures OnBoth(list, w, i, j) <==> AwaitTrigger(w, i) in list && AwaitTrigger(w, j) in list
  {
  }

  /** Condition i is on the list of c exactly if the request names c there. */
  lemma OnListNamed(s: State, p: State, client: Client, w: Xid, reqs: seq<WaitCondition>, c: Xid, i: nat)
    requires Setting(s, p, client, w, reqs, |reqs|)
    ensures c in p.counters && AwaitTrigger(w, i) in p.counters[c].triggers <==> i < |reqs| && reqs[i].counter == c
  {
    hide ListsBut;
    var t := AwaitTrigger(w, i);
    if i < |reqs| {
      assert Armed(p, t) && Trig(p, t).sync == Some(reqs[i].counter);
    } else {
      assert !Armed(p, t);
    }
  }

  /**
   * An Await that fails leaves every trigger list as it was, and every client counter, alarm, await,
   * ignore count and event; at most a system counter has been asked for its value.
   */
  lemma FailedAwait(s: State, client: Client, w: Xid, reqs: seq<WaitCondition>, clock: Clock)
    requires Linked(s) && NoneDying(s) && w !in s.awaits
    requires AwaitStatus(s, client, w, reqs, clock) != Success
    ensures var s' := AwaitRequest(s, client, w, reqs, clock);
      && OnlyCounters(s, s') && CountersKept(s, s') && SameLists(s, s')
      && forall c | c in s.counters && s.counters[c].kind.ClientCounter? :: s'.counters[c] == s.counters[c]
  {
    if reqs != [] {
      SetupSetting(s, client, w, reqs, |reqs|, clock);
      var p := Setup(Prologue(s, client, w, reqs), w, reqs, |reqs|, clock).0;
      var k := p.awaits[w].armed;
      FreeAwaitEffect(p, w);
      var s' := FreeAwait(p, w);
      assert s'.awaits == s.awaits;
      forall c | c in s.counters
        ensures Relisted(p.counters[c], s'.counters[c], s.counters[c].triggers)
      {
        assert Pruned(p.counters[c], w, k) == s.counters[c].triggers;
      }
    }
  }

  /** The state in which a successful Await looks whether a trigger is TRUE already. */
  lemma BlockedInv(s: State, p: State, client: Client, w: Xid, reqs: seq<WaitCondition>)
    requires Inv(s) && w !in s.awaits && Dispatched(s, client)
    requires Setting(s, p, client, w, reqs, |reqs|)
    requires forall i, j :: 0 <= i < j < |reqs| ==> reqs[i].counter != reqs[j].counter
    ensures Inv(Ignore(p, client))
  {
    var s' := Ignore(p, client);
    LinkedFrame(p, s');
    forall b | b in s'.alarms ensures AlarmOk(s', b) {
      AlarmOkKept(s, s', b);
    }
    assert AwaitComplete(s'.awaits[w]);
    forall x | x in s.awaits ensures s.awaits[x].client != client {
    }
    forall c | c in s'.ignore && c !in s'.gone ensures exists x :: x in s'.awaits && s'.awaits[x].client == c {
      if c != client {
        var x :| x in s.awaits && s.awaits[x].client == c;
        assert x in s'.awaits && s'.awaits[x].client == c;
      } else {
        assert w in s'.awaits && s'.awaits[w].client == c;
      }
    }
  }

  lemma AwaitInv(s: State, client: Client, w: Xid, reqs: seq<WaitCondition>, clock: Clock)
    requires Inv(s) && Legal(s, DoAwait(client, w, reqs, clock))
    ensures Inv(AwaitRequest(s, client, w, reqs, clock))
  {
    if AwaitStatus(s, client, w, reqs, clock) != Success {
      FailedAwait(s, client, w, reqs, clock);
      CountersKeptInv(s, AwaitRequest(s, client, w, reqs, clock));
    } else {
      SetupSetting(s, client, w, reqs, |reqs|, clock);
      var p := Setup(Prologue(s, client, w, reqs), w, reqs, |reqs|, clock).0;
      BlockedInv(s, p, client, w, reqs);
      var s1 := Ignore(p, client);
      var i := FirstTrue(s1, w, 0);
      if i < |s1.awaits[w].conds| {
        FireInv(s1, AwaitTrigger(w, i));
      }
    }
  }

  // ----- steps and runs -----

  lemma NewCounterLinked(s: State, s': State, c: Xid)
    requires Linked(s) && c !in s.counters && c in s'.counters && s'.counters[c].triggers == []
    requires s'.counters == s.counters[c := s'.counters[c]] && s'.alarms == s.alarms && s'.awaits == s.awaits
    ensures Linked(s')
  {
    assert forall t | Armed(s', t) :: Armed(s, t) && Trig(s', t) == Trig(s, t);
    forall d, t | d in s'.counters && t in s'.counters[d].triggers
      ensures Armed(s', t) && Trig(s', t).sync == Some(d)
    {
      assert d != c && Armed(s, t);
    }
    forall t | Armed(s', t) && Trig(s', t).sync.Some?
      ensures var d := Trig(s', t).sync.value; d in s'.counters && t in s'.counters[d].triggers
    {
      assert Armed(s, t) && Trig(s, t).sync.value in s.counters;
    }
  }

  lemma NewCounterInv(s: State, c: Xid, v: Int64, kind: CounterKind)
    requires Inv(s)
    ensures Inv(CreateCounter(s, c, v, kind))
  {
    if c != NONE && c !in s.counters && c !in s.alarms {
      var s' := CreateCounter(s, c, v, kind);
      NewCounterLinked(s, s', c);
      forall b | b in s'.alarms ensures AlarmOk(s', b) {
        assert AlarmOk(s, b) && Armed(s, AlarmTrigger(b));
        assert Trig(s, AlarmTrigger(b)).sync != Some(c);
      }
    }
  }

  lemma SetValueInv(s: State, c: Xid, v: Int64)
    requires Inv(s) && IsSystem(s, c)
    ensures Inv(SetValue(s, c, v))
  {
    CountersKeptInv(s, SetValue(s, c, v));
  }

  lemma GoneInv(s: State, client: Client)
    requires Inv(s)
    ensures Inv(s.(gone := s.gone + {client}))
  {
    var s' := s.(gone := s.gone + {client});
    LinkedFrame(s, s');
    forall b | b in s'.alarms ensures AlarmOk(s', b) {
      AlarmOkKept(s, s', b);
    }
  }

  predicate AlarmStep(step: Step) {
    step.DoCreateAlarm? || step.DoChangeAlarm? || step.DoDestroyAlarm? || step.ReapAlarm? || step.DoAwait? || step.ReapAwait?
  }

  lemma AlarmStepInv(s: State, step: Step)
    requires Inv(s) && Legal(s, step) && AlarmStep(step)
    ensures Inv(DoStep(s, step))
  {
    match step
    case DoAwait(client, w, reqs, clock) => AwaitInv(s, client, w, reqs, clock);
    case DoCreateAlarm(client, a, attrs, clock) => CreateAlarmInv(s, client, a, attrs, clock);
    case DoChangeAlarm(client, a, attrs, clock) => ChangeAlarmInv(s, client, a, attrs, clock);
    case DoDestroyAlarm(_, a) => if a in s.alarms { FreeAlarmInv(s, a); }
    case ReapAlarm(a) => if a in s.alarms { FreeAlarmInv(s, a); }
    case ReapAwait(w) => if w in s.awaits { FreeAwaitInv(s, w); }
  }

  lemma WakeupInv(s: State, c: Xid, v: Int64)
    requires Inv(s) && IsSystem(s, c)
    ensures Inv(ServertimeWakeup(s, c, v)) && Inv(CheckBrackets(s, c, v)) && IsSystem(CheckBrackets(s, c, v), c)
  {
    SetValueInv(s, c, v);
    ChangeCounterInv(s, c, v);
    StaysSystem(s, c, v);
  }

  lemma StaysSystem(s: State, c: Xid, v: Int64)
    requires Inv(s) && IsSystem(s, c)
    ensures IsSystem(SyncModel.ChangeCounter(s, c, v), c)
  {
    var s1 := SetValue(s, c, v);
    SameLinksLinked(s, s1);
    var s2 := FireAll(s1, True(s1, s.counters[c].triggers, s.counters[c].value));
    FireAllEffect(s1, True(s1, s.counters[c].triggers, s.counters[c].value));
    assert Relisted(s1.counters[c], s2.counters[c], s2.counters[c].triggers);
  }

  lemma IdleWakeupInv(s: State, c: Xid, v: Int64, reset: bool)
    requires Inv(s) && IsSystem(s, c)
    ensures Inv(IdleWakeup(s, c, v, reset))
  {
    hide Inv, CheckBrackets;
    WakeupInv(s, c, 0);
    WakeupInv(if reset && v != 0 then CheckBrackets(s, c, 0) else s, c, v);
  }

  lemma SetCounterInv(s: State, c: Xid, v: Int64)
    requires Inv(s)
    ensures Inv(SetCounter(s, c, v)) && Inv(AddToCounter(s, c, v))
  {
    hide Inv, SyncModel.ChangeCounter;
    if c in s.counters {
      ChangeCounterInv(s, c, v);
      if InRange(v + s.counters[c].value) {
        ChangeCounterInv(s, c, v + s.counters[c].value);
      }
    }
  }

  lemma CounterStepInv(s: State, step: Step)
    requires Inv(s) && Legal(s, step) && !AlarmStep(step)
    ensures Inv(DoStep(s, step))
  {
    match step
    case DoCreateCounter(client, c, v) => NewCounterInv(s, c, v, ClientCounter(client));
    case DoCreateSystemCounter(c, v, ct) => NewCounterInv(s, c, v, SystemCounter(ct, NO_BRACKETS));
    case DoSetCounter(_, c, v) => SetCounterInv(s, c, v);
    case DoChangeCounter(_, c, v) => SetCounterInv(s, c, v);
    case DoQueryCounter(_, c, clock) => if IsSystem(s, c) { SetValueInv(s, c, clock(c)); }
    case DoDestroyCounter(_, c) => if c in s.counters { FreeCounterInv(s, c); }
    case DoIdleWakeup(c, v, reset) => IdleWakeupInv(s, c, v, reset);
    case DoServertimeWakeup(c, v) => WakeupInv(s, c, v);
    case ClientGone(client) => GoneInv(s, client);
    case ReapCounter(c) => if c in s.counters { FreeCounterInv(s, c); }
  }

  /** Every step the server can take keeps the invariant. */
  lemma StepInv(s: State, step: Step)
    requires Inv(s) && Legal(s, step)
    ensures Inv(DoStep(s, step))
  {
    if AlarmStep(step) {
      AlarmStepInv(s, step);
    } else {
      CounterStepInv(s, step);
    }
  }

  lemma {:induction false} RunInv(s: State, steps: seq<Step>)
    requires Inv(s) && LegalRun(s, steps)
    ensures Inv(Run(s, steps))
    decreases steps
  {
    if steps != [] {
      StepInv(s, steps[0]);
      RunInv(DoStep(s, steps[0]), steps[1..]);
    }
  }

  /** An alarm's trigger is on the list of its own counter once, and on no other list. */
  ghost predicate ListedOnce(s: State, t: TriggerId, c: Xid) {
    && c in s.counters
    && (exists i :: 0 <= i < |s.counters[c].triggers| && s.counters[c].triggers[i] == t
                    && forall j :: 0 <= j < |s.counters[c].triggers| && s.counters[c].triggers[j] == t ==> j == i)
    && forall d :: d in s.counters && t in s.counters[d].triggers ==> d == c
  }

  /** An alarm between requests, in the terms of the protocol. */
  ghost predicate AlarmInOrder(s: State, a: Xid)
    requires a in s.alarms
  {
    var trig := s.alarms[a].trigger;
    && trig.sync.Some? && ListedOnce(s, AlarmTrigger(a), trig.sync.value)
    && !WrongSign(trig.testType, s.alarms[a].delta)
    && (s.counters[trig.sync.value].kind.ClientCounter? ==>
          var v := s.counters[trig.sync.value].value; !CheckValue(trig.testType, v, v, trig.testValue))
  }

  lemma ActiveInOrder(s: State, a: Xid)
    requires Inv(s) && a in s.alarms && s.alarms[a].state == Active
    ensures AlarmInOrder(s, a)
  {
    var t := AlarmTrigger(a);
    assert AlarmOk(s, a) && Armed(s, t);
    var c := Trig(s, t).sync.value;
    var list := s.counters[c].triggers;
    assert t in list;
    var i :| 0 <= i < |list| && list[i] == t;
    assert forall j :: 0 <= j < |list| && list[j] == t ==> j == i;
    assert ListedOnce(s, t, c);
  }

  /**
   * The alarm invariant over every legal run from the start of the server: an Active alarm has a live
   * counter, its trigger is on that counter's list once and on no other, its delta agrees with its test
   * type, and on a counter of a client its trigger is FALSE between requests.
   */
  lemma ActiveAlarms(steps: seq<Step>, a: Xid)
    requires LegalRun(INITIAL, steps)
    ensures var s := Run(INITIAL, steps); a in s.alarms && s.alarms[a].state == Active ==> AlarmInOrder(s, a)
  {
    RunInv(INITIAL, steps);
    var s := Run(INITIAL, steps);
    if a in s.alarms && s.alarms[a].state == Active {
      ActiveInOrder(s, a);
    }
  }

  /** In every legal run a live client is ignored if and only if it has an outstanding await. */
  lemma IgnoredIffWaiting(steps: seq<Step>, client: Client)
    requires LegalRun(INITIAL, steps)
    ensures var s := Run(INITIAL, steps);
      client !in s.gone ==>
        (client in s.ignore <==> exists w :: w in s.awaits && s.awaits[w].client == client)
  {
    RunInv(INITIAL, steps);
  }
}
