/**
 * What the requests come to, in terms of the values that clients give and get: which alarms and awaits a new value of a
 * counter sets off, what an alarm is after it has been created or changed, and what an Await waits for.
 */
module SyncOutcomes {
  import opened Options
  import opened SyncTypes
  import opened SyncBrackets
  import opened SyncModel
  import opened SyncRequests
  import opened SyncLinks
  import opened SyncInit
  import opened SyncInvariants
  import SyncRuns
  import opened SyncAlarms
  import opened SyncDestroy

  // ----- a counter changes -----

  /** The test becomes TRUE when the counter goes from `was` to `v`. */
  predicate Meets(test: TestType, was: int, v: int, testValue: int) {
    match test
    case PositiveTransition => was < testValue <= v
    case NegativeTransition => v <= testValue < was
    case PositiveComparison => testValue <= v
    case NegativeComparison => v <= testValue
    case OtherTest(_) => false
  }

  /** The events sent between s and s'. */
  function Sent(s: State, s': State): seq<Event> {
    if |s.log| <= |s'.log| then s'.log[|s.log|..] else []
  }

  lemma SentTwice(s: State, s1: State, s': State, a: Xid)
    requires s.log <= s1.log <= s'.log
    ensures s.log <= s'.log && Notices(Sent(s, s'), a) == Notices(Sent(s, s1), a) + Notices(Sent(s1, s'), a)
  {
    assert Sent(s, s') == Sent(s, s1) + Sent(s1, s');
    NoticesOf(Sent(s, s1), Sent(s1, s'), a);
  }

  /** Only an alarm's own trigger makes it say something. */
  lemma FireSends(s: State, t: TriggerId, a: Xid)
    requires Linked(s) && NoneDying(s)
    ensures s.log <= Fire(s, t).log && (t != AlarmTrigger(a) ==> Notices(Sent(s, Fire(s, t)), a) == [])
  {
    hide CounterEvents, EventConds;
    match t
    case AlarmTrigger(b) =>
      if b in s.alarms {
        FireAlarmSends(s, b);
        if t != AlarmTrigger(a) {
          NoNotices(Sent(s, Fire(s, t)), a);
        }
      }
    case AwaitTrigger(w, _) =>
      if w in s.awaits {
        TellLog(s, w);
        var aw := s.awaits[w];
        EventsAreReplies(s, aw.client, EventConds(s, aw.conds[..aw.armed]));
        NoNotices(Sent(s, Fire(s, t)), a);
      }
  }

  lemma FireAlarmSends(s: State, a: Xid)
    requires a in s.alarms
    ensures s.log <= FireAlarm(s, a).log && forall e | e in Sent(s, FireAlarm(s, a)) :: e.AlarmNotify? && e.alarm == a
  {
    hide FireAlarm, GoneOff;
    FireAlarmForm(s, a);
  }

  lemma EventsAreReplies(s: State, client: Client, conds: seq<Condition>)
    ensures forall e | e in CounterEvents(s, client, conds) :: e.CounterNotify? && e.client == client
  {
  }

  /** What firing does to an alarm depends on the alarm and the value of its counter. */
  lemma FireAlarmSame(s: State, p: State, a: Xid)
    requires a in s.alarms && a in p.alarms && p.alarms[a] == s.alarms[a]
    requires s.alarms[a].trigger.sync.Some? ==>
               ValueOf(p, s.alarms[a].trigger.sync.value) == ValueOf(s, s.alarms[a].trigger.sync.value)
    ensures FireAlarm(p, a).alarms[a] == FireAlarm(s, a).alarms[a]
    ensures s.log <= FireAlarm(s, a).log && p.log <= FireAlarm(p, a).log
    ensures Sent(p, FireAlarm(p, a)) == Sent(s, FireAlarm(s, a))
  {
    hide FireAlarm;
    FireAlarmSends(s, a);
    FireAlarmSends(p, a);
    FireAlarmForm(s, a);
    FireAlarmForm(p, a);
  }

  /** The alarm after it has gone off */
  function GoneOff(alarm: Alarm, v: Int64): Alarm {
    var trig := alarm.trigger;
    if trig.sync.None? || (alarm.delta == 0 && trig.testType.Comparison()) then alarm.(state := Inactive)
    else if alarm.state != Active || Spins(alarm, v) then alarm
    else
      match Advance(trig.check, v, trig.testValue, alarm.delta)
      case Some(next) => alarm.(trigger := trig.(testValue := next))
      case None => alarm.(state := Inactive)
  }

  lemma FireAlarmForm(s: State, a: Xid)
    requires a in s.alarms
    ensures var alarm := s.alarms[a];
      var v := if alarm.trigger.sync.Some? then ValueOf(s, alarm.trigger.sync.value) else 0;
      if alarm.state != Active || Spins(alarm, v) then FireAlarm(s, a) == s
      else
        && a in FireAlarm(s, a).alarms && FireAlarm(s, a).alarms[a] == GoneOff(alarm, v)
        && FireAlarm(s, a).log
           == s.log + [AlarmNotify(a, v, alarm.trigger.testValue, GoneOff(alarm, v).state,
                                   (if alarm.events then [alarm.client] else []) + alarm.eventClients)]
  {
    hide CheckValue;
  }

  lemma FiredValue(s: State, p: State, c: Xid)
    requires Fired(s, p)
    ensures ValueOf(p, c) == ValueOf(s, c)
  {
    if c in s.counters {
      assert Relisted(s.counters[c], p.counters[c], p.counters[c].triggers);
    }
  }

  /** An alarm goes off in a walk as it would have on its own, and only if its trigger is chosen. */
  lemma {:induction false} FireAllSends(s: State, ts: seq<TriggerId>, a: Xid)
    requires Linked(s) && NoneDying(s) && NoDup(ts) && a in s.alarms
    ensures a in FireAll(s, ts).alarms && s.log <= FireAll(s, ts).log
    ensures AlarmTrigger(a) !in ts ==>
              FireAll(s, ts).alarms[a] == s.alarms[a] && Notices(Sent(s, FireAll(s, ts)), a) == []
    ensures AlarmTrigger(a) in ts ==>
              && FireAll(s, ts).alarms[a] == FireAlarm(s, a).alarms[a]
              && Notices(Sent(s, FireAll(s, ts)), a) == Notices(Sent(s, FireAlarm(s, a)), a)
  {
    hide Fire, FireAlarm, Notices, Linked;
    if ts == [] {
      assert Sent(s, s) == [];
      NoNotices([], a);
    } else {
      var n := |ts| - 1;
      var t, p := ts[n], FireAll(s, ts[..n]);
      assert ts == ts[..n] + [t] && t !in ts[..n];
      FireAllSends(s, ts[..n], a);
      FireAllEffect(s, ts[..n]);
      FireEffect(p, t);
      FireSends(p, t, a);
      SentTwice(s, p, FireAll(s, ts), a);
      if t == AlarmTrigger(a) {
        if s.alarms[a].trigger.sync.Some? {
          FiredValue(s, p, s.alarms[a].trigger.sync.value);
        }
        FireAlarmSame(s, p, a);
        FireIsAlarm(p, a);
      }
    }
  }

  lemma FireIsAlarm(s: State, a: Xid)
    requires a in s.alarms
    ensures Fire(s, AlarmTrigger(a)) == FireAlarm(s, a)
  {
  }

  /** In order, a trigger is chosen exactly if its test becomes TRUE. */
  lemma ChosenIff(s: State, c: Xid, v: Int64, t: TriggerId)
    requires Inv(s) && c in s.counters && t in s.counters[c].triggers && Has(s, t) && Checks(Trig(s, t))
    ensures Trig(s, t).sync == Some(c)
    ensures t in True(SetValue(s, c, v), s.counters[c].triggers, s.counters[c].value)
       <==> Meets(Trig(s, t).testType, s.counters[c].value, v, Trig(s, t).testValue)
  {
    assert Armed(s, t) && Trig(s, t).sync == Some(c);
    assert Has(SetValue(s, c, v), t) && Trig(SetValue(s, c, v), t) == Trig(s, t);
  }

  /**
   * A new value of a counter sets an Active alarm on it off, once, if and only if its test becomes TRUE: it sends the new
   * value, the old test value and its new state to its owner and to those who have selected its events. An alarm that is
   * not Active, on another counter, or FALSE says nothing and stays as it is.
   */
  lemma ChangeTellsAlarm(s: State, c: Xid, v: Int64, a: Xid)
    requires Inv(s) && c in s.counters && a in s.alarms
    ensures var s' := SyncModel.ChangeCounter(s, c, v);
      var was := s.alarms[a];
      && a in s'.alarms && s.log <= s'.log && c in s'.counters && s'.counters[c].value == v
      && var sent := Notices(Sent(s, s'), a);
      if was.state == Active && was.trigger.sync == Some(c)
         && Meets(was.trigger.testType, s.counters[c].value, v, was.trigger.testValue) then
        sent == [AlarmNotify(a, v, was.trigger.testValue, s'.alarms[a].state,
                             (if was.events then [was.client] else []) + was.eventClients)]
      else sent == [] && s'.alarms[a] == was
  {
    hide FireAlarm, FireAll, True, Notices, Linked, Complete, Blocking, Meets, Refresh, Advance;
    var was := s.alarms[a];
    var s1 := SetValue(s, c, v);
    var list := s.counters[c].triggers;
    var ts := True(s1, list, s.counters[c].value);
    SameLinksLinked(s, s1);
    assert NoDup(list) by { ListNoDup(s, c); }
    TrueInOrder(s1, list, s.counters[c].value);
    FireAllSends(s1, ts, a);
    FireAllEffect(s1, ts);
    var s2 := FireAll(s1, ts);
    FiredValue(s1, s2, c);
    RefreshFrame(s2, c);
    assert AlarmOk(s, a);
    OnItsList(s, c, a);
    if AlarmTrigger(a) in list {
      ChosenIff(s, c, v, AlarmTrigger(a));
    }
    AlarmSends(s1, a);
  }

  lemma ListNoDup(s: State, c: Xid)
    requires Linked(s) && c in s.counters
    ensures NoDup(s.counters[c].triggers)
  {
  }

  lemma AlarmSends(s: State, a: Xid)
    requires a in s.alarms && Agrees(s.alarms[a])
    ensures s.log <= FireAlarm(s, a).log
    ensures s.alarms[a].state != Active ==>
              FireAlarm(s, a).alarms[a] == s.alarms[a] && Notices(Sent(s, FireAlarm(s, a)), a) == []
    ensures s.alarms[a].state == Active && s.alarms[a].trigger.sync.Some? ==>
              Notices(Sent(s, FireAlarm(s, a)), a)
              == [AlarmNotify(a, ValueOf(s, s.alarms[a].trigger.sync.value), s.alarms[a].trigger.testValue,
                              FireAlarm(s, a).alarms[a].state,
                              (if s.alarms[a].events then [s.alarms[a].client] else []) + s.alarms[a].eventClients)]
  {
    hide FireAlarm;
    FireAlarmSends(s, a);
    if s.alarms[a].state == Active {
      AlarmGoesOff(s, a);
      var e := Sent(s, FireAlarm(s, a));
      assert |e| == 1 && Notices(e[1..], a) == [];
    } else {
      FireAlarmEffect(s, a);
    }
  }

  lemma {:induction false} FireAllKeepsAwait(s: State, ts: seq<TriggerId>, w: Xid)
    requires Linked(s) && NoneDying(s) && w in s.awaits
    requires forall t | t in ts :: !(t.AwaitTrigger? && t.await == w)
    ensures w in FireAll(s, ts).awaits
  {
    hide FireAlarm, FireAwait, Linked;
    if ts != [] {
      var n := |ts| - 1;
      assert ts == ts[..n] + [ts[n]];
      FireAllKeepsAwait(s, ts[..n], w);
      FireAllEffect(s, ts[..n]);
      var p := FireAll(s, ts[..n]);
      if ts[n].AlarmTrigger? {
        FireEffect(p, ts[n]);
      } else if ts[n].await in p.awaits {
        FireAwaitEffect(p, ts[n].await);
      }
    }
  }

  /**
   * A new value of a counter ends an await exactly if the test of its condition on that counter becomes TRUE; a client
   * whose await goes on, or waits on other counters, stays ignored.
   */
  lemma ChangeEndsAwait(s: State, c: Xid, v: Int64, w: Xid)
    requires Inv(s) && c in s.counters && w in s.awaits
    ensures var s' := SyncModel.ChangeCounter(s, c, v);
      var conds := s.awaits[w].conds;
      && (w !in s'.awaits <==>
            exists k :: 0 <= k < |conds| && conds[k].trigger.sync == Some(c)
              && Meets(conds[k].trigger.testType, s.counters[c].value, v, conds[k].trigger.testValue))
      && (w in s'.awaits ==> s'.awaits[w] == s.awaits[w])
      && (s.awaits[w].client !in s.gone ==> (s.awaits[w].client in s'.ignore <==> w in s'.awaits))
  {
    hide FireAlarm, FireAwait, FireAll, True, Linked, Meets, Refresh, Blocking;
    var s1 := SetValue(s, c, v);
    var list, conds := s.counters[c].triggers, s.awaits[w].conds;
    var ts := True(s1, list, s.counters[c].value);
    SameLinksLinked(s, s1);
    FireAllEffect(s1, ts);
    var s2 := FireAll(s1, ts);
    RefreshFrame(s2, c);
    ChangeCounterInv(s, c, v);
    if s.awaits[w].client !in s.gone {
      StillIgnored(s, SyncModel.ChangeCounter(s, c, v), w);
    }
    assert AwaitComplete(s.awaits[w]);
    forall k | 0 <= k < |conds| && conds[k].trigger.sync == Some(c)
      ensures AwaitTrigger(w, k) in ts
        <==> Meets(conds[k].trigger.testType, s.counters[c].value, v, conds[k].trigger.testValue)
    {
      CondOnList(s, c, w, k);
      ChosenIff(s, c, v, AwaitTrigger(w, k));
    }
    forall t | t in ts && t.AwaitTrigger? && t.await == w
      ensures t.index < |conds| && conds[t.index].trigger.sync == Some(c)
    {
      OnListArmed(s, c, t);
    }
    if forall t | t in ts :: !(t.AwaitTrigger? && t.await == w) {
      FireAllKeepsAwait(s1, ts, w);
    }
  }

  lemma CondOnList(s: State, c: Xid, w: Xid, k: nat)
    requires Inv(s) && c in s.counters && w in s.awaits && k < |s.awaits[w].conds|
    requires s.awaits[w].conds[k].trigger.sync == Some(c)
    ensures AwaitTrigger(w, k) in s.counters[c].triggers && Has(s, AwaitTrigger(w, k))
    ensures Trig(s, AwaitTrigger(w, k)) == s.awaits[w].conds[k].trigger && Checks(s.awaits[w].conds[k].trigger)
  {
    assert AwaitComplete(s.awaits[w]);
    assert Armed(s, AwaitTrigger(w, k));
  }

  lemma StillIgnored(s: State, s': State, w: Xid)
    requires Blocking(s) && Blocking(s') && w in s.awaits && s.awaits[w].client !in s.gone && s'.gone == s.gone
    requires forall x | x in s'.awaits :: x in s.awaits && s'.awaits[x] == s.awaits[x]
    ensures s.awaits[w].client in s'.ignore <==> w in s'.awaits
  {
    var client := s.awaits[w].client;
    if client in s'.ignore {
      var x :| x in s'.awaits && s'.awaits[x].client == client;
    }
  }

  lemma FreeAlarmLog(s: State, a: Xid)
    requires a in s.alarms
    ensures FreeAlarm(s, a).log == NotifyAlarm(SetAlarm(s, a, s.alarms[a].(state := Destroyed)), a).log
  {
    hide Refresh;
    var s1 := NotifyAlarm(SetAlarm(s, a, s.alarms[a].(state := Destroyed)), a);
    if Trig(s, AlarmTrigger(a)).sync.Some? && Trig(s, AlarmTrigger(a)).sync.value in s.counters {
      DeleteFrame(s1, AlarmTrigger(a));
    }
  }

  /** A destroyed alarm says so once, is gone and off the list of its counter, and changes nothing else. */
  lemma FreeAlarmTells(s: State, a: Xid)
    requires Linked(s) && a in s.alarms
    ensures var s' := FreeAlarm(s, a);
      var alarm := s.alarms[a];
      var sync := alarm.trigger.sync;
      && (sync.Some? ==> sync.value in s.counters)
      && s'.log == s.log + [AlarmNotify(a, if sync.Some? then s.counters[sync.value].value else 0,
                                        alarm.trigger.testValue, Destroyed,
                                        (if alarm.events then [alarm.client] else []) + alarm.eventClients)]
      && s'.alarms == s.alarms - {a} && s'.awaits == s.awaits && s'.ignore == s.ignore && s'.gone == s.gone
      && s'.counters.Keys == s.counters.Keys
      && forall d | d in s.counters ::
           && s'.counters[d].value == s.counters[d].value
           && forall u :: u in s'.counters[d].triggers <==> u in s.counters[d].triggers && u != AlarmTrigger(a)
  {
    hide FreeAlarm, Linked;
    FreeAlarmEffect(s, a);
    FreeAlarmLog(s, a);
    SyncRuns.AlarmOnOwnList(s, a);
    var s' := FreeAlarm(s, a);
    forall d | d in s.counters
      ensures s'.counters[d].value == s.counters[d].value
      ensures forall u :: u in s'.counters[d].triggers <==> u in s.counters[d].triggers && u != AlarmTrigger(a)
    {
      ListNoDup(s, d);
      WithoutMembers(s.counters[d].triggers, AlarmTrigger(a));
    }
  }

  /** ChangeCounter adds, and both requests leave system counters and what does not fit alone. */
  lemma CounterRequests(s: State, c: Xid, v: Int64)
    requires Inv(s)
    ensures c !in s.counters || s.counters[c].kind.SystemCounter? ==> SetCounter(s, c, v) == s && AddToCounter(s, c, v) == s
    ensures c in s.counters && s.counters[c].kind.ClientCounter? ==>
              && c in SetCounter(s, c, v).counters && SetCounter(s, c, v).counters[c].value == v
              && var sum := s.counters[c].value + v;
              AddToCounter(s, c, v) == if INT64_MIN <= sum <= INT64_MAX then SetCounter(s, c, sum) else s
  {
    hide Inv, FireAll, True, Refresh;
    if c in s.counters {
      ChangedValue(s, c, v);
    }
  }

  /** A counter is created with the value given and no triggers, unless its identifier is 0 or taken. */
  lemma CounterCreated(s: State, client: Client, c: Xid, v: Int64)
    ensures var s' := DoStep(s, DoCreateCounter(client, c, v));
      if c == 0 || c in s.counters || c in s.alarms then s' == s
      else s' == s.(counters := s'.counters) && c in s'.counters && s'.counters == s.counters[c := s'.counters[c]]
           && s'.counters[c] == Counter(v, [], false, ClientCounter(client))
  {
  }

  /** A counter that is destroyed, or reaped with its client, is gone; system counters cannot be destroyed by request. */
  lemma CounterGone(s: State, client: Client, c: Xid)
    requires Inv(s)
    ensures c !in DoStep(s, ReapCounter(c)).counters
    ensures c in DoStep(s, DoDestroyCounter(client, c)).counters <==> c in s.counters && s.counters[c].kind.SystemCounter?
  {
    hide Inv, FreeCounter, AllTold, Settled;
    if c in s.counters {
      FreeCounterTells(s, c);
    }
  }

  lemma AlarmAndAwaitGone(s: State, client: Client, x: Xid)
    requires Linked(s)
    ensures x !in DoStep(s, ReapAlarm(x)).alarms && x !in DoStep(s, DoDestroyAlarm(client, x)).alarms
    ensures x !in DoStep(s, ReapAwait(x)).awaits
  {
    hide Linked, FreeAlarm, FreeAwait, Relisted, Without, OffDying;
    if x in s.alarms {
      FreeAlarmEffect(s, x);
    }
    if x in s.awaits {
      FreeAwaitEffect(s, x);
    }
  }

  lemma ChangedValue(s: State, c: Xid, v: Int64)
    requires Inv(s) && c in s.counters
    ensures var s' := SyncModel.ChangeCounter(s, c, v); c in s'.counters && s'.counters[c].value == v
  {
    hide FireAll, True, Refresh, Linked, Complete, Blocking, AlarmsOk;
    var s1 := SetValue(s, c, v);
    SameLinksLinked(s, s1);
    var ts := True(s1, s.counters[c].triggers, s.counters[c].value);
    FireAllEffect(s1, ts);
    FiredValue(s1, FireAll(s1, ts), c);
    RefreshFrame(FireAll(s1, ts), c);
  }

  /**
   * With brackets of its value and list, SERVERTIME does not sleep through a trigger that becomes TRUE, unless it is one
   * of those that a counter that never decreases can miss.
   */
  lemma ServertimeWakes(s: State, c: Xid, now: Int64, t: Trigger)
    requires IsSystem(s, c) && s.counters[c].kind.ct == NeverDecreases && s.counters[c].value <= now
    requires s.counters[c].kind.brackets
          == NarrowAll(NeverDecreases, s.counters[c].value, Triggers(s, s.counters[c].triggers))
    requires t in Triggers(s, s.counters[c].triggers) && !ComparisonTrue(s.counters[c].value, t)
    requires !BlindRising(s.counters[c].value, s.counters[c].kind.brackets, t)
    ensures Meets(t.testType, s.counters[c].value, now, t.testValue) ==>
              ServertimeWakeup(s, c, now) == SyncModel.ChangeCounter(s, c, now)
    ensures (s.counters[c].kind.brackets.greater.None? || now < s.counters[c].kind.brackets.greater.value) ==>
              ServertimeWakeup(s, c, now) == s
  {
    hide NarrowAll, Triggers, BlindRising, CheckValue, Meets, Rising, FiresDuring, AllQuietAbove, SyncModel.ChangeCounter;
    var v, b := s.counters[c].value, s.counters[c].kind.brackets;
    BracketsSoundRising(v, Triggers(s, s.counters[c].triggers), t);
    OneReading(v, now, b, t);
    if !QuietAbove(b, now) {
      WakesUp(s, c, now);
    }
    MeetsIsCheck(t.testType, v, now, t.testValue);
  }

  lemma WakesUp(s: State, c: Xid, now: Int64)
    requires IsSystem(s, c) && !QuietAbove(s.counters[c].kind.brackets, now)
    ensures ServertimeWakeup(s, c, now) == SyncModel.ChangeCounter(s, c, now)
  {
  }

  lemma MeetsIsCheck(test: TestType, was: Int64, v: Int64, testValue: Int64)
    ensures Meets(test, was, v, testValue) <==> CheckValue(test, v, was, testValue)
  {
  }

  lemma OneReading(v: Int64, now: Int64, b: Brackets, t: Trigger)
    requires v <= now
    ensures Rising(v, [now]) && (FiresDuring(t, v, [now]) <==> CheckValue(t.testType, now, v, t.testValue))
    ensures QuietAbove(b, now) ==> AllQuietAbove(b, [now])
  {
    assert [now][0] == now && [now][1..] == [];
  }

  // ----- an alarm is created or changed -----

  predicate Hears(alarm: Alarm, client: Client) {
    if client == alarm.client then alarm.events else client in alarm.eventClients
  }

  /** Each client is told at most once, and the owner not through the list. */
  predicate HearsOnce(alarm: Alarm) {
    NoDup(alarm.eventClients) && alarm.client !in alarm.eventClients
  }

  lemma {:induction false} RemoveMembers(clients: seq<Client>, c: Client)
    requires NoDup(clients)
    ensures NoDup(Remove(clients, c))
    ensures forall d :: d in Remove(clients, c) <==> d in clients && d != c
  {
    if clients != [] {
      assert clients == [clients[0]] + clients[1..];
      if clients[0] != c {
        RemoveMembers(clients[1..], c);
        assert clients[0] !in Remove(clients[1..], c);
      }
    }
  }

  /** A client hears of the alarm afterwards exactly if it has asked to, and for the others nothing changes. */
  lemma SelectsEvents(alarm: Alarm, client: Client, wants: bool)
    requires HearsOnce(alarm)
    ensures var alarm' := SelectEvents(alarm, client, wants);
      && HearsOnce(alarm') && (Hears(alarm', client) <==> wants)
      && (forall d :: d != client ==> (Hears(alarm', d) <==> Hears(alarm, d)))
      && alarm' == alarm.(events := alarm'.events, eventClients := alarm'.eventClients)
  {
    RemoveMembers(alarm.eventClients, client);
  }

  /** What a request reads from a counter: a system counter is asked, and a client's has the value it was given. */
  function Read(s: State, c: Xid, clock: Clock): Int64
    requires c in s.counters
  {
    if s.counters[c].kind.SystemCounter? then clock(c) else s.counters[c].value
  }

  /** What a request says about an attribute, or what it was before */
  function Or<T>(asked: Option<T>, was: T): T {
    match asked
    case Some(x) => x
    case None => was
  }

  /** The counter that the alarm is on after the request: 0 names none. */
  function CounterAsked(was: Option<Xid>, counter: Option<Xid>): Option<Xid> {
    match counter
    case Some(c) => if c == 0 then None else Some(c)
    case None => was
  }

  /** The request names an attribute that there is not, or asks for events with something other than yes or no. */
  predicate BadMask(attrs: Attributes) {
    attrs.unknown || (attrs.events.Some? && attrs.events.value !in {0, 1})
  }

  /** The delta asked for would take the test value away from the side on which the test is FALSE. */
  predicate WrongWay(was: Alarm, attrs: Attributes) {
    var test, delta := Or(attrs.testType, was.trigger.testType), Or(attrs.delta, was.delta);
    (attrs.delta.Some? || attrs.testType.Some?) &&
    ((test in {PositiveTransition, PositiveComparison} && delta < 0)
     || (test in {NegativeTransition, NegativeComparison} && delta > 0))
  }

  /** The error that a request for an alarm gets, the first that applies */
  function Refusal(s: State, was: Alarm, attrs: Attributes, clock: Clock): Status {
    var sync := CounterAsked(was.trigger.sync, attrs.counter);
    var valueType, value := Or(attrs.valueType, was.trigger.valueType), Or(attrs.value, was.trigger.waitValue);
    var relative := (attrs.valueType.Some? || attrs.value.Some?) && valueType != Absolute;
    if BadMask(attrs) then BadValue
    else if WrongWay(was, attrs) then BadMatch
    else if sync.Some? && sync.value !in s.counters then BadCounter
    else if attrs.valueType.Some? && valueType != Absolute && valueType != Relative then BadValue
    else if relative && sync.None? then BadMatch
    else if relative && !(INT64_MIN <= Read(s, sync.value, clock) + value <= INT64_MAX) then BadValue
    else if attrs.testType.Some? && attrs.testType.value.OtherTest? then BadValue
    else Success
  }

  predicate Acceptable(s: State, was: Alarm, attrs: Attributes, clock: Clock) {
    Refusal(s, was, attrs, clock) == Success
  }

  lemma RefusedFor(s: State, a: Xid, attrs: Attributes, clock: Clock)
    requires a in s.alarms && (s.alarms[a].trigger.sync.Some? ==> s.alarms[a].trigger.sync.value in s.counters)
    ensures ChangeStatus(s, a, attrs, clock) == Refusal(s, s.alarms[a], attrs, clock)
  {
    InitRefuses(s, Wanted(s.alarms[a].trigger, attrs), Get(attrs.counter, NONE), attrs.Mask(), clock);
    hide InitStatus;
  }

  /** The alarm is as the request asks, and as it was where the request does not say. */
  predicate AsAsked(s: State, was: Alarm, now: Alarm, attrs: Attributes, clock: Clock) {
    var sync := CounterAsked(was.trigger.sync, attrs.counter);
    && (sync.Some? ==> sync.value in s.counters)
    && now.client == was.client && now.delta == Or(attrs.delta, was.delta)
    && now.trigger.sync == sync && now.trigger.testType == Or(attrs.testType, was.trigger.testType)
    && now.trigger.valueType == Or(attrs.valueType, was.trigger.valueType)
    && now.trigger.waitValue == Or(attrs.value, was.trigger.waitValue)
    && now.trigger.testValue
       == (if attrs.valueType.None? && attrs.value.None? then was.trigger.testValue
           else if now.trigger.valueType == Absolute then now.trigger.waitValue
           else if sync.Some? then Read(s, sync.value, clock) + now.trigger.waitValue else 0)
  }

  lemma ArrivingAsked(s: State, a: Xid, attrs: Attributes, clock: Clock)
    requires a in s.alarms && (s.alarms[a].trigger.sync.Some? ==> s.alarms[a].trigger.sync.value in s.counters)
    requires ChangeStatus(s, a, attrs, clock) == Success
    ensures var now := s.alarms[a].(trigger := SyncRuns.Arriving(s, a, attrs, clock),
                                    delta := Get(attrs.delta, s.alarms[a].delta));
      AsAsked(s, s.alarms[a], now, attrs, clock)
  {
    hide Query, Target, Wrap, InRange;
    var trig := Wanted(s.alarms[a].trigger, attrs);
    assert InitStatus(s, trig, Get(attrs.counter, NONE), attrs.Mask(), clock) == Success;
    if attrs.valueType.Some? || attrs.value.Some? {
      InitTarget(s, trig, Get(attrs.counter, NONE), attrs.Mask(), clock);
    }
  }

  /** The alarm record after a successful SyncChangeAlarmAttributes */
  lemma AttributesRecord(s: State, client: Client, a: Xid, attrs: Attributes, clock: Clock)
    requires Linked(s) && a in s.alarms && ChangeStatus(s, a, attrs, clock) == Success
    ensures var s' := ChangeAttributes(s, client, a, attrs, clock);
      && a in s'.alarms && s'.log == s.log
      && s'.alarms[a] == Selected(s, client, a, attrs).alarms[a].(
           trigger := SyncRuns.Arriving(s, a, attrs, clock), delta := Get(attrs.delta, s.alarms[a].delta), state := Active)
  {
    hide ChangeAttributes, ChangeStatus, InitSuccess, InitStatus, Linked, Moved, CountersKept, OnOwnList, Relocated,
      Installed, SelectEvents, Wanted, SyncRuns.Arriving;
    var t, counter, ch := AlarmTrigger(a), Get(attrs.counter, NONE), attrs.Mask();
    SyncRuns.AttributesEffect(s, client, a, attrs, clock);
    var s1 := Committed(s, client, a, attrs);
    SyncRuns.CommittedLinked(s, client, a, attrs);
    SyncRuns.StatusSame(s, s1, a, attrs, clock);
    InitSuccessEffect(s1, t, counter, ch, clock);
    SyncRuns.AttributesUnfold(s, client, a, attrs, clock);
  }

  /**
   * After a successful SyncChangeAlarmAttributes the alarm is Active and as asked for; its events are selected for the
   * client if the request says so.
   */
  lemma AttributesAsked(s: State, client: Client, a: Xid, attrs: Attributes, clock: Clock)
    requires Linked(s) && a in s.alarms && ChangeStatus(s, a, attrs, clock) == Success
    ensures var s' := ChangeAttributes(s, client, a, attrs, clock);
      && a in s'.alarms && s'.alarms[a].state == Active && AsAsked(s, s.alarms[a], s'.alarms[a], attrs, clock)
      && s'.log == s.log
  {
    hide ChangeAttributes, ChangeStatus, Linked, SelectEvents, Wanted, SyncRuns.Arriving, Query, OnOwnList;
    SyncRuns.AlarmOnOwnList(s, a);
    ArrivingAsked(s, a, attrs, clock);
    AttributesRecord(s, client, a, attrs, clock);
    SelectedSame(s, client, a, attrs);
  }

  lemma SelectedSame(s: State, client: Client, a: Xid, attrs: Attributes)
    requires a in s.alarms
    ensures var alarm := Selected(s, client, a, attrs).alarms[a];
      alarm == s.alarms[a].(events := alarm.events, eventClients := alarm.eventClients)
  {
  }

  /** The test value that a ChangeAlarm leaves when SyncInitTrigger refuses it: a sum that does not fit has wrapped around. */
  lemma RefusedTest(s: State, a: Xid, attrs: Attributes, clock: Clock)
    requires a in s.alarms && (s.alarms[a].trigger.sync.Some? ==> s.alarms[a].trigger.sync.value in s.counters)
    ensures var was, test := s.alarms[a].trigger, LateTest(s, a, attrs, clock);
      var sync := CounterAsked(was.sync, attrs.counter);
      var valueType, value := Or(attrs.valueType, was.valueType), Or(attrs.value, was.waitValue);
      if || (sync.Some? && sync.value !in s.counters)
         || (attrs.valueType.Some? && valueType != Absolute && valueType != Relative)
         || (attrs.valueType.None? && attrs.value.None?)
         || (valueType != Absolute && sync.None?)
      then test == was.testValue
      else if valueType == Absolute then test == value
      else exists k :: test == Read(s, sync.value, clock) + value + k * 0x1_0000_0000_0000_0000
  {
    hide Wrap;
    var was := s.alarms[a].trigger;
    var sync, value := CounterAsked(was.sync, attrs.counter), Or(attrs.value, was.waitValue);
    WrapIs(value);
    if sync.Some? && sync.value in s.counters {
      var sum := Read(s, sync.value, clock) + value;
      WrapIs(sum);
      var k :| Wrap(sum) == sum + k * 0x1_0000_0000_0000_0000;
      assert Wrap(sum) == Read(s, sync.value, clock) + value + k * 0x1_0000_0000_0000_0000;
    }
  }

  lemma WrapIs(x: int)
    ensures exists k :: Wrap(x) == x + k * 0x1_0000_0000_0000_0000
    ensures InRange(x) ==> Wrap(x) == x
  {
    assert Wrap(x) == x + (0 - (x - INT64_MIN) / 0x1_0000_0000_0000_0000) * 0x1_0000_0000_0000_0000;
  }

  /** The trigger is TRUE when the alarm arrives, at the value v of its counter. */
  predicate TrueOnArrival(trig: Trigger, v: Int64) {
    trig.sync.None? || Meets(trig.testType, v, v, trig.testValue)
  }

  /** The value of the alarm's counter, if it has one, as the request reads it */
  function ReadFor(s: State, alarm: Alarm, clock: Clock): Int64 {
    var sync := alarm.trigger.sync;
    if sync.Some? && sync.value in s.counters then Read(s, sync.value, clock) else 0
  }

  /** What comes of an alarm that arrives at v: it goes off once if it is TRUE, and otherwise waits. */
  predicate Arrives(s: State, s': State, a: Xid, alarm: Alarm, v: Int64) {
    && a in s'.alarms
    && if TrueOnArrival(alarm.trigger, v) then
         && s'.alarms[a] == GoneOff(alarm, v)
         && s'.log == s.log + [AlarmNotify(a, v, alarm.trigger.testValue, GoneOff(alarm, v).state,
                                           (if alarm.events then [alarm.client] else []) + alarm.eventClients)]
       else s'.alarms[a] == alarm && s'.log == s.log
  }

  lemma FireIfTrueArrives(s: State, a: Xid)
    requires a in s.alarms && s.alarms[a].state == Active && Agrees(s.alarms[a])
    ensures var sync := s.alarms[a].trigger.sync;
      Arrives(s, FireIfTrue(s, a), a, s.alarms[a], if sync.Some? then ValueOf(s, sync.value) else 0)
  {
    hide FireAlarm, GoneOff;
    FireAlarmForm(s, a);
  }

  /** The counter that the alarm is on now has the value that the request has read. */
  lemma ArrivingReads(s: State, client: Client, a: Xid, attrs: Attributes, clock: Clock)
    requires Linked(s) && a in s.alarms && ChangeStatus(s, a, attrs, clock) == Success
    ensures var s' := ChangeAttributes(s, client, a, attrs, clock);
      && a in s'.alarms
      && var sync := s'.alarms[a].trigger.sync;
      (if sync.Some? then ValueOf(s', sync.value) else 0) == ReadFor(s, s'.alarms[a], clock)
  {
    hide ChangeAttributes, ChangeStatus, InitSuccess, InitStatus, Linked, OnOwnList, Moved, CountersKept, Committed, Target,
      Query, Wrap;
    var t, counter, ch := AlarmTrigger(a), Get(attrs.counter, NONE), attrs.Mask();
    SyncRuns.AttributesEffect(s, client, a, attrs, clock);
    var s1 := Committed(s, client, a, attrs);
    SyncRuns.CommittedLinked(s, client, a, attrs);
    SyncRuns.StatusSame(s, s1, a, attrs, clock);
    InitValues(s1, t, counter, ch, clock);
    SyncRuns.AttributesUnfold(s, client, a, attrs, clock);
    InitSuccessEffect(s1, t, counter, ch, clock);
  }

  /** The client hears of the alarm if it has asked to, and for the others nothing changes. */
  ghost predicate HeardAsAsked(was: Alarm, now: Alarm, client: Client, attrs: Attributes) {
    HearsOnce(was) ==>
      && HearsOnce(now)
      && (attrs.events.Some? ==> (Hears(now, client) <==> attrs.events.value == 1))
      && forall d :: attrs.events.None? || d != client ==> (Hears(now, d) <==> Hears(was, d))
  }

  ghost predicate Asked(s: State, was: Alarm, now: Alarm, client: Client, attrs: Attributes, clock: Clock) {
    AsAsked(s, was, now, attrs, clock) && now.state == Active && Agrees(now) && HeardAsAsked(was, now, client, attrs)
  }

  lemma AttributesHeard(s: State, client: Client, a: Xid, attrs: Attributes, clock: Clock)
    requires Linked(s) && a in s.alarms && Agrees(s.alarms[a]) && ChangeStatus(s, a, attrs, clock) == Success
    ensures var s' := ChangeAttributes(s, client, a, attrs, clock);
      a in s'.alarms && Asked(s, s.alarms[a], s'.alarms[a], client, attrs, clock)
  {
    hide ChangeAttributes, InitStatus, Linked, SelectEvents, Wanted, SyncRuns.Arriving, AsAsked, Checks;
    AttributesAsked(s, client, a, attrs, clock);
    AttributesRecord(s, client, a, attrs, clock);
    SyncRuns.ArrivingAgrees(s, a, attrs, clock);
    if HearsOnce(s.alarms[a]) && attrs.events.Some? {
      SelectsEvents(s.alarms[a], client, attrs.events.value == 1);
    }
  }

  /**
   * ChangeAlarm succeeds exactly if what it asks for is acceptable. The alarm is then as asked, and goes off at once if it
   * is TRUE on arrival; a request that is refused sends nothing.
   */
  lemma ChangeAlarmOutcome(s: State, client: Client, a: Xid, attrs: Attributes, clock: Clock)
    requires Inv(s) && a in s.alarms
    ensures var s' := SyncRequests.ChangeAlarm(s, client, a, attrs, clock);
      && ChangeStatus(s, a, attrs, clock) == Refusal(s, s.alarms[a], attrs, clock)
      && (if Acceptable(s, s.alarms[a], attrs, clock) then
            exists now ::
              Asked(s, s.alarms[a], now, client, attrs, clock) && Arrives(s, s', a, now, ReadFor(s, now, clock))
          else s'.log == s.log)
  {
    hide ChangeAttributes, ChangeStatus, Refusal, Linked, Asked, Arrives, FireIfTrue, ReadFor;
    assert AlarmOk(s, a);
    SyncRuns.AlarmOnOwnList(s, a);
    RefusedFor(s, a, attrs, clock);
    if ChangeStatus(s, a, attrs, clock) == Success {
      var s1 := ChangeAttributes(s, client, a, attrs, clock);
      AttributesArrive(s, client, a, attrs, clock);
      assert Asked(s, s.alarms[a], s1.alarms[a], client, attrs, clock);
    } else {
      SyncRuns.ChangeAttributesFailed(s, client, a, attrs, clock);
    }
  }

  lemma AttributesArrive(s: State, client: Client, a: Xid, attrs: Attributes, clock: Clock)
    requires Linked(s) && a in s.alarms && Agrees(s.alarms[a]) && ChangeStatus(s, a, attrs, clock) == Success
    ensures var s1 := ChangeAttributes(s, client, a, attrs, clock);
      && a in s1.alarms && Asked(s, s.alarms[a], s1.alarms[a], client, attrs, clock) && s1.alarms[a].state == Active
      && s1.log == s.log && Arrives(s, FireIfTrue(s1, a), a, s1.alarms[a], ReadFor(s, s1.alarms[a], clock))
  {
    hide ChangeAttributes, ChangeStatus, Linked, AsAsked, FireIfTrue, ReadFor, GoneOff, TrueOnArrival;
    AttributesHeard(s, client, a, attrs, clock);
    AttributesAsked(s, client, a, attrs, clock);
    ArrivingReads(s, client, a, attrs, clock);
    FireIfTrueArrives(ChangeAttributes(s, client, a, attrs, clock), a);
  }

  lemma SelectedHeard(s: State, client: Client, a: Xid, attrs: Attributes)
    requires a in s.alarms && !BadMask(attrs)
    ensures HeardAsAsked(s.alarms[a], Selected(s, client, a, attrs).alarms[a], client, attrs)
  {
    if HearsOnce(s.alarms[a]) && attrs.events.Some? {
      SelectsEvents(s.alarms[a], client, attrs.events.value == 1);
    }
  }

  /** A late refusal has changed the record as committed, but for its trigger. */
  lemma LateRecord(s: State, client: Client, a: Xid, attrs: Attributes, clock: Clock)
    requires a in s.alarms && EarlyStatus(s.alarms[a], attrs) == Success && ChangeStatus(s, a, attrs, clock) != Success
    ensures var s' := ChangeAttributes(s, client, a, attrs, clock);
      && a in s'.alarms
      && s'.alarms[a] == Selected(s, client, a, attrs).alarms[a].(delta := Get(attrs.delta, s.alarms[a].delta),
                                                                  trigger := s'.alarms[a].trigger)
  {
    hide InitFailure, ChangeStatus, EarlyStatus, Wanted, CountersKept;
    SelectedSame(s, client, a, attrs);
    InitFailureEffect(Committed(s, client, a, attrs), AlarmTrigger(a), Get(attrs.counter, NONE), attrs.Mask(), clock);
  }

  /**
   * What a refused ChangeAlarm leaves behind: nothing if its mask is bad, the selection of events if the delta goes the
   * wrong way, and otherwise also the other attributes and the test value, but never another counter or state.
   */
  lemma ChangeAlarmRefused(s: State, client: Client, a: Xid, attrs: Attributes, clock: Clock)
    requires Inv(s) && a in s.alarms && ChangeStatus(s, a, attrs, clock) != Success
    ensures var s' := SyncRequests.ChangeAlarm(s, client, a, attrs, clock);
      var was := s.alarms[a];
      && a in s'.alarms && s' == s.(counters := s'.counters, alarms := s.alarms[a := s'.alarms[a]])
      && var now := s'.alarms[a];
      if BadMask(attrs) then s' == s
      else
        && HeardAsAsked(was, now, client, attrs)
        && var selected := was.(events := now.events, eventClients := now.eventClients);
        if WrongWay(was, attrs) then now == selected && s'.counters == s.counters
        else now == selected.(
            delta := Or(attrs.delta, was.delta),
            trigger := was.trigger.(testType := Or(attrs.testType, was.trigger.testType),
                                    valueType := Or(attrs.valueType, was.trigger.valueType),
                                    waitValue := Or(attrs.value, was.trigger.waitValue),
                                    testValue := LateTest(s, a, attrs, clock)))
  {
    hide Inv, ChangeStatus, InitFailure, LateTest, HeardAsAsked, Selected, Committed;
    SyncRuns.ChangeAttributesFailed(s, client, a, attrs, clock);
    var now := ChangeAttributes(s, client, a, attrs, clock).alarms[a];
    MaskAndWay(s, client, a, attrs);
    if !BadMask(attrs) {
      SelectedHeard(s, client, a, attrs);
      SelectedSame(s, client, a, attrs);
      SameListeners(s.alarms[a], Selected(s, client, a, attrs).alarms[a], now, client, attrs);
      if !WrongWay(s.alarms[a], attrs) {
        LateRefused(s, client, a, attrs, clock);
        SameListeners(s.alarms[a], Selected(s, client, a, attrs).alarms[a], now, client, attrs);
      }
    }
  }

  lemma MaskAndWay(s: State, client: Client, a: Xid, attrs: Attributes)
    requires a in s.alarms
    ensures EarlyStatus(s.alarms[a], attrs) == Success <==> !BadMask(attrs) && !WrongWay(s.alarms[a], attrs)
    ensures BadMask(attrs) ==> Selected(s, client, a, attrs) == s
    ensures Selected(s, client, a, attrs).counters == s.counters && a in Selected(s, client, a, attrs).alarms
  {
  }

  lemma SameListeners(was: Alarm, x: Alarm, y: Alarm, client: Client, attrs: Attributes)
    requires HeardAsAsked(was, x, client, attrs)
    ensures x.client == y.client && x.events == y.events && x.eventClients == y.eventClients ==>
              HeardAsAsked(was, y, client, attrs)
  {
  }

  lemma LateRefused(s: State, client: Client, a: Xid, attrs: Attributes, clock: Clock)
    requires Inv(s) && a in s.alarms && EarlyStatus(s.alarms[a], attrs) == Success
    requires ChangeStatus(s, a, attrs, clock) != Success
    ensures var s', was := ChangeAttributes(s, client, a, attrs, clock), s.alarms[a];
      && a in s'.alarms
      && s'.alarms[a] == Selected(s, client, a, attrs).alarms[a].(
           delta := Or(attrs.delta, was.delta),
           trigger := was.trigger.(testType := Or(attrs.testType, was.trigger.testType),
                                   valueType := Or(attrs.valueType, was.trigger.valueType),
                                   waitValue := Or(attrs.value, was.trigger.waitValue),
                                   testValue := LateTest(s, a, attrs, clock)))
  {
    hide Linked, Complete, Blocking, NoneDying, ChangeStatus, EarlyStatus, ChangeAttributes, Selected, LateTest;
    SyncRuns.LateFailureEffect(s, client, a, attrs, clock);
    LateRecord(s, client, a, attrs, clock);
  }

  lemma SameCountersSame(s: State, s1: State, was: Alarm, now: Alarm, client: Client, attrs: Attributes, clock: Clock)
    requires s1.counters == s.counters
    ensures Refusal(s1, was, attrs, clock) == Refusal(s, was, attrs, clock)
    ensures Asked(s1, was, now, client, attrs, clock) == Asked(s, was, now, client, attrs, clock)
    ensures ReadFor(s1, now, clock) == ReadFor(s, now, clock)
  {
  }

  /**
   * CreateAlarm succeeds exactly if its identifier is new and what it asks for, with the protocol's defaults for the rest, is
   * acceptable. An alarm with a counter goes off at once if it is TRUE on arrival, and one without is Inactive and silent.
   * A request that is refused leaves no alarm and sends nothing.
   */
  lemma CreateAlarmOutcome(s: State, client: Client, a: Xid, attrs: Attributes, clock: Clock)
    requires Inv(s)
    ensures var s' := SyncRequests.CreateAlarm(s, client, a, attrs, clock);
      var trig := Trigger(None, 0, Absolute, PositiveComparison, 0, PositiveComparison);
      var default := Alarm(trig, client, 1, true, Inactive, []);
      if a in s.alarms || a in s.counters then s' == s
      else
        && ChangeStatus(SetAlarm(s, a, NewAlarm(client)), a, attrs, clock) == Refusal(s, default, attrs, clock)
        && if Acceptable(s, default, attrs, clock) then
             exists now :: Asked(s, default, now, client, attrs, clock) &&
               if now.trigger.sync.Some? then Arrives(s, s', a, now, ReadFor(s, now, clock))
               else a in s'.alarms && s'.alarms[a] == now.(state := Inactive) && s'.log == s.log
           else s'.alarms == s.alarms && s'.log == s.log
  {
    if a !in s.alarms && a !in s.counters {
      var s1 := SetAlarm(s, a, NewAlarm(client));
      SyncRuns.NewAlarmInv(s, client, a);
      NewAlarmOutcome(s, s1, client, a, attrs, clock);
    }
  }

  lemma NewAlarmOutcome(s: State, s1: State, client: Client, a: Xid, attrs: Attributes, clock: Clock)
    requires Inv(s1) && a !in s.alarms && a !in s.counters && s1 == SetAlarm(s, a, NewAlarm(client))
    ensures var s' := SyncRequests.CreateAlarm(s, client, a, attrs, clock);
      var was := s1.alarms[a];
      && ChangeStatus(s1, a, attrs, clock) == Refusal(s, was, attrs, clock)
      && if Acceptable(s, was, attrs, clock) then
           exists now :: Asked(s, was, now, client, attrs, clock) &&
             if now.trigger.sync.Some? then Arrives(s, s', a, now, ReadFor(s, now, clock))
             else a in s'.alarms && s'.alarms[a] == now.(state := Inactive) && s'.log == s.log
         else s'.alarms == s.alarms && s'.log == s.log
  {
    hide ChangeAttributes, ChangeStatus, Refusal, Linked, Asked, FireIfTrue, ReadFor, GoneOff, TrueOnArrival;
    assert AlarmOk(s1, a);
    SyncRuns.AlarmOnOwnList(s1, a);
    RefusedFor(s1, a, attrs, clock);
    SameCountersSame(s, s1, s1.alarms[a], s1.alarms[a], client, attrs, clock);
    if ChangeStatus(s1, a, attrs, clock) == Success {
      var s2 := ChangeAttributes(s1, client, a, attrs, clock);
      AttributesArrive(s1, client, a, attrs, clock);
      SameCountersSame(s, s1, s1.alarms[a], s2.alarms[a], client, attrs, clock);
      assert Asked(s, s1.alarms[a], s2.alarms[a], client, attrs, clock);
    } else {
      SyncRuns.CreateAlarmFailure(s, client, a, attrs, clock);
    }
  }

  // ----- an Await -----

  /** The condition can be waited for: its counter exists, its types are known, and its test value fits an INT64. */
  predicate CanWait(s: State, req: WaitCondition, clock: Clock) {
    && req.counter != 0 && req.counter in s.counters && !req.testType.OtherTest?
    && (req.valueType == Absolute
        || (req.valueType == Relative && INT64_MIN <= Read(s, req.counter, clock) + req.waitValue <= INT64_MAX))
  }

  /** The value that the condition waits for */
  function WaitsFor(s: State, req: WaitCondition, clock: Clock): int
    requires req.counter in s.counters
  {
    if req.valueType == Absolute then req.waitValue else Read(s, req.counter, clock) + req.waitValue
  }

  /** The condition of the await is the one of the request. */
  predicate CondAsAsked(s: State, req: WaitCondition, cond: Condition, clock: Clock) {
    && req.counter in s.counters && cond.trigger.sync == Some(req.counter) && cond.trigger.testType == req.testType
    && cond.threshold == req.threshold && cond.trigger.testValue == WaitsFor(s, req, clock)
  }

  /** After n rounds: the first n conditions are as asked for, the others as they came, and values have at most been read. */
  ghost predicate AskedSoFar(s: State, p: State, w: Xid, reqs: seq<WaitCondition>, n: nat, clock: Clock) {
    && n <= |reqs| && w in p.awaits && |p.awaits[w].conds| == |reqs|
    && (forall i | 0 <= i < n :: CondAsAsked(s, reqs[i], p.awaits[w].conds[i], clock))
    && (forall i | n <= i < |reqs| :: p.awaits[w].conds[i] == Blank(reqs[i]))
    && p.counters.Keys == s.counters.Keys
    && (forall c | c in s.counters :: Read(p, c, clock) == Read(s, c, clock))
    && (forall i | 0 <= i < n ::
          reqs[i].counter in p.counters && p.counters[reqs[i].counter].value == Read(s, reqs[i].counter, clock))
  }

  lemma BlanksAsked(s: State, client: Client, w: Xid, reqs: seq<WaitCondition>, clock: Clock)
    ensures AskedSoFar(s, Prologue(s, client, w, reqs), w, reqs, 0, clock)
  {
  }

  /** One condition is accepted exactly if it can be waited for; the error says what is wrong with it. */
  lemma CondStatusIs(s: State, p: State, w: Xid, reqs: seq<WaitCondition>, n: nat, clock: Clock)
    requires AskedSoFar(s, p, w, reqs, n, clock) && n < |reqs|
    ensures CondStatus(p, w, n, reqs[n], clock)
         == if CanWait(s, reqs[n], clock) then Success
            else if reqs[n].counter == 0 || reqs[n].counter !in s.counters then BadCounter else BadValue
  {
    hide InitStatus;
    var trig := Blank(reqs[n]).trigger;
    assert Trig(p, AwaitTrigger(w, n)) == trig;
    InitRefuses(p, trig, reqs[n].counter, ALL_TRIGGER, clock);
    if reqs[n].counter in s.counters {
      assert Read(p, reqs[n].counter, clock) == Read(s, reqs[n].counter, clock);
    }
  }

  lemma CondInstalled(s: State, p: State, w: Xid, reqs: seq<WaitCondition>, n: nat, clock: Clock)
    requires AskedSoFar(s, p, w, reqs, n, clock) && n < |reqs| && CondStatus(p, w, n, reqs[n], clock) == Success
    ensures CondAsAsked(s, reqs[n],
                        Blank(reqs[n]).(
                          trigger := Installed(p, Blank(reqs[n]).trigger, reqs[n].counter, ALL_TRIGGER, clock)), clock)
  {
    CondStatusIs(s, p, w, reqs, n, clock);
    InitTarget(p, Blank(reqs[n]).trigger, reqs[n].counter, ALL_TRIGGER, clock);
    assert Read(p, reqs[n].counter, clock) == Read(s, reqs[n].counter, clock);
  }

  /** One round: the counter of the condition has been asked, and no other value has changed. */
  lemma ArmValues(p: State, w: Xid, n: nat, req: WaitCondition, clock: Clock)
    requires w in p.awaits && n < |p.awaits[w].conds| && CondStatus(p, w, n, req, clock) == Success
    requires p.awaits[w].conds[n].trigger.sync.None?
    ensures req.counter in p.counters
    ensures var p' := SetupOne(p, w, n, req, clock).0;
      && p'.counters.Keys == p.counters.Keys
      && (forall d | d in p.counters ::
            p'.counters[d].value == if d == req.counter then Read(p, d, clock) else p.counters[d].value)
  {
    hide InitStatus, InitSuccess, Installed;
    SyncRuns.CondAccepted(p, w, n, req, clock);
    InitValues(p, AwaitTrigger(w, n), req.counter, ALL_TRIGGER, clock);
  }

  lemma SetupAsked(s: State, p: State, client: Client, w: Xid, reqs: seq<WaitCondition>, n: nat, clock: Clock)
    requires SyncRuns.Setting(s, p, client, w, reqs, n) && AskedSoFar(s, p, w, reqs, n, clock) && n < |reqs|
    requires CondStatus(p, w, n, reqs[n], clock) == Success
    ensures AskedSoFar(s, SetupOne(p, w, n, reqs[n], clock).0, w, reqs, n + 1, clock)
  {
    hide SetupOne, CondStatus, Installed, Linked, CondAsAsked, SyncRuns.ListsBut, Moved, Headed, Checks;
    SyncRuns.UnarmedOnNoList(p, w, n);
    SyncRuns.SetupOneState(p, w, n, reqs[n], clock);
    CondInstalled(s, p, w, reqs, n, clock);
    ArmValues(p, w, n, reqs[n], clock);
  }

  /** The loop of ProcSyncAwait succeeds as long as every condition can be waited for. */
  lemma {:induction false} SetupOutcome(s: State, client: Client, w: Xid, reqs: seq<WaitCondition>, n: nat, clock: Clock)
    requires Linked(s) && w !in s.awaits && n <= |reqs|
    ensures var r := Setup(Prologue(s, client, w, reqs), w, reqs, n, clock);
      && (r.1 == Success <==> forall i | 0 <= i < n :: CanWait(s, reqs[i], clock))
      && (r.1 == Success ==> AskedSoFar(s, r.0, w, reqs, n, clock))
      && (r.1 != Success ==>
            exists i :: 0 <= i < n && !CanWait(s, reqs[i], clock) && (forall j | 0 <= j < i :: CanWait(s, reqs[j], clock))
              && r.1 == if reqs[i].counter == 0 || reqs[i].counter !in s.counters then BadCounter else BadValue)
  {
    hide SetupOne, CondStatus, Linked, CanWait, AskedSoFar, SyncRuns.Setting, Prologue;
    if n == 0 {
      BlanksAsked(s, client, w, reqs, clock);
    } else {
      SetupOutcome(s, client, w, reqs, n - 1, clock);
      var r := Setup(Prologue(s, client, w, reqs), w, reqs, n - 1, clock);
      if r.1 == Success {
        SyncRuns.SetupSetting(s, client, w, reqs, n - 1, clock);
        CondStatusIs(s, r.0, w, reqs, n - 1, clock);
        SetupOneStatus(r.0, w, n - 1, reqs[n - 1], clock);
        if CondStatus(r.0, w, n - 1, reqs[n - 1], clock) == Success {
          SetupAsked(s, r.0, client, w, reqs, n - 1, clock);
        }
      }
    }
  }

  lemma SetupOneStatus(p: State, w: Xid, i: nat, req: WaitCondition, clock: Clock)
    ensures SetupOne(p, w, i, req, clock).1 == CondStatus(p, w, i, req, clock)
  {
  }

  /** The test of the condition is TRUE at the value that the request reads. */
  predicate TrueAtOnce(s: State, req: WaitCondition, clock: Clock)
    requires req.counter in s.counters
  {
    Meets(req.testType, Read(s, req.counter, clock), Read(s, req.counter, clock), WaitsFor(s, req, clock))
  }

  /** The difference has reached the event threshold, in the direction of the test. */
  predicate Reaches(test: TestType, difference: int, threshold: Int64) {
    INT64_MIN <= difference <= INT64_MAX &&
    ((test in {PositiveTransition, PositiveComparison} && difference >= threshold)
     || (test in {NegativeTransition, NegativeComparison} && difference <= threshold))
  }

  /** A CounterNotify for c is among the events sent. */
  ghost predicate Notified(s: State, s': State, c: Xid) {
    exists i :: |s.log| <= i < |s'.log| && s'.log[i].CounterNotify? && s'.log[i].counter == c
  }

  /** The client waits for what it has asked for. */
  ghost predicate Waiting(s: State, s': State, client: Client, w: Xid, reqs: seq<WaitCondition>, clock: Clock) {
    && w in s'.awaits && s'.awaits[w].client == client && client in s'.ignore && s'.log == s.log
    && |s'.awaits[w].conds| == |reqs|
    && forall i | 0 <= i < |reqs| :: CondAsAsked(s, reqs[i], s'.awaits[w].conds[i], clock)
  }

  /** The client goes on, and is told of the counters that have reached their thresholds. */
  ghost predicate WentOn(s: State, s': State, client: Client, w: Xid, reqs: seq<WaitCondition>, clock: Clock) {
    && w !in s'.awaits && client !in s'.ignore
    && forall k | 0 <= k < |reqs| ::
         && reqs[k].counter in s.counters
         && (Notified(s, s', reqs[k].counter) <==>
               Reaches(reqs[k].testType, Read(s, reqs[k].counter, clock) - WaitsFor(s, reqs[k], clock), reqs[k].threshold))
  }

  /**
   * An Await succeeds exactly if it has conditions and every one can be waited for; otherwise the first that cannot gives
   * the error. Its client waits if the test of every condition is FALSE at the values read, and otherwise goes on at once.
   */
  lemma AwaitOutcome(s: State, client: Client, w: Xid, reqs: seq<WaitCondition>, clock: Clock)
    requires Inv(s) && Legal(s, DoAwait(client, w, reqs, clock))
    ensures var s', status := AwaitRequest(s, client, w, reqs, clock), AwaitStatus(s, client, w, reqs, clock);
      && (status == Success <==> reqs != [] && forall i | 0 <= i < |reqs| :: CanWait(s, reqs[i], clock))
      && (reqs == [] ==> status == BadValue)
      && (reqs != [] && status != Success ==>
            exists i :: 0 <= i < |reqs| && !CanWait(s, reqs[i], clock)
              && (forall j | 0 <= j < i :: CanWait(s, reqs[j], clock))
              && status == if reqs[i].counter == 0 || reqs[i].counter !in s.counters then BadCounter else BadValue)
      && (status == Success ==>
            if forall i | 0 <= i < |reqs| :: reqs[i].counter in s.counters && !TrueAtOnce(s, reqs[i], clock)
            then Waiting(s, s', client, w, reqs, clock)
            else WentOn(s, s', client, w, reqs, clock))
  {
    hide CanWait, Setup, Linked, Epilogue, Waiting, WentOn, AskedSoFar, SyncRuns.Setting, TrueAtOnce;
    if reqs != [] {
      SetupOutcome(s, client, w, reqs, |reqs|, clock);
      SyncRuns.SetupSetting(s, client, w, reqs, |reqs|, clock);
      if AwaitStatus(s, client, w, reqs, clock) == Success {
        EpilogueOutcome(s, Setup(Prologue(s, client, w, reqs), w, reqs, |reqs|, clock).0, client, w, reqs, clock);
      }
    }
  }

  /** A condition as asked for is checked at the value that has been read. */
  lemma CheckAsAsked(s: State, p: State, w: Xid, reqs: seq<WaitCondition>, k: nat, clock: Clock)
    requires AskedSoFar(s, p, w, reqs, |reqs|, clock) && k < |reqs| && AwaitComplete(p.awaits[w])
    ensures reqs[k].counter in s.counters
    ensures var trig := p.awaits[w].conds[k].trigger;
      Check(p, trig, SyncValue(p, trig.sync)) <==> TrueAtOnce(s, reqs[k], clock)
  {
    assert CondAsAsked(s, reqs[k], p.awaits[w].conds[k], clock);
  }

  lemma AskedIgnored(s: State, p: State, client: Client, w: Xid, reqs: seq<WaitCondition>, clock: Clock)
    requires AskedSoFar(s, p, w, reqs, |reqs|, clock)
    ensures AskedSoFar(s, Ignore(p, client), w, reqs, |reqs|, clock)
  {
  }

  lemma TellsAsAsked(s: State, p: State, w: Xid, reqs: seq<WaitCondition>, k: nat, clock: Clock)
    requires AskedSoFar(s, p, w, reqs, |reqs|, clock) && k < |reqs| && Inv(p) && w in p.awaits
    requires p.awaits[w].client !in p.gone && s.log == p.log
    ensures reqs[k].counter in s.counters
    ensures Notified(s, FireAwait(p, w), reqs[k].counter) <==>
            Reaches(reqs[k].testType, Read(s, reqs[k].counter, clock) - WaitsFor(s, reqs[k], clock), reqs[k].threshold)
  {
    hide FireAwait, Linked, Complete, Blocking;
    assert CondAsAsked(s, reqs[k], p.awaits[w].conds[k], clock);
    AwaitTells(p, w, k);
  }

  /** The await is fired at once exactly if some condition is TRUE. */
  lemma EpilogueIs(s: State, p: State, client: Client, w: Xid, reqs: seq<WaitCondition>, clock: Clock)
    requires AskedSoFar(s, Ignore(p, client), w, reqs, |reqs|, clock) && AwaitComplete(Ignore(p, client).awaits[w])
    ensures Epilogue(p, client, w)
         == if forall i | 0 <= i < |reqs| :: reqs[i].counter in s.counters && !TrueAtOnce(s, reqs[i], clock)
            then Ignore(p, client) else FireAwait(Ignore(p, client), w)
  {
    hide FireAwait, AskedSoFar, TrueAtOnce, Check, Checks, SyncValue;
    var s1 := Ignore(p, client);
    AllAsAsked(s, s1, w, reqs, clock);
    var i := FirstTrue(s1, w, 0);
    forall k | 0 <= k < |reqs|
      ensures reqs[k].counter in s.counters
      ensures var trig := s1.awaits[w].conds[k].trigger;
        Check(s1, trig, SyncValue(s1, trig.sync)) <==> TrueAtOnce(s, reqs[k], clock)
    {
      CheckAsAsked(s, s1, w, reqs, k, clock);
    }
  }

  lemma GoesOn(s: State, p: State, client: Client, w: Xid, reqs: seq<WaitCondition>, clock: Clock)
    requires AskedSoFar(s, p, w, reqs, |reqs|, clock) && Inv(p) && w in p.awaits && p.awaits[w].client == client
    requires client !in p.gone && s.log == p.log && p.awaits[w].armed <= |p.awaits[w].conds|
    ensures WentOn(s, FireAwait(p, w), client, w, reqs, clock)
  {
    hide FireAwait, Linked, Complete, Blocking, AskedSoFar, Reaches, Notified;
    AwaitUnblocks(p, w);
    forall k | 0 <= k < |reqs|
      ensures reqs[k].counter in s.counters
      ensures Notified(s, FireAwait(p, w), reqs[k].counter) <==>
              Reaches(reqs[k].testType, Read(s, reqs[k].counter, clock) - WaitsFor(s, reqs[k], clock), reqs[k].threshold)
    {
      TellsAsAsked(s, p, w, reqs, k, clock);
    }
  }

  lemma EpilogueOutcome(s: State, p: State, client: Client, w: Xid, reqs: seq<WaitCondition>, clock: Clock)
    requires Inv(s) && Legal(s, DoAwait(client, w, reqs, clock))
    requires SyncRuns.Setting(s, p, client, w, reqs, |reqs|) && AskedSoFar(s, p, w, reqs, |reqs|, clock)
    ensures if forall i | 0 <= i < |reqs| :: reqs[i].counter in s.counters && !TrueAtOnce(s, reqs[i], clock)
            then Waiting(s, Epilogue(p, client, w), client, w, reqs, clock)
            else WentOn(s, Epilogue(p, client, w), client, w, reqs, clock)
  {
    hide FireAwait, Epilogue, Linked, AskedSoFar, TrueAtOnce, WentOn, SyncRuns.ListsBut, CountersKept, CondAsAsked,
      AwaitComplete;
    SyncRuns.BlockedInv(s, p, client, w, reqs);
    AskedIgnored(s, p, client, w, reqs, clock);
    var s1 := Ignore(p, client);
    assert AwaitComplete(s1.awaits[w]);
    EpilogueIs(s, p, client, w, reqs, clock);
    AllAsAsked(s, s1, w, reqs, clock);
    GoesOn(s, s1, client, w, reqs, clock);
  }

  lemma AllAsAsked(s: State, p: State, w: Xid, reqs: seq<WaitCondition>, clock: Clock)
    requires AskedSoFar(s, p, w, reqs, |reqs|, clock)
    ensures w in p.awaits && |p.awaits[w].conds| == |reqs|
    ensures forall i | 0 <= i < |reqs| :: CondAsAsked(s, reqs[i], p.awaits[w].conds[i], clock)
  {
  }
}
