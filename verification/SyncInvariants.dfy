/** What holds between any two requests, and the proof that every step of a legal run keeps it. */
module SyncInvariants {
  import opened Options
  import opened SyncTypes
  import opened SyncBrackets
  import opened SyncModel
  import opened SyncRequests
  import opened SyncLinks

  /** The check function is the one of the test type, and delta does not pull the wrong way. */
  predicate Agrees(alarm: Alarm) {
    Checks(alarm.trigger) && !WrongSign(alarm.trigger.testType, alarm.delta)
  }

  predicate AlarmOk(s: State, a: Xid)
    requires a in s.alarms
  {
    var alarm := s.alarms[a];
    && Agrees(alarm)
    && alarm.state != Destroyed
    && (alarm.state == Active ==> alarm.trigger.sync.Some?)
    && (OnClientCounter(s, a) ==> FalseIfActive(s, a))
  }

  ghost predicate AlarmsOk(s: State) {
    forall a | a in s.alarms :: AlarmOk(s, a)
  }

  /** A live client is ignored, once, exactly while it has an outstanding await. */
  ghost predicate Blocking(s: State) {
    && (forall w, x | w in s.awaits && x in s.awaits && w != x :: s.awaits[w].client != s.awaits[x].client)
    && (forall w | w in s.awaits && s.awaits[w].client !in s.gone ::
          s.awaits[w].client in s.ignore && s.ignore[s.awaits[w].client] == 1)
    && (forall client | client in s.ignore && client !in s.gone :: exists w :: w in s.awaits && s.awaits[w].client == client)
  }

  ghost predicate Inv(s: State) {
    Linked(s) && Complete(s) && NoneDying(s) && AlarmsOk(s) && Blocking(s)
  }

  // ----- changes that keep the links -----

  /** Same triggers on the same lists; values and brackets may differ. */
  ghost predicate SameLinks(s: State, s': State) {
    && s'.counters.Keys == s.counters.Keys && s'.alarms.Keys == s.alarms.Keys && s'.awaits == s.awaits
    && (forall c | c in s.counters ::
          s'.counters[c].triggers == s.counters[c].triggers && s'.counters[c].beingDestroyed == s.counters[c].beingDestroyed)
    && (forall a | a in s.alarms :: s'.alarms[a].trigger.sync == s.alarms[a].trigger.sync)
  }

  lemma SameLinksLinked(s: State, s': State)
    requires Linked(s) && SameLinks(s, s')
    ensures Linked(s')
    ensures NoneDying(s) ==> NoneDying(s')
    ensures Complete(s) ==> Complete(s')
  {
    assert forall t | Armed(s', t) :: Armed(s, t) && Trig(s', t).sync == Trig(s, t).sync;
    assert forall t | Armed(s, t) :: Armed(s', t);
    forall c, t | c in s'.counters && t in s'.counters[c].triggers
      ensures Armed(s', t) && Trig(s', t).sync == Some(c)
    {
      assert t in s.counters[c].triggers;
    }
    forall t | Armed(s', t) && Trig(s', t).sync.Some?
      ensures var c := Trig(s', t).sync.value; c in s'.counters && t in s'.counters[c].triggers
    {
      assert Armed(s, t);
      assert t in s.counters[Trig(s, t).sync.value].triggers;
    }
  }

  /** The counters that s' still has are of the same kind as in s; client counters have the same value. */
  ghost predicate SameValues(s: State, s': State) {
    forall c | c in s'.counters ::
      c in s.counters && (s.counters[c].kind.ClientCounter? ==> s'.counters[c].value == s.counters[c].value)
      && (s'.counters[c].kind.ClientCounter? <==> s.counters[c].kind.ClientCounter?)
  }

  lemma AlarmOkKept(s: State, s': State, a: Xid)
    requires a in s.alarms && AlarmOk(s, a) && a in s'.alarms && s'.alarms[a] == s.alarms[a]
    requires SameValues(s, s')
    ensures AlarmOk(s', a)
  {
  }

  lemma RefreshInv(s: State, c: Xid)
    requires Inv(s)
    ensures Inv(Refresh(s, c))
  {
    RefreshFrame(s, c);
    SameLinksLinked(s, Refresh(s, c));
    forall a | a in s.alarms ensures AlarmOk(Refresh(s, c), a) {
      AlarmOkKept(s, Refresh(s, c), a);
    }
  }

  // ----- firing -----

  lemma AwaitGoneBlocking(s: State, s': State, w: Xid)
    requires Blocking(s) && w in s.awaits && s'.awaits == s.awaits - {w} && s'.gone == s.gone
    requires s'.ignore == Unignore(s, s.awaits[w].client).ignore
    ensures Blocking(s')
  {
    var client := s.awaits[w].client;
    forall c | c in s'.ignore && c !in s'.gone ensures exists x :: x in s'.awaits && s'.awaits[x].client == c {
      var x :| x in s.awaits && s.awaits[x].client == c;
      assert x in s'.awaits;
    }
  }

  lemma FireBlocking(s: State, t: TriggerId)
    requires Linked(s) && NoneDying(s) && Blocking(s)
    ensures Blocking(Fire(s, t))
  {
    match t
    case AlarmTrigger(a) =>
      if a in s.alarms {
        FireAlarmEffect(s, a);
      }
    case AwaitTrigger(w, _) =>
      if w in s.awaits {
        FireAwaitEffect(s, w);
        AwaitGoneBlocking(s, FireAwait(s, w), w);
      }
  }

  lemma {:induction false} FireAllBlocking(s: State, ts: seq<TriggerId>)
    requires Linked(s) && NoneDying(s) && Blocking(s)
    ensures Blocking(FireAll(s, ts))
  {
    if ts != [] {
      FireAllEffect(s, ts[..|ts| - 1]);
      FireAllBlocking(s, ts[..|ts| - 1]);
      FireBlocking(FireAll(s, ts[..|ts| - 1]), ts[|ts| - 1]);
    }
  }

  lemma FiredSameValues(s: State, s': State)
    requires Fired(s, s')
    ensures SameValues(s, s')
  {
    forall c | c in s'.counters
      ensures s'.counters[c].value == s.counters[c].value
      ensures s'.counters[c].kind.ClientCounter? <==> s.counters[c].kind.ClientCounter?
    {
      assert Relisted(s.counters[c], s'.counters[c], s'.counters[c].triggers);
    }
  }

  /** Firing keeps an alarm in order if its trigger is among those fired or was FALSE already. */
  lemma FireAllAlarmOk(s: State, ts: seq<TriggerId>, a: Xid)
    requires Linked(s) && NoneDying(s) && a in s.alarms
    requires Agrees(s.alarms[a]) && s.alarms[a].state != Destroyed
    requires s.alarms[a].state == Active ==> s.alarms[a].trigger.sync.Some?
    requires AlarmTrigger(a) in ts || (OnClientCounter(s, a) ==> FalseIfActive(s, a))
    ensures a in FireAll(s, ts).alarms && AlarmOk(FireAll(s, ts), a)
  {
    FireAllEffect(s, ts);
    var s' := FireAll(s, ts);
    assert SameAlarm(s.alarms[a], s'.alarms[a]);
    FiredSameValues(s, s');
    if AlarmTrigger(a) in ts || FalseIfActive(s, a) {
      FiredAlarmsAreFalse(s, ts, a);
    }
  }

  lemma FireInv(s: State, t: TriggerId)
    requires Inv(s)
    ensures Inv(Fire(s, t))
  {
    FireEffect(s, t);
    FireBlocking(s, t);
    assert FireAll(s, []) == s;
    assert [t][..0] == [] && FireAll(s, [t]) == Fire(s, t);
    forall a | a in Fire(s, t).alarms ensures AlarmOk(Fire(s, t), a) {
      FireAllAlarmOk(s, [t], a);
    }
  }

  lemma WalkInv(s: State, c: Xid, v: Int64)
    requires Inv(s) && c in s.counters
    ensures Inv(FireAll(SetValue(s, c, v), True(SetValue(s, c, v), s.counters[c].triggers, s.counters[c].value)))
  {
    var s1 := SetValue(s, c, v);
    var ts := True(s1, s.counters[c].triggers, s.counters[c].value);
    SameLinksLinked(s, s1);
    FireAllEffect(s1, ts);
    FireAllBlocking(s1, ts);
    forall a | a in s1.alarms ensures a in FireAll(s1, ts).alarms && AlarmOk(FireAll(s1, ts), a) {
      assert AlarmOk(s, a);
      FireAllAlarmOkAt(s, c, v, a);
    }
  }

  lemma FireAllAlarmOkAt(s: State, c: Xid, v: Int64, a: Xid)
    requires Inv(s) && c in s.counters && a in s.alarms && AlarmOk(s, a)
    ensures var s1 := SetValue(s, c, v);
      var ts := True(s1, s.counters[c].triggers, s.counters[c].value);
      a in FireAll(s1, ts).alarms && AlarmOk(FireAll(s1, ts), a)
  {
    var s1 := SetValue(s, c, v);
    SameLinksLinked(s, s1);
    if s.alarms[a].trigger.sync == Some(c) {
      assert Armed(s, AlarmTrigger(a)) && Trig(s, AlarmTrigger(a)).sync == Some(c);
      assert AlarmTrigger(a) in s.counters[c].triggers;
    }
    FireAllAlarmOk(s1, True(s1, s.counters[c].triggers, s.counters[c].value), a);
  }

  /** After the walk of SyncChangeCounter every alarm on the counter is FALSE at the new value. */
  lemma ChangeCounterInv(s: State, c: Xid, v: Int64)
    requires Inv(s) && c in s.counters
    ensures Inv(SyncModel.ChangeCounter(s, c, v))
  {
    WalkInv(s, c, v);
    RefreshInv(FireAll(SetValue(s, c, v), True(SetValue(s, c, v), s.counters[c].triggers, s.counters[c].value)), c);
  }

  // ----- destroying resources -----

  lemma FreeAwaitInv(s: State, w: Xid)
    requires Inv(s) && w in s.awaits && s.awaits[w].client in s.gone
    ensures Inv(FreeAwait(s, w))
  {
    FreeAwaitEffect(s, w);
    var s' := FreeAwait(s, w);
    forall c | c in s'.counters ensures Relisted(s.counters[c], s'.counters[c], s'.counters[c].triggers) {
    }
    AwaitGoneBlocking(s, s', w);
    forall a | a in s'.alarms ensures AlarmOk(s', a) {
      AlarmOkKept(s, s', a);
    }
  }

  lemma FreeAlarmEffect(s: State, a: Xid)
    requires Linked(s) && a in s.alarms
    ensures var s' := FreeAlarm(s, a);
      && s'.alarms == s.alarms - {a} && s'.awaits == s.awaits && s'.ignore == s.ignore && s'.gone == s.gone
      && s'.counters.Keys == s.counters.Keys
      && forall c | c in s.counters ::
           Relisted(s.counters[c], s'.counters[c], Without(s.counters[c].triggers, AlarmTrigger(a)))
  {
    var t := AlarmTrigger(a);
    var s1 := NotifyAlarm(SetAlarm(s, a, s.alarms[a].(state := Destroyed)), a);
    assert Armed(s, t) && Trig(s1, t) == Trig(s, t);
    if Trig(s, t).sync.Some? {
      DeleteFrame(s1, t);
    }
    forall c | c in s.counters && Trig(s, t).sync != Some(c)
      ensures Without(s.counters[c].triggers, t) == s.counters[c].triggers
    {
      assert t !in s.counters[c].triggers;
      WithoutAbsent(s.counters[c].triggers, t);
    }
  }

  lemma FreeAlarmInv(s: State, a: Xid)
    requires Inv(s) && a in s.alarms
    ensures Inv(FreeAlarm(s, a))
  {
    FreeAlarmEffect(s, a);
    var s' := FreeAlarm(s, a);
    forall c | c in s'.counters
      ensures NoDup(s'.counters[c].triggers)
      ensures forall u :: u in s'.counters[c].triggers <==> u in s.counters[c].triggers && u != AlarmTrigger(a)
    {
      WithoutMembers(s.counters[c].triggers, AlarmTrigger(a));
    }
    AlarmRemovalLinked(s, s', a);
    forall b | b in s'.alarms ensures AlarmOk(s', b) {
      AlarmOkKept(s, s', b);
    }
  }

  lemma AlarmRemovalLinked(s: State, s': State, a: Xid)
    requires Linked(s) && a in s.alarms
    requires s'.alarms == s.alarms - {a} && s'.awaits == s.awaits && s'.counters.Keys == s.counters.Keys
    requires forall c | c in s.counters :: NoDup(s'.counters[c].triggers)
    requires forall c, t | c in s.counters ::
      t in s'.counters[c].triggers <==> t in s.counters[c].triggers && t != AlarmTrigger(a)
    ensures Linked(s')
  {
    forall c, t | c in s'.counters && t in s'.counters[c].triggers
      ensures Armed(s', t) && Trig(s', t).sync == Some(c)
    {
      assert t in s.counters[c].triggers;
      assert Armed(s, t);
    }
    forall t | Armed(s', t) && Trig(s', t).sync.Some?
      ensures var c := Trig(s', t).sync.value; c in s'.counters && t in s'.counters[c].triggers
    {
      assert Armed(s, t) && Trig(s, t) == Trig(s', t);
      assert t in s.counters[Trig(s, t).sync.value].triggers;
    }
  }

  /** The invariant while FreeCounter walks the list of c: c alone is dying, and its list is what is left. */
  ghost predicate Dying(s: State, c: Xid, list: seq<TriggerId>) {
    && Linked(s) && Complete(s) && AlarmsOk(s) && Blocking(s)
    && c in s.counters && s.counters[c].triggers == list && s.counters[c].beingDestroyed
    && forall d | d in s.counters && d != c :: !s.counters[d].beingDestroyed
  }

  /** s' is s with alarm t off the front of the list of c and without a counter. */
  ghost predicate HeadGone(s: State, s': State, c: Xid, t: TriggerId) {
    && c in s.counters && s.counters[c].triggers != [] && s.counters[c].triggers[0] == t
    && t.AlarmTrigger? && s'.awaits == s.awaits && s'.alarms.Keys == s.alarms.Keys
    && t.alarm in s'.alarms && s'.alarms[t.alarm].trigger.sync.None?
    && (forall a | a in s.alarms && a != t.alarm :: s'.alarms[a].trigger.sync == s.alarms[a].trigger.sync)
    && s'.counters == s.counters[c := s.counters[c].(triggers := s.counters[c].triggers[1..])]
  }

  lemma HeadGoneArmed(s: State, s': State, c: Xid, t: TriggerId, u: TriggerId)
    requires HeadGone(s, s', c, t)
    ensures Armed(s', u) <==> Armed(s, u)
    ensures u != t && Armed(s, u) ==> Trig(s', u).sync == Trig(s, u).sync
    ensures u == t ==> Armed(s', u) && Trig(s', u).sync.None?
  {
  }

  lemma HeadGoneLists(s: State, s': State, c: Xid, t: TriggerId, d: Xid, u: TriggerId)
    requires Linked(s) && HeadGone(s, s', c, t) && d in s.counters
    ensures d in s'.counters && NoDup(s'.counters[d].triggers)
    ensures u in s'.counters[d].triggers <==> u in s.counters[d].triggers && u != t
  {
    var list := s.counters[c].triggers;
    assert forall x | x in list :: x == t || x in list[1..];
    assert t in list && t !in list[1..];
    assert Armed(s, t) && Trig(s, t).sync == Some(c);
  }

  lemma HeadGoneLinked(s: State, s': State, c: Xid, t: TriggerId)
    requires Linked(s) && HeadGone(s, s', c, t)
    ensures Linked(s')
  {
    hide HeadGone;
    assert s'.counters.Keys == s.counters.Keys && s'.awaits == s.awaits by { HeadGoneKeys(s, s', c, t); }
    forall d, u | d in s'.counters && u in s'.counters[d].triggers
      ensures Armed(s', u) && Trig(s', u).sync == Some(d)
    {
      HeadGoneLists(s, s', c, t, d, u);
      HeadGoneArmed(s, s', c, t, u);
    }
    forall u | Armed(s', u) && Trig(s', u).sync.Some?
      ensures var d := Trig(s', u).sync.value; d in s'.counters && u in s'.counters[d].triggers
    {
      HeadGoneArmed(s, s', c, t, u);
      HeadGoneLists(s, s', c, t, Trig(s', u).sync.value, u);
    }
    forall d | d in s'.counters
      ensures NoDup(s'.counters[d].triggers)
    {
      HeadGoneLists(s, s', c, t, d, t);
    }
  }

  lemma HeadGoneKeys(s: State, s': State, c: Xid, t: TriggerId)
    requires HeadGone(s, s', c, t)
    ensures s'.counters.Keys == s.counters.Keys && s'.awaits == s.awaits
  {
  }

  lemma DestroyAlarmStep(s: State, c: Xid, list: seq<TriggerId>)
    requires Dying(s, c, list) && list != [] && list[0].AlarmTrigger?
    ensures Dying(SetList(NotifyDestroyed(s, list[0]), c, list[1..]), c, list[1..])
  {
    hide Linked, Complete, Blocking, AlarmOk;
    var s' := SetList(NotifyDestroyed(s, list[0]), c, list[1..]);
    HeadArmed(s, c, list);
    HeadGoneLinked(s, s', c, list[0]);
    SameAwaitsBlocking(s, s');
    forall b | b in s'.alarms ensures AlarmOk(s', b) {
      assert AlarmOk(s, b);
      OrphanOk(s, s', b);
    }
  }

  lemma HeadArmed(s: State, c: Xid, list: seq<TriggerId>)
    requires Linked(s) && c in s.counters && s.counters[c].triggers == list && list != []
    ensures Armed(s, list[0])
  {
    assert list[0] in s.counters[c].triggers;
  }

  lemma SameAwaitsBlocking(s: State, s': State)
    requires Complete(s) && Blocking(s) && s'.awaits == s.awaits && s'.ignore == s.ignore && s'.gone == s.gone
    ensures Complete(s') && Blocking(s')
  {
  }

  /** An alarm that has been told of the destruction is in order, as are the others. */
  lemma OrphanOk(s: State, s': State, a: Xid)
    requires a in s.alarms && AlarmOk(s, a) && a in s'.alarms && SameValues(s, s')
    requires s'.alarms[a] == s.alarms[a]
             || s'.alarms[a] == s.alarms[a].(state := Inactive, trigger := s.alarms[a].trigger.(sync := None))
    ensures AlarmOk(s', a)
  {
  }

  /** An await names the dying counter once, so the head of the list is its only node there. */
  lemma OnlyOneOnList(s: State, c: Xid, t: TriggerId)
    requires Linked(s) && Complete(s) && c in s.counters && t in s.counters[c].triggers && t.AwaitTrigger?
    ensures forall u | u in s.counters[c].triggers && u.AwaitTrigger? && u.await == t.await :: u == t
  {
    forall u | u in s.counters[c].triggers && u.AwaitTrigger? && u.await == t.await ensures u == t {
      assert Armed(s, u) && Armed(s, t) && Trig(s, u).sync == Trig(s, t).sync;
      assert AwaitComplete(s.awaits[t.await]);
    }
  }

  lemma TailWithout(list: seq<TriggerId>, w: Xid)
    requires NoDup(list) && list != [] && list[0].AwaitTrigger? && list[0].await == w
    requires forall u | u in list && u.AwaitTrigger? && u.await == w :: u == list[0]
    ensures NoDup(list[1..])
    ensures forall u :: u in list[1..] <==> u in list && !(u.AwaitTrigger? && u.await == w)
  {
    assert forall u | u in list :: u == list[0] || u in list[1..];
  }

  lemma ArmedOnList(s: State, c: Xid, w: Xid)
    requires Linked(s) && c in s.counters && w in s.awaits
    ensures forall u | u in s.counters[c].triggers && u.AwaitTrigger? && u.await == w :: u.index < s.awaits[w].armed
  {
    assert forall u | u in s.counters[c].triggers :: Armed(s, u);
  }

  lemma DestroyAwaitList(s: State, s1: State, c: Xid, list: seq<TriggerId>, w: Xid, d: Xid)
    requires Dying(s, c, list) && list != [] && list[0].AwaitTrigger? && list[0].await == w
    requires w in s.awaits && AwaitGone(s, s1, w) && d in s.counters
    ensures var s' := SetList(s1, c, list[1..]);
      && Relisted(s.counters[d], s'.counters[d], s'.counters[d].triggers)
      && NoDup(s'.counters[d].triggers)
      && forall u :: u in s'.counters[d].triggers <==>
                     u in s.counters[d].triggers && !(u.AwaitTrigger? && u.await == w)
  {
    assert Relisted(s.counters[d], s1.counters[d], Pruned(s.counters[d], w, s.awaits[w].armed));
    if d == c {
      OnlyOneOnList(s, c, list[0]);
      TailWithout(list, w);
    } else {
      PruneKeepsNoDup(s.counters[d].triggers, w, s.awaits[w].armed);
      ArmedOnList(s, d, w);
    }
  }

  lemma DestroyAwaitLists(s: State, s1: State, c: Xid, list: seq<TriggerId>, w: Xid)
    requires Dying(s, c, list) && list != [] && list[0].AwaitTrigger? && list[0].await == w
    requires w in s.awaits && AwaitGone(s, s1, w)
    ensures var s' := SetList(s1, c, list[1..]);
      && Linked(s') && SameValues(s, s')
      && s'.counters[c].beingDestroyed && forall d | d in s'.counters && d != c :: !s'.counters[d].beingDestroyed
  {
    var s' := SetList(s1, c, list[1..]);
    forall d | d in s.counters
      ensures Relisted(s.counters[d], s'.counters[d], s'.counters[d].triggers)
      ensures NoDup(s'.counters[d].triggers)
      ensures forall u :: u in s'.counters[d].triggers <==>
                          u in s.counters[d].triggers && !(u.AwaitTrigger? && u.await == w)
    {
      DestroyAwaitList(s, s1, c, list, w, d);
    }
    RemovalLinked(s, s', w);
  }

  lemma DestroyAwaitStep(s: State, c: Xid, list: seq<TriggerId>)
    requires Dying(s, c, list) && list != [] && list[0].AwaitTrigger?
    ensures c in NotifyDestroyed(s, list[0]).counters
    ensures Dying(SetList(NotifyDestroyed(s, list[0]), c, list[1..]), c, list[1..])
  {
    var w := list[0].await;
    assert list[0] in s.counters[c].triggers && Armed(s, list[0]);
    FireAwaitEffect(s, w);
    var s1 := FireAwait(s, w);
    DestroyAwaitLists(s, s1, c, list, w);
    var s' := SetList(s1, c, list[1..]);
    AwaitGoneBlocking(s, s', w);
    forall b | b in s'.alarms ensures AlarmOk(s', b) {
      AlarmOkKept(s, s', b);
    }
  }

  lemma {:induction false} DestroyWalkInv(s: State, c: Xid, list: seq<TriggerId>)
    requires Dying(s, c, list)
    ensures Dying(DestroyWalk(s, c, list), c, [])
    decreases |list|
  {
    if list != [] {
      if list[0].AlarmTrigger? {
        DestroyAlarmStep(s, c, list);
      } else {
        DestroyAwaitStep(s, c, list);
      }
      DestroyWalkInv(SetList(NotifyDestroyed(s, list[0]), c, list[1..]), c, list[1..]);
    }
  }

  lemma CounterRemovalInv(s: State, c: Xid)
    requires Dying(s, c, [])
    ensures Inv(s.(counters := s.counters - {c}))
  {
    var s' := s.(counters := s.counters - {c});
    assert forall t | Armed(s', t) :: Armed(s, t) && Trig(s', t) == Trig(s, t);
    assert forall t | Armed(s, t) :: Armed(s', t) && Trig(s, t).sync != Some(c);
    forall d, t | d in s'.counters && t in s'.counters[d].triggers
      ensures Armed(s', t) && Trig(s', t).sync == Some(d)
    {
      assert t in s.counters[d].triggers;
    }
    forall b | b in s'.alarms ensures AlarmOk(s', b) {
      assert Armed(s, AlarmTrigger(b));
      AlarmOkKept(s, s', b);
    }
  }

  lemma FreeCounterInv(s: State, c: Xid)
    requires Inv(s) && c in s.counters
    ensures Inv(FreeCounter(s, c))
  {
    var s1 := s.(counters := s.counters[c := s.counters[c].(beingDestroyed := true)]);
    SameLinksButDying(s, s1, c);
    DestroyWalkInv(s1, c, s.counters[c].triggers);
    CounterRemovalInv(DestroyWalk(s1, c, s.counters[c].triggers), c);
  }

  lemma SameLinksButDying(s: State, s1: State, c: Xid)
    requires Inv(s) && c in s.counters
    requires s1 == s.(counters := s.counters[c := s.counters[c].(beingDestroyed := true)])
    ensures Dying(s1, c, s.counters[c].triggers)
  {
    assert forall t | Armed(s1, t) :: Armed(s, t) && Trig(s1, t) == Trig(s, t);
    assert forall t | Armed(s, t) :: Armed(s1, t);
    forall d, t | d in s1.counters && t in s1.counters[d].triggers
      ensures Armed(s1, t) && Trig(s1, t).sync == Some(d)
    {
      assert t in s.counters[d].triggers;
    }
    forall b | b in s1.alarms ensures AlarmOk(s1, b) {
      AlarmOkKept(s, s1, b);
    }
  }
}
