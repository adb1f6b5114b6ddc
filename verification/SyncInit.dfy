/** What SyncInitTrigger does to the links, for the trigger of an alarm and for a condition being set up. */
module SyncInit {
  import opened Options
  import opened SyncTypes
  import opened SyncBrackets
  import opened SyncModel
  import opened SyncRequests
  import opened SyncLinks

  /** Nothing but the values and brackets of system counters, and lists, may differ. */
  ghost predicate CountersKept(s: State, s': State) {
    && s'.counters.Keys == s.counters.Keys
    && forall c | c in s.counters ::
         && s'.counters[c].beingDestroyed == s.counters[c].beingDestroyed
         && (s.counters[c].kind.ClientCounter? ==>
               s'.counters[c].value == s.counters[c].value && s'.counters[c].kind == s.counters[c].kind)
         && (s.counters[c].kind.SystemCounter? ==>
               s'.counters[c].kind.SystemCounter? && s'.counters[c].kind.ct == s.counters[c].kind.ct)
  }

  ghost predicate SameLists(s: State, s': State) {
    s'.counters.Keys == s.counters.Keys &&
    forall c | c in s.counters :: s'.counters[c].triggers == s.counters[c].triggers
  }

  /** Alarms, awaits, ignore counts, events and departed clients of s' are those of s. */
  predicate OnlyCounters(s: State, s': State) {
    s' == s.(counters := s'.counters)
  }

  lemma QueryFrame(s: State, sync: Option<Xid>, clock: Clock)
    ensures var s' := Query(s, sync, clock); OnlyCounters(s, s') && CountersKept(s, s') && SameLists(s, s')
  {
  }

  lemma SetTrigFrame(s: State, t: TriggerId, trig: Trigger)
    requires Has(s, t)
    ensures var s' := SetTrig(s, t, trig);
      && s'.counters == s.counters && s'.ignore == s.ignore && s'.gone == s.gone && s'.log == s.log
      && s'.alarms.Keys == s.alarms.Keys && s'.awaits.Keys == s.awaits.Keys
      && Has(s', t) && Trig(s', t) == trig
      && (forall u | Has(s, u) && u != t :: Has(s', u) && Trig(s', u) == Trig(s, u))
      && (forall u | Has(s', u) :: Has(s, u))
      && (forall w | w in s.awaits ::
            s'.awaits[w].armed == s.awaits[w].armed && |s'.awaits[w].conds| == |s.awaits[w].conds|
            && s'.awaits[w].client == s.awaits[w].client)
      && (t.AlarmTrigger? ==>
            s'.awaits == s.awaits && s'.alarms == s.alarms[t.alarm := s.alarms[t.alarm].(trigger := trig)])
      && (t.AwaitTrigger? ==> s'.alarms == s.alarms && forall w | w in s.awaits
        && w != t.await :: s'.awaits[w] == s.awaits[w])
  {
  }

  /** t is on the list of its own counter at most. */
  ghost predicate OnOwnList(s: State, t: TriggerId)
    requires Has(s, t)
  {
    (forall c | c in s.counters :: NoDup(s.counters[c].triggers)
                                   && (t in s.counters[c].triggers ==> Trig(s, t).sync == Some(c)))
    && (Trig(s, t).sync.Some? ==> Trig(s, t).sync.value in s.counters)
  }

  /** Every list but for t as in s, and t on the list of `sync` only. */
  ghost predicate Moved(s: State, s': State, t: TriggerId, sync: Option<Xid>) {
    s'.counters.Keys == s.counters.Keys &&
    forall d | d in s.counters ::
      && NoDup(s'.counters[d].triggers)
      && forall u :: u in s'.counters[d].triggers <==> (if u == t then sync == Some(d) else u in s.counters[d].triggers)
  }

  /** Every list as in s, but with t put in front of the list of `sync`. */
  ghost predicate Headed(s: State, s': State, t: TriggerId, sync: Option<Xid>) {
    s'.counters.Keys == s.counters.Keys &&
    forall d | d in s.counters ::
      s'.counters[d].triggers == (if sync == Some(d) then [t] else []) + s.counters[d].triggers
  }

  /** Off the list of its old counter, and in front of the list of its new one, if that is another. */
  ghost predicate Relocated(s: State, s': State, t: TriggerId, was: Option<Xid>, sync: Option<Xid>) {
    s'.counters.Keys == s.counters.Keys &&
    forall d | d in s.counters ::
      s'.counters[d].triggers
      == if sync == was then s.counters[d].triggers
         else (if sync == Some(d) then [t] else []) + Without(s.counters[d].triggers, t)
  }

  lemma RelocatedHeaded(s: State, s': State, t: TriggerId, sync: Option<Xid>)
    requires Has(s, t) && OnOwnList(s, t) && Trig(s, t).sync.None? && Relocated(s, s', t, None, sync)
    ensures Headed(s, s', t, sync)
  {
    forall d | d in s.counters
      ensures s'.counters[d].triggers == (if sync == Some(d) then [t] else []) + s.counters[d].triggers
    {
      WithoutAbsent(s.counters[d].triggers, t);
    }
  }

  /** The second half of SyncInitTrigger: leave the old counter's list and join the new one's. */
  function Move(s: State, t: TriggerId, trig: Trigger): State
    requires Has(s, t)
  {
    var s3 := DeleteTrigger(s, t);
    if Has(s3, t) then AddTrigger(SetTrig(s3, t, trig), t) else s3
  }

  lemma MoveDelete(s: State, t: TriggerId)
    requires Has(s, t) && OnOwnList(s, t)
    ensures var s' := DeleteTrigger(s, t);
      && OnlyCounters(s, s') && CountersKept(s, s') && Moved(s, s', t, None)
      && (Trig(s, t).sync.None? ==> s' == s)
      && forall d | d in s.counters :: s'.counters[d].triggers == Without(s.counters[d].triggers, t)
  {
    forall d | d in s.counters && Trig(s, t).sync != Some(d)
      ensures Without(s.counters[d].triggers, t) == s.counters[d].triggers
    {
      WithoutAbsent(s.counters[d].triggers, t);
    }
    if Trig(s, t).sync.Some? {
      DeleteFrame(s, t);
      forall d | d in s.counters
        ensures Relisted(s.counters[d], DeleteTrigger(s, t).counters[d], DeleteTrigger(s, t).counters[d].triggers)
        ensures NoDup(DeleteTrigger(s, t).counters[d].triggers)
      {
        WithoutMembers(s.counters[d].triggers, t);
      }
      forall d, u | d in s.counters
        ensures u in DeleteTrigger(s, t).counters[d].triggers <==> u != t && u in s.counters[d].triggers
      {
        WithoutMembers(s.counters[d].triggers, t);
      }
    }
  }

  lemma MoveAdd(s: State, t: TriggerId)
    requires Has(s, t) && (forall c | c in s.counters :: NoDup(s.counters[c].triggers) && t !in s.counters[c].triggers)
    requires Trig(s, t).sync.Some? ==> Trig(s, t).sync.value in s.counters
    ensures var s' := AddTrigger(s, t);
      && OnlyCounters(s, s') && CountersKept(s, s') && Moved(s, s', t, Trig(s, t).sync)
      && Headed(s, s', t, Trig(s, t).sync)
  {
    hide Refresh;
    if Trig(s, t).sync.Some? {
      var c := Trig(s, t).sync.value;
      RefreshFrame(SetList(s, c, [t] + s.counters[c].triggers), c);
    }
  }

  lemma MoveEffect(s: State, t: TriggerId, trig: Trigger)
    requires Has(s, t) && OnOwnList(s, t) && (trig.sync.Some? ==> trig.sync.value in s.counters)
    ensures var s' := Move(s, t, trig);
      && s' == SetTrig(s, t, trig).(counters := s'.counters) && CountersKept(s, s') && Moved(s, s', t, trig.sync)
      && (trig.sync != Trig(s, t).sync ==> Relocated(s, s', t, Trig(s, t).sync, trig.sync))
  {
    MoveDelete(s, t);
    var s3 := DeleteTrigger(s, t);
    SetTrigFrame(s3, t, trig);
    MoveAdd(SetTrig(s3, t, trig), t);
  }

  /** The trigger a successful SyncInitTrigger installs. */
  function Installed(s: State, trig: Trigger, counter: Xid, ch: Changes, clock: Clock): Trigger {
    var sync := NewSync(trig, counter, ch);
    trig.(sync := sync,
          testValue := if ch.valueType || ch.value then Wrap(Target(Query(s, sync, clock), sync, trig)) else trig.testValue,
          check := if ch.testType then trig.testType else trig.check)
  }

  /** A successful SyncInitTrigger installs the trigger and, if its counter is a new one, puts it in front of that list. */
  lemma InitSuccessEffect(s: State, t: TriggerId, counter: Xid, ch: Changes, clock: Clock)
    requires Has(s, t) && OnOwnList(s, t)
    requires InitStatus(s, Trig(s, t), counter, ch, clock) == Success
    requires Trig(s, t).sync.Some? && !(ch.counter && NewSync(Trig(s, t), counter, ch) != Trig(s, t).sync) ==>
               t in s.counters[Trig(s, t).sync.value].triggers
    ensures var s' := InitSuccess(s, t, counter, ch, clock);
      var trig := Installed(s, Trig(s, t), counter, ch, clock);
      && (trig.sync.Some? ==> trig.sync.value in s.counters)
      && s' == SetTrig(s, t, trig).(counters := s'.counters) && CountersKept(s, s') && Moved(s, s', t, trig.sync)
      && Relocated(s, s', t, Trig(s, t).sync, trig.sync)
  {
    hide InitSuccess, InitStatus, Moved, Relocated, CountersKept, OnOwnList, Refresh, Move, SetTrig, Query, Wrap;
    var was := Trig(s, t);
    var trig := Installed(s, was, counter, ch, clock);
    var s1 := Query(s, trig.sync, clock);
    var trig1 := trig.(sync := was.sync);
    QueriedSet(s, t, trig.sync, trig1, clock);
    var s2 := SetTrig(s1, t, trig1);
    SetTrigTwice(s, s1.counters, t, trig1, trig);
    InitUnfold(s, t, counter, ch, clock);
    InitCounter(s, t, counter, ch, clock);
    MovedHas(s, t);
    if ch.counter && trig.sync != was.sync {
      InitMove(s, s2, t, trig);
    } else {
      InitStay(s, s2, t, trig);
    }
  }

  lemma MovedHas(s: State, t: TriggerId)
    requires Has(s, t) && OnOwnList(s, t)
    ensures Trig(s, t).sync.Some? ==> Trig(s, t).sync.value in s.counters
  {
  }

  lemma InitCounter(s: State, t: TriggerId, counter: Xid, ch: Changes, clock: Clock)
    requires Has(s, t) && OnOwnList(s, t) && InitStatus(s, Trig(s, t), counter, ch, clock) == Success
    ensures var trig := Installed(s, Trig(s, t), counter, ch, clock);
      && (trig.sync.Some? ==> trig.sync.value in s.counters) && (!ch.counter ==> trig.sync == Trig(s, t).sync)
  {
    hide Query, Target, Wrap, InRange;
  }

  /** The state in which SyncInitTrigger registers the trigger */
  lemma QueriedSet(s: State, t: TriggerId, sync: Option<Xid>, trig: Trigger, clock: Clock)
    requires Has(s, t)
    ensures var s1 := Query(s, sync, clock);
      && s1 == s.(counters := s1.counters) && Has(s1, t)
      && var s2 := SetTrig(s1, t, trig);
      && Has(s2, t) && Trig(s2, t) == trig && CountersKept(s, s2) && SameLists(s, s2) && s2.counters == s1.counters
  {
    QueryFrame(s, sync, clock);
    SetTrigFrame(Query(s, sync, clock), t, trig);
  }

  lemma InitUnfold(s: State, t: TriggerId, counter: Xid, ch: Changes, clock: Clock)
    requires Has(s, t) && Has(Query(s, NewSync(Trig(s, t), counter, ch), clock), t)
    ensures var was := Trig(s, t);
      var trig := Installed(s, was, counter, ch, clock);
      var s2 := SetTrig(Query(s, trig.sync, clock), t, trig.(sync := was.sync));
      && Has(s2, t)
      && InitSuccess(s, t, counter, ch, clock)
         == if ch.counter && trig.sync != was.sync then Move(s2, t, trig)
            else if trig.sync.Some? then Refresh(s2, trig.sync.value) else s2
  {
    hide Query, Target, Wrap, InRange, Refresh, DeleteTrigger, AddTrigger;
    var sync := NewSync(Trig(s, t), counter, ch);
    SetTrigFrame(Query(s, sync, clock), t, Installed(s, Trig(s, t), counter, ch, clock).(sync := Trig(s, t).sync));
  }

  lemma InitMove(s: State, s2: State, t: TriggerId, trig: Trigger)
    requires Has(s, t) && OnOwnList(s, t) && Has(s2, t) && Trig(s2, t).sync == Trig(s, t).sync
    requires (trig.sync.Some? ==> trig.sync.value in s.counters) && trig.sync != Trig(s, t).sync
    requires CountersKept(s, s2) && SameLists(s, s2)
    ensures var s' := Move(s2, t, trig);
      && s' == SetTrig(s2, t, trig).(counters := s'.counters) && CountersKept(s, s') && Moved(s, s', t, trig.sync)
      && Relocated(s, s', t, Trig(s, t).sync, trig.sync)
  {
    MoveEffect(s2, t, trig);
  }

  lemma InitStay(s: State, s2: State, t: TriggerId, trig: Trigger)
    requires Has(s, t) && OnOwnList(s, t) && trig.sync == Trig(s, t).sync
    requires trig.sync.Some? ==> trig.sync.value in s.counters && t in s.counters[trig.sync.value].triggers
    requires CountersKept(s, s2) && SameLists(s, s2)
    ensures var s' := if trig.sync.Some? then Refresh(s2, trig.sync.value) else s2;
      && OnlyCounters(s2, s') && CountersKept(s, s') && Moved(s, s', t, trig.sync)
      && Relocated(s, s', t, Trig(s, t).sync, trig.sync)
  {
    if trig.sync.Some? {
      RefreshFrame(s2, trig.sync.value);
    }
  }

  lemma SetTrigTwice(s: State, counters: map<Xid, Counter>, t: TriggerId, x: Trigger, y: Trigger)
    requires Has(s, t)
    ensures var s1 := s.(counters := counters);
      && Has(s1, t) && Has(SetTrig(s1, t, x), t)
      && SetTrig(SetTrig(s1, t, x), t, y) == SetTrig(s, t, y).(counters := counters)
      && SetTrig(s1, t, y) == SetTrig(s, t, y).(counters := counters)
  {
    match t
    case AlarmTrigger(a) =>
      assert s.alarms[a := s.alarms[a].(trigger := x)][a := s.alarms[a].(trigger := y)]
          == s.alarms[a := s.alarms[a].(trigger := y)];
    case AwaitTrigger(w, i) =>
      var aw := s.awaits[w];
      var aw1 := aw.(conds := aw.conds[i := aw.conds[i].(trigger := x)]);
      var aw2 := aw.(conds := aw.conds[i := aw.conds[i].(trigger := y)]);
      assert aw1.(conds := aw1.conds[i := aw1.conds[i].(trigger := y)]) == aw2;
      assert s.awaits[w := aw1][w := aw2] == s.awaits[w := aw2];
  }

  // ----- the test value -----

  ghost predicate SameValues(s: State, s': State) {
    s'.counters.Keys == s.counters.Keys && forall d | d in s.counters :: s'.counters[d].value == s.counters[d].value
  }

  lemma DeleteValues(s: State, t: TriggerId)
    requires Has(s, t)
    ensures SameValues(s, DeleteTrigger(s, t))
  {
    hide Refresh;
    if Trig(s, t).sync.Some? && Trig(s, t).sync.value in s.counters {
      DeleteFrame(s, t);
    }
  }

  lemma AddValues(s: State, t: TriggerId)
    requires Has(s, t)
    ensures SameValues(s, AddTrigger(s, t))
  {
    hide Refresh;
    if Trig(s, t).sync.Some? && Trig(s, t).sync.value in s.counters {
      var c := Trig(s, t).sync.value;
      RefreshFrame(SetList(s, c, [t] + s.counters[c].triggers), c);
    }
  }

  lemma MoveValues(s: State, t: TriggerId, trig: Trigger)
    requires Has(s, t)
    ensures SameValues(s, Move(s, t, trig))
  {
    hide DeleteTrigger, AddTrigger;
    DeleteValues(s, t);
    var s3 := DeleteTrigger(s, t);
    if Has(s3, t) {
      SetTrigFrame(s3, t, trig);
      AddValues(SetTrig(s3, t, trig), t);
    }
  }

  /** The only value that SyncInitTrigger changes is that of a system counter, which is asked for it. */
  lemma InitValues(s: State, t: TriggerId, counter: Xid, ch: Changes, clock: Clock)
    requires Has(s, t) && InitStatus(s, Trig(s, t), counter, ch, clock) == Success
    ensures var s' := InitSuccess(s, t, counter, ch, clock);
      && s'.counters.Keys == s.counters.Keys
      && forall d | d in s.counters ::
           s'.counters[d].value
           == if NewSync(Trig(s, t), counter, ch) == Some(d) && IsSystem(s, d) then clock(d) else s.counters[d].value
  {
    hide Move, Refresh, Wrap, Target, InRange, DeleteTrigger, AddTrigger;
    var was := Trig(s, t);
    var trig := Installed(s, was, counter, ch, clock);
    QueriedSet(s, t, trig.sync, trig.(sync := was.sync), clock);
    InitUnfold(s, t, counter, ch, clock);
    var s2 := SetTrig(Query(s, trig.sync, clock), t, trig.(sync := was.sync));
    if ch.counter && trig.sync != was.sync {
      MoveValues(s2, t, trig);
    } else if trig.sync.Some? {
      RefreshFrame(s2, trig.sync.value);
    }
  }

  /**
   * What a trigger waits for after a successful SyncInitTrigger: the value given, if that is absolute, and otherwise so
   * much more than the counter has; a system counter is asked for what it has. What has not been named stays.
   */
  lemma InitTests(s: State, t: TriggerId, counter: Xid, ch: Changes, clock: Clock)
    requires Has(s, t) && OnOwnList(s, t)
    requires InitStatus(s, Trig(s, t), counter, ch, clock) == Success
    requires Trig(s, t).sync.Some? && !(ch.counter && NewSync(Trig(s, t), counter, ch) != Trig(s, t).sync) ==>
               t in s.counters[Trig(s, t).sync.value].triggers
    ensures Has(SyncModel.InitTrigger(s, t, counter, ch, clock), t)
    ensures var s' := SyncModel.InitTrigger(s, t, counter, ch, clock);
      var was, now := Trig(s, t), Trig(s', t);
      && now.sync == (if !ch.counter then was.sync else if counter == NONE then None else Some(counter))
      && (now.sync.Some? ==> now.sync.value in s.counters && now.sync.value in s'.counters)
      && (!ch.valueType && !ch.value ==> now.testValue == was.testValue)
      && ((ch.valueType || ch.value) && was.valueType.Absolute? ==> now.testValue == was.waitValue)
      && ((ch.valueType || ch.value) && !was.valueType.Absolute? ==>
            now.sync.Some? && now.testValue == s'.counters[now.sync.value].value + was.waitValue)
      && now.check == (if ch.testType then was.testType else was.check)
      && now.testType == was.testType && now.valueType == was.valueType && now.waitValue == was.waitValue
      && s'.counters.Keys == s.counters.Keys
      && forall d | d in s.counters ::
           s'.counters[d].value == if now.sync == Some(d) && s.counters[d].kind.SystemCounter? then clock(d)
                                   else s.counters[d].value
  {
    hide InitSuccess, Moved, Relocated, CountersKept, OnOwnList, Refresh, Query, Wrap;
    InitSuccessEffect(s, t, counter, ch, clock);
    SetTrigFrame(s, t, Installed(s, Trig(s, t), counter, ch, clock));
    InitValues(s, t, counter, ch, clock);
    MovedHas(s, t);
    if ch.valueType || ch.value {
      InitTarget(s, Trig(s, t), counter, ch, clock);
    }
  }

  lemma InitTarget(s: State, trig: Trigger, counter: Xid, ch: Changes, clock: Clock)
    requires InitStatus(s, trig, counter, ch, clock) == Success && (ch.valueType || ch.value)
    requires trig.sync.Some? ==> trig.sync.value in s.counters
    ensures var now := Installed(s, trig, counter, ch, clock);
      && (trig.valueType.Absolute? ==> now.testValue == trig.waitValue)
      && (!trig.valueType.Absolute? ==>
            now.sync.Some? && now.sync.value in s.counters && var c := now.sync.value;
            now.testValue == trig.waitValue
              + if s.counters[c].kind.SystemCounter? then clock(c) else s.counters[c].value)
  {
  }

  /** When SyncInitTrigger refuses, and with which error. */
  lemma InitRefuses(s: State, trig: Trigger, counter: Xid, ch: Changes, clock: Clock)
    requires trig.sync.Some? ==> trig.sync.value in s.counters
    ensures var status := InitStatus(s, trig, counter, ch, clock);
      var sync := if !ch.counter then trig.sync else if counter == NONE then None else Some(counter);
      if ch.counter && counter != NONE && counter !in s.counters then status == BadCounter
      else
        var v := if sync.None? then 0
                 else if s.counters[sync.value].kind.SystemCounter? then clock(sync.value)
                 else s.counters[sync.value].value;
        var relative := (ch.valueType || ch.value) && !trig.valueType.Absolute?;
        var unknown := ch.valueType && trig.valueType != Absolute && trig.valueType != Relative;
        && (status == BadMatch <==> !unknown && relative && sync.None?)
        && (status == BadValue <==>
              || unknown
              || (relative && sync.Some? && !(INT64_MIN <= v + trig.waitValue <= INT64_MAX))
              || (ch.testType && trig.testType.OtherTest? && !(relative && sync.None?)))
        && (status != BadMatch && status != BadValue ==> status == Success)
  {
  }

  /** A failing SyncInitTrigger touches no list: at most a test value and the value of a system counter. */
  lemma InitFailureEffect(s: State, t: TriggerId, counter: Xid, ch: Changes, clock: Clock)
    requires Has(s, t)
    ensures Has(InitFailure(s, t, counter, ch, clock), t)
    ensures var s' := InitFailure(s, t, counter, ch, clock);
      var trig := Trig(s, t).(testValue := Trig(s', t).testValue);
      && s' == SetTrig(s, t, trig).(counters := s'.counters) && CountersKept(s, s') && SameLists(s, s')
  {
    var sync := NewSync(Trig(s, t), counter, ch);
    QueryFrame(s, sync, clock);
    SetTrigFrame(s, t, Trig(s, t));
    SetTrigSame(s, t);
  }

  lemma SetTrigSame(s: State, t: TriggerId)
    requires Has(s, t)
    ensures SetTrig(s, t, Trig(s, t)) == s
  {
    match t
    case AlarmTrigger(a) =>
      assert s.alarms[a := s.alarms[a].(trigger := s.alarms[a].trigger)] == s.alarms;
    case AwaitTrigger(w, i) =>
      var aw := s.awaits[w];
      assert aw.conds[i := aw.conds[i].(trigger := aw.conds[i].trigger)] == aw.conds;
      assert s.awaits[w := aw.(conds := aw.conds)] == s.awaits;
  }

  /** Linked again once t, wherever it was, is on the list of its counter alone. */
  lemma MovedLinked(s: State, s': State, t: TriggerId)
    requires Linked(s) && Armed(s', t) && Moved(s, s', t, Trig(s', t).sync)
    requires Trig(s', t).sync.Some? ==> Trig(s', t).sync.value in s.counters
    requires forall u | u != t :: Armed(s', u) <==> Armed(s, u)
    requires forall u | u != t && Armed(s, u) :: Armed(s', u) && Trig(s', u).sync == Trig(s, u).sync
    requires forall w | w in s'.awaits :: s'.awaits[w].armed <= |s'.awaits[w].conds|
    ensures Linked(s')
  {
    forall c, u | c in s'.counters && u in s'.counters[c].triggers
      ensures Armed(s', u) && Trig(s', u).sync == Some(c)
    {
      if u != t {
        assert u in s.counters[c].triggers;
        assert Armed(s, u);
      }
    }
    forall u | Armed(s', u) && Trig(s', u).sync.Some?
      ensures var c := Trig(s', u).sync.value; c in s'.counters && u in s'.counters[c].triggers
    {
      if u != t {
        assert Armed(s, u);
        assert u in s.counters[Trig(s, u).sync.value].triggers;
      }
    }
  }
}
