/** How the trigger lists and the triggers fit together, and what unlinking and firing do to them. */
module SyncLinks {
  import opened Options
  import opened SyncTypes
  import opened SyncBrackets
  import opened SyncModel

  /** An alarm's trigger, or a condition of an await that has been initialised. */
  predicate Armed(s: State, t: TriggerId) {
    match t
    case AlarmTrigger(a) => a in s.alarms
    case AwaitTrigger(w, i) => w in s.awaits && i < s.awaits[w].armed <= |s.awaits[w].conds|
  }

  /** A trigger is on the list of its own counter, once, and on no other list. */
  ghost predicate Linked(s: State) {
    && (forall c, t | c in s.counters && t in s.counters[c].triggers :: Armed(s, t) && Trig(s, t).sync == Some(c))
    && (forall t | Armed(s, t) && Trig(s, t).sync.Some? ::
          var c := Trig(s, t).sync.value; c in s.counters && t in s.counters[c].triggers)
    && (forall c | c in s.counters :: NoDup(s.counters[c].triggers))
    && (forall w | w in s.awaits :: s.awaits[w].armed <= |s.awaits[w].conds|)
  }

  /** The check function is the one of the test type. */
  predicate Checks(trig: Trigger) {
    trig.check == trig.testType && !trig.testType.OtherTest?
  }

  /** An outstanding await waits on counters only, each at most once. */
  predicate AwaitComplete(aw: Await) {
    && aw.armed == |aw.conds|
    && (forall i | 0 <= i < |aw.conds| :: aw.conds[i].trigger.sync.Some? && Checks(aw.conds[i].trigger))
    && (forall i, j | 0 <= i < j < |aw.conds| :: aw.conds[i].trigger.sync != aw.conds[j].trigger.sync)
  }

  ghost predicate Complete(s: State) {
    forall w | w in s.awaits :: AwaitComplete(s.awaits[w])
  }

  ghost predicate NoneDying(s: State) {
    forall c | c in s.counters :: !s.counters[c].beingDestroyed
  }

  // ----- frames -----

  /** k' is k with another trigger list and, if it is a system counter, other brackets. */
  predicate Relisted(k: Counter, k': Counter, list: seq<TriggerId>) {
    && k'.value == k.value && k'.beingDestroyed == k.beingDestroyed && k'.triggers == list
    && (k.kind.ClientCounter? ==> k'.kind == k.kind)
    && (k.kind.SystemCounter? ==> k'.kind.SystemCounter? && k'.kind.ct == k.kind.ct)
  }

  ghost predicate SameButCounters(s: State, s': State) {
    s'.alarms == s.alarms && s'.awaits == s.awaits && s'.ignore == s.ignore && s'.gone == s.gone && s'.log == s.log
    && s'.counters.Keys == s.counters.Keys
  }

  lemma RefreshFrame(s: State, c: Xid)
    ensures SameButCounters(s, Refresh(s, c))
    ensures forall d | d in s.counters :: Relisted(s.counters[d], Refresh(s, c).counters[d], s.counters[d].triggers)
    ensures forall d | d in s.counters && d != c :: Refresh(s, c).counters[d] == s.counters[d]
  {
  }

  lemma DeleteFrame(s: State, t: TriggerId)
    requires Has(s, t) && Trig(s, t).sync.Some? && Trig(s, t).sync.value in s.counters
    ensures SameButCounters(s, DeleteTrigger(s, t))
    ensures forall d | d in s.counters ::
      Relisted(s.counters[d], DeleteTrigger(s, t).counters[d],
               if d == Trig(s, t).sync.value then Without(s.counters[d].triggers, t) else s.counters[d].triggers)
    ensures forall d | d in s.counters && d != Trig(s, t).sync.value :: DeleteTrigger(s, t).counters[d] == s.counters[d]
  {
  }

  // ----- unlinking an await -----

  /** The list without the first n conditions of await w. */
  function Prune(list: seq<TriggerId>, w: Xid, n: nat): (r: seq<TriggerId>)
    ensures forall t :: t in r <==> t in list && !(t.AwaitTrigger? && t.await == w && t.index < n)
  {
    if list == [] then []
    else if list[0].AwaitTrigger? && list[0].await == w && list[0].index < n then Prune(list[1..], w, n)
    else [list[0]] + Prune(list[1..], w, n)
  }

  lemma {:induction false} PruneNone(list: seq<TriggerId>, w: Xid, n: nat)
    requires forall t | t in list :: !(t.AwaitTrigger? && t.await == w && t.index < n)
    ensures Prune(list, w, n) == list
  {
    if list != [] {
      PruneNone(list[1..], w, n);
    }
  }

  lemma {:induction false} PruneKeepsNoDup(list: seq<TriggerId>, w: Xid, n: nat)
    requires NoDup(list)
    ensures NoDup(Prune(list, w, n))
  {
    if list != [] {
      PruneKeepsNoDup(list[1..], w, n);
      assert list[0] !in list[1..];
    }
  }

  lemma {:induction false} PruneStep(list: seq<TriggerId>, w: Xid, n: nat)
    requires NoDup(list) && n > 0
    ensures Prune(list, w, n) == Without(Prune(list, w, n - 1), AwaitTrigger(w, n - 1))
  {
    if list != [] {
      PruneStep(list[1..], w, n);
      var rest := Prune(list[1..], w, n - 1);
      assert list[0] !in list[1..];
      if list[0] == AwaitTrigger(w, n - 1) {
        WithoutAbsent(rest, list[0]);
      } else if !(list[0].AwaitTrigger? && list[0].await == w && list[0].index < n) {
        assert ([list[0]] + rest)[1..] == rest;
      }
    }
  }

  lemma PruneSame(list: seq<TriggerId>, w: Xid, n: nat)
    requires NoDup(list) && n > 0 && AwaitTrigger(w, n - 1) !in list
    ensures Prune(list, w, n) == Prune(list, w, n - 1)
  {
    PruneStep(list, w, n);
    WithoutAbsent(Prune(list, w, n - 1), AwaitTrigger(w, n - 1));
  }

  function Pruned(k: Counter, w: Xid, n: nat): seq<TriggerId> {
    if k.beingDestroyed then k.triggers else Prune(k.triggers, w, n)
  }

  lemma UnlinkStep(s: State, u: State, w: Xid, n: nat)
    requires Linked(s) && w in s.awaits && 0 < n <= s.awaits[w].armed
    requires SameButCounters(s, u)
    requires forall c | c in s.counters :: Relisted(s.counters[c], u.counters[c], Pruned(s.counters[c], w, n - 1))
    ensures SameButCounters(s, UnlinkOne(u, w, n - 1))
    ensures forall c | c in s.counters ::
      Relisted(s.counters[c], UnlinkOne(u, w, n - 1).counters[c], Pruned(s.counters[c], w, n))
  {
    var t := AwaitTrigger(w, n - 1);
    assert Armed(s, t) && Has(u, t) && Trig(u, t) == Trig(s, t);
    if Trig(s, t).sync.Some? {
      DeleteFrame(u, t);
    }
    forall c | c in s.counters
      ensures Relisted(s.counters[c], UnlinkOne(u, w, n - 1).counters[c], Pruned(s.counters[c], w, n))
    {
      assert Relisted(s.counters[c], u.counters[c], Pruned(s.counters[c], w, n - 1));
      if Trig(s, t).sync == Some(c) {
        PruneStep(s.counters[c].triggers, w, n);
      } else {
        PruneSame(s.counters[c].triggers, w, n);
      }
    }
  }

  lemma {:induction false} UnlinkEffect(s: State, w: Xid, n: nat)
    requires Linked(s) && w in s.awaits && n <= s.awaits[w].armed
    ensures SameButCounters(s, Unlink(s, w, n))
    ensures forall c | c in s.counters ::
      Relisted(s.counters[c], Unlink(s, w, n).counters[c], Pruned(s.counters[c], w, n))
  {
    if n == 0 {
      forall c | c in s.counters ensures Pruned(s.counters[c], w, 0) == s.counters[c].triggers {
        PruneNone(s.counters[c].triggers, w, 0);
      }
    } else {
      UnlinkEffect(s, w, n - 1);
      UnlinkStep(s, Unlink(s, w, n - 1), w, n);
    }
  }

  /** Freeing an await takes its conditions off every list and changes nothing else on them. */
  lemma FreeAwaitEffect(s: State, w: Xid)
    requires Linked(s) && w in s.awaits
    ensures var s' := FreeAwait(s, w); AwaitGone(s, s', w) && s'.ignore == s.ignore && s'.log == s.log
    ensures OffDying(s, w) ==> Linked(FreeAwait(s, w))
  {
    UnlinkEffect(s, w, s.awaits[w].armed);
    if OffDying(s, w) {
      AwaitGoneLinked(s, FreeAwait(s, w), w);
    }
  }

  /** No condition of w is on the list of a counter that is being destroyed. */
  ghost predicate OffDying(s: State, w: Xid) {
    forall c, i | c in s.counters && s.counters[c].beingDestroyed && 0 <= i :: AwaitTrigger(w, i) !in s.counters[c].triggers
  }

  /** s' is s with await w gone and its conditions off every list. */
  ghost predicate AwaitGone(s: State, s': State, w: Xid)
    requires w in s.awaits
  {
    && s'.alarms == s.alarms && s'.awaits == s.awaits - {w} && s'.gone == s.gone && s'.counters.Keys == s.counters.Keys
    && forall c | c in s.counters :: Relisted(s.counters[c], s'.counters[c], Pruned(s.counters[c], w, s.awaits[w].armed))
  }

  /** Taking one await and all its conditions away keeps everything else linked. */
  lemma RemovalLinked(s: State, s': State, w: Xid)
    requires Linked(s) && w in s.awaits
    requires s'.alarms == s.alarms && s'.awaits == s.awaits - {w} && s'.counters.Keys == s.counters.Keys
    requires forall c | c in s.counters :: NoDup(s'.counters[c].triggers)
    requires forall c, t | c in s.counters ::
      t in s'.counters[c].triggers <==> t in s.counters[c].triggers && !(t.AwaitTrigger? && t.await == w)
    ensures Linked(s')
  {
    forall c, t | c in s'.counters && t in s'.counters[c].triggers
      ensures Armed(s', t) && Trig(s', t).sync == Some(c)
    {
      assert t in s.counters[c].triggers;
      assert Armed(s, t);
    }
    forall t | Armed(s', t) && Trig(s', t).sync.Some?
      ensures var c := Trig(s', t).sync.value; c in s'.counters && t in s'.counters[c].triggers
    {
      assert Armed(s, t) && Trig(s, t) == Trig(s', t);
      assert t in s.counters[Trig(s, t).sync.value].triggers;
    }
  }

  lemma AwaitGoneLinked(s: State, s': State, w: Xid)
    requires Linked(s) && w in s.awaits && OffDying(s, w) && AwaitGone(s, s', w)
    ensures Linked(s')
  {
    var n := s.awaits[w].armed;
    forall c | c in s.counters
      ensures NoDup(s'.counters[c].triggers)
      ensures forall t :: t in s'.counters[c].triggers <==>
                          t in s.counters[c].triggers && !(t.AwaitTrigger? && t.await == w)
    {
      PruneKeepsNoDup(s.counters[c].triggers, w, n);
      assert s'.counters[c].triggers == Pruned(s.counters[c], w, n);
      assert forall t | t in s.counters[c].triggers :: Armed(s, t);
    }
    RemovalLinked(s, s', w);
  }

  // ----- firing -----

  /** What is true of any state with the same lists, alarms and awaits. */
  lemma LinkedFrame(s: State, s': State)
    requires Linked(s) && s'.counters == s.counters && s'.alarms == s.alarms && s'.awaits == s.awaits
    ensures Linked(s')
  {
    assert forall t | Armed(s', t) :: Armed(s, t) && Trig(s', t) == Trig(s, t);
    assert forall t | Armed(s, t) :: Armed(s', t);
  }

  lemma FreedAfterEvents(s: State, w: Xid, events: seq<Event>)
    requires Linked(s) && w in s.awaits
    ensures var s1 := Unignore(s.(log := s.log + events), s.awaits[w].client);
      && w in s1.awaits && AwaitGone(s, FreeAwait(s1, w), w)
      && FreeAwait(s1, w).ignore == Unignore(s, s.awaits[w].client).ignore
  {
    var s1 := Unignore(s.(log := s.log + events), s.awaits[w].client);
    LinkedFrame(s, s1);
    FreeAwaitEffect(s1, w);
  }

  lemma FireAwaitEffect(s: State, w: Xid)
    requires Linked(s) && w in s.awaits
    ensures var s' := FireAwait(s, w); AwaitGone(s, s', w) && s'.ignore == Unignore(s, s.awaits[w].client).ignore
    ensures OffDying(s, w) ==> Linked(FireAwait(s, w))
  {
    var aw := s.awaits[w];
    var conds := EventConds(s, aw.conds[..aw.armed]);
    var events := if aw.client in s.gone then [] else CounterEvents(s, aw.client, conds);
    FreedAfterEvents(s, w, events);
    if OffDying(s, w) {
      AwaitGoneLinked(s, FireAwait(s, w), w);
    }
  }

  predicate AlarmSpins(s: State, a: Xid)
    requires a in s.alarms
  {
    var alarm := s.alarms[a];
    alarm.trigger.sync.Some? && Spins(alarm, ValueOf(s, alarm.trigger.sync.value))
  }

  /**
   * Firing an alarm changes its state, its test value and the log; the trigger is FALSE if it stays Active,
   * unless the procedure does not return.
   */
  lemma FireAlarmEffect(s: State, a: Xid)
    requires a in s.alarms
    ensures var s' := FireAlarm(s, a);
      && s' == s.(alarms := s'.alarms, log := s'.log) && s'.alarms.Keys == s.alarms.Keys
      && (forall b | b in s.alarms && b != a :: s'.alarms[b] == s.alarms[b])
      && s'.alarms[a] == s.alarms[a].(state := s'.alarms[a].state,
                                      trigger := s.alarms[a].trigger.(testValue := s'.alarms[a].trigger.testValue))
      && (s.alarms[a].state != Active ==> s' == s)
      && (s.alarms[a].state == Active ==> s'.alarms[a].state in {Active, Inactive})
      && (s'.alarms[a].state == Active && !AlarmSpins(s, a) ==>
            var trig := s'.alarms[a].trigger;
            trig.sync.Some? && var v := ValueOf(s, trig.sync.value); !CheckValue(trig.check, v, v, trig.testValue))
  {
    var alarm := s.alarms[a];
    var trig := alarm.trigger;
    if alarm.state == Active && trig.sync.Some? && !AlarmSpins(s, a)
       && !(alarm.delta == 0 && trig.testType.Comparison()) {
      AdvanceIsFalse(trig.check, ValueOf(s, trig.sync.value), trig.testValue, alarm.delta);
    }
  }

  lemma {:induction false} AdvanceIsFalse(check: TestType, v: Int64, test: Int64, delta: Int64)
    requires delta != 0 || !CheckValue(check, v, v, test)
    ensures var r := Advance(check, v, test, delta); r.Some? ==> !CheckValue(check, v, v, r.value)
    decreases if delta > 0 then INT64_MAX - test else test - INT64_MIN
  {
    if InRange(test + delta) && CheckValue(check, v, v, test + delta) {
      AdvanceIsFalse(check, v, test + delta, delta);
    }
  }

  lemma FireAlarmLinked(s: State, a: Xid)
    requires Linked(s) && a in s.alarms
    ensures Linked(FireAlarm(s, a))
  {
    FireAlarmEffect(s, a);
    var s' := FireAlarm(s, a);
    assert forall t | Armed(s', t) :: Armed(s, t) && Trig(s', t).sync == Trig(s, t).sync;
    assert forall t | Armed(s, t) :: Armed(s', t);
  }

  /** Values, kinds and the set of counters are not touched by firing; lists only lose conditions of fired awaits. */
  ghost predicate Fired(s: State, s': State) {
    && s'.counters.Keys == s.counters.Keys && s'.gone == s.gone
    && s'.alarms.Keys == s.alarms.Keys && s'.awaits.Keys <= s.awaits.Keys
    && (forall w | w in s'.awaits :: s'.awaits[w] == s.awaits[w])
    && (forall c | c in s.counters :: Relisted(s.counters[c], s'.counters[c], s'.counters[c].triggers))
    && (forall c, t | c in s.counters && t in s'.counters[c].triggers :: t in s.counters[c].triggers)
    && (forall a | a in s.alarms :: SameAlarm(s.alarms[a], s'.alarms[a]))
  }

  /** Only the state and the test value of an alarm change when it goes off. */
  predicate SameAlarm(alarm: Alarm, alarm': Alarm) {
    && alarm' == alarm.(state := alarm'.state, trigger := alarm.trigger.(testValue := alarm'.trigger.testValue))
    && (alarm'.state != alarm.state ==> alarm.state == Active && alarm'.state == Inactive)
    && (alarm.state != Active ==> alarm' == alarm)
  }

  lemma FireAlarmFired(s: State, a: Xid)
    requires Linked(s) && NoneDying(s) && a in s.alarms
    ensures var s' := FireAlarm(s, a);
      && Linked(s') && NoneDying(s') && Fired(s, s') && (Complete(s) ==> Complete(s'))
      && s'.awaits == s.awaits && s'.ignore == s.ignore
      && forall b | b in s.alarms && b != a :: s'.alarms[b] == s.alarms[b]
  {
    hide FireAlarm, Linked;
    FireAlarmEffect(s, a);
    FireAlarmLinked(s, a);
  }

  lemma FireAwaitFired(s: State, w: Xid)
    requires Linked(s) && NoneDying(s) && w in s.awaits
    ensures var s' := FireAwait(s, w);
      && Linked(s') && NoneDying(s') && Fired(s, s') && (Complete(s) ==> Complete(s'))
      && w !in s'.awaits && s'.alarms == s.alarms
  {
    hide FireAwait, Linked, Prune;
    FireAwaitEffect(s, w);
  }

  lemma FireEffect(s: State, t: TriggerId)
    requires Linked(s) && NoneDying(s)
    ensures Linked(Fire(s, t)) && NoneDying(Fire(s, t)) && Fired(s, Fire(s, t))
    ensures Complete(s) ==> Complete(Fire(s, t))
    ensures t.AwaitTrigger? ==> t.await !in Fire(s, t).awaits && Fire(s, t).alarms == s.alarms
    ensures t.AlarmTrigger? ==> Fire(s, t).awaits == s.awaits && Fire(s, t).ignore == s.ignore
    ensures t.AlarmTrigger? ==> forall b | b in s.alarms && b != t.alarm :: Fire(s, t).alarms[b] == s.alarms[b]
  {
    hide FireAlarm, FireAwait;
    match t
    case AlarmTrigger(a) =>
      if a in s.alarms {
        FireAlarmFired(s, a);
      }
    case AwaitTrigger(w, _) =>
      if w in s.awaits {
        FireAwaitFired(s, w);
      }
  }

  /** The node saved in pnext outlives the firing of the one before exactly if the two are not conditions of one await. */
  lemma SavedNextIsSafe(s: State, c: Xid, i: nat)
    requires Linked(s) && NoneDying(s) && c in s.counters && i + 1 < |s.counters[c].triggers|
    ensures var t, next := s.counters[c].triggers[i], s.counters[c].triggers[i + 1];
      c in Fire(s, t).counters &&
      (next in Fire(s, t).counters[c].triggers
       <==> !(t.AwaitTrigger? && next.AwaitTrigger? && t.await == next.await))
  {
    hide FireAlarm, FireAwait, Prune;
    var t, next := s.counters[c].triggers[i], s.counters[c].triggers[i + 1];
    assert Armed(s, t) && Armed(s, next);
    match t
    case AlarmTrigger(a) => FireAlarmEffect(s, a);
    case AwaitTrigger(w, _) =>
      FireAwaitEffect(s, w);
      assert Relisted(s.counters[c], Fire(s, t).counters[c], Pruned(s.counters[c], w, s.awaits[w].armed));
  }

  lemma FiredTransitive(s1: State, s2: State, s3: State)
    requires Fired(s1, s2) && Fired(s2, s3)
    ensures Fired(s1, s3)
  {
    forall c, t | c in s1.counters && t in s3.counters[c].triggers ensures t in s1.counters[c].triggers {
      assert t in s2.counters[c].triggers;
    }
  }

  lemma {:induction false} FireAllEffect(s: State, ts: seq<TriggerId>)
    requires Linked(s) && NoneDying(s)
    ensures Linked(FireAll(s, ts)) && NoneDying(FireAll(s, ts)) && Fired(s, FireAll(s, ts))
    ensures Complete(s) ==> Complete(FireAll(s, ts))
    ensures forall t | t in ts && t.AwaitTrigger? :: t.await !in FireAll(s, ts).awaits
    ensures forall a | a in s.alarms && AlarmTrigger(a) !in ts :: FireAll(s, ts).alarms[a] == s.alarms[a]
  {
    if ts != [] {
      var n := |ts| - 1;
      assert ts == ts[..n] + [ts[n]];
      FireAllEffect(s, ts[..n]);
      var p := FireAll(s, ts[..n]);
      FireEffect(p, ts[n]);
      FiredTransitive(s, p, FireAll(s, ts));
    }
  }

  /** The trigger of an alarm is FALSE if the alarm is Active. */
  predicate FalseIfActive(s: State, a: Xid)
    requires a in s.alarms
  {
    var trig := s.alarms[a].trigger;
    s.alarms[a].state == Active ==>
      trig.sync.Some? && var v := ValueOf(s, trig.sync.value); !CheckValue(trig.check, v, v, trig.testValue)
  }

  lemma FalseIfActiveKept(s: State, s': State, a: Xid)
    requires Fired(s, s') && a in s.alarms && s'.alarms[a] == s.alarms[a] && FalseIfActive(s, a)
    ensures FalseIfActive(s', a)
  {
    var sync := s.alarms[a].trigger.sync;
    if sync.Some? && sync.value in s.counters {
      assert Relisted(s.counters[sync.value], s'.counters[sync.value], s'.counters[sync.value].triggers);
    }
  }

  lemma {:induction false} FiredAlarmsAreFalse(s: State, ts: seq<TriggerId>, a: Xid)
    requires Linked(s) && NoneDying(s) && a in s.alarms
    requires AlarmTrigger(a) in ts || FalseIfActive(s, a)
    requires Checks(s.alarms[a].trigger)
    ensures a in FireAll(s, ts).alarms && FalseIfActive(FireAll(s, ts), a)
  {
    if ts != [] {
      var n := |ts| - 1;
      assert ts == ts[..n] + [ts[n]];
      FireAllEffect(s, ts[..n]);
      var p := FireAll(s, ts[..n]);
      assert SameAlarm(s.alarms[a], p.alarms[a]);
      if ts[n] == AlarmTrigger(a) {
        FireAlarmEffect(p, a);
      } else {
        FiredAlarmsAreFalse(s, ts[..n], a);
        FireEffect(p, ts[n]);
        FalseIfActiveKept(p, FireAll(s, ts), a);
      }
    }
  }
}
