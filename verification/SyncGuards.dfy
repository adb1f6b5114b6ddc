/**
 * Which requests leave the brackets of an unrestricted system counter fit for the shortcut of SyncIdle: the brackets are
 * computed when a trigger joins or leaves, but not when an alarm goes off on arrival.
 */
module SyncGuards {
  import opened Options
  import opened Wire
  import opened SyncTypes
  import opened SyncBrackets
  import opened SyncModel
  import opened SyncRequests
  import opened SyncLinks
  import opened SyncInvariants
  import opened SyncInit
  import SyncRuns
  import opened SyncIdle
  import opened SyncMissed

  // ----- guarded, but for the triggers of one owner -----

  datatype Owner = Nobody | OfAlarm(a: Xid) | OfAwait(w: Xid)

  predicate Owns(o: Owner, t: TriggerId) {
    match o
    case Nobody => false
    case OfAlarm(a) => t == AlarmTrigger(a)
    case OfAwait(w) => t.AwaitTrigger? && t.await == w
  }

  predicate Free(s: State, c: Xid) {
    IsSystem(s, c) && s.counters[c].kind.ct == Unrestricted
  }

  ghost predicate QuiescentBut(s: State, c: Xid, v: Int64, o: Owner) {
    c in s.counters &&
    forall t | t in s.counters[c].triggers && Has(s, t) && Pending(s, t) && !Owns(o, t) :: !ComparisonTrue(v, Trig(s, t))
  }

  /** With the counter at u: the brackets see the trigger, and it is not a TRUE comparison already. */
  predicate Heard(trig: Trigger, b: Brackets, u: Int64) {
    !Unseen(trig, b, u) && !ComparisonTrue(u, trig)
  }

  /** All pending triggers of c would be heard if the counter had the value u. */
  ghost predicate HeardBut(s: State, c: Xid, u: Int64, o: Owner) {
    c in s.counters &&
    forall t | t in s.counters[c].triggers && Has(s, t) && Pending(s, t) && !Owns(o, t) ::
      Heard(Trig(s, t), BracketsOf(s, c), u)
  }

  ghost predicate GuardedBut(s: State, c: Xid, o: Owner) {
    Free(s, c) && HeardBut(s, c, s.counters[c].value, o)
  }

  /** The shortcut misses nothing, and nothing has been missed that computing the brackets anew would lose. */
  ghost predicate Guarded(s: State, c: Xid) {
    GuardedBut(s, c, Nobody)
  }

  lemma GuardedMissesNothing(s: State, c: Xid)
    requires Inv(s) && Guarded(s, c)
    ensures MissesNothing(s, c)
  {
    hide Inv, Unseen, FastRun, SlowRun;
    MissesNothingIff(s, c);
  }

  /** Brackets just computed, and nothing missed. */
  lemma NowGuarded(s: State, c: Xid, o: Owner)
    requires Fresh(s, c) && QuiescentBut(s, c, s.counters[c].value, o)
    ensures GuardedBut(s, c, o)
  {
    hide NarrowAll, Unseen;
    var v := s.counters[c].value;
    forall t | t in s.counters[c].triggers && Has(s, t) && Pending(s, t) && !Owns(o, t)
      ensures Heard(Trig(s, t), BracketsOf(s, c), v)
    {
      ComputedSee(v, Triggers(s, s.counters[c].triggers), Trig(s, t));
    }
  }

  // ----- changes that keep a counter guarded -----

  predicate SameTest(t: Trigger, t': Trigger) {
    t'.testType == t.testType && t'.testValue == t.testValue
  }

  ghost predicate SameTests(s: State, s': State, list: seq<TriggerId>) {
    forall t | t in list :: Has(s, t) && Has(s', t) && SameTest(Trig(s, t), Trig(s', t))
  }

  lemma SameNarrow(v: Int64, t: Trigger, t': Trigger, b: Brackets)
    requires SameTest(t, t')
    ensures Narrow(Unrestricted, v, t', b) == Narrow(Unrestricted, v, t, b)
  {
  }

  lemma NarrowLast(v: Int64, ts: seq<Trigger>, t: Trigger)
    ensures NarrowAll(Unrestricted, v, ts + [t]) == Narrow(Unrestricted, v, t, NarrowAll(Unrestricted, v, ts))
  {
    assert (ts + [t])[..|ts|] == ts;
  }

  /** Brackets depend on the tests of the list alone. */
  lemma {:induction false} SameBrackets(s: State, s': State, list: seq<TriggerId>, v: Int64)
    requires SameTests(s, s', list)
    ensures NarrowAll(Unrestricted, v, Triggers(s, list)) == NarrowAll(Unrestricted, v, Triggers(s', list))
  {
    hide Narrow, NarrowAll;
    if list != [] {
      var n := |list| - 1;
      var t, t' := Trig(s, list[n]), Trig(s', list[n]);
      SameBrackets(s, s', list[..n], v);
      NarrowLast(v, Triggers(s, list[..n]), t);
      NarrowLast(v, Triggers(s', list[..n]), t');
      SameNarrow(v, t, t', NarrowAll(Unrestricted, v, Triggers(s, list[..n])));
    }
  }

  /** No trigger has joined or changed its test; the brackets are as they were, or have been computed anew. */
  ghost predicate Kept(s: State, s': State, c: Xid) {
    && Free(s, c) && Free(s', c) && s'.counters[c].value == s.counters[c].value
    && NoDup(s'.counters[c].triggers) && SameTests(s, s', s'.counters[c].triggers)
    && (forall t | t in s'.counters[c].triggers ::
          t in s.counters[c].triggers && (Pending(s', t) ==> Pending(s, t)))
    && ((s'.counters[c].triggers == s.counters[c].triggers && BracketsOf(s', c) == BracketsOf(s, c)) || Fresh(s', c))
  }

  lemma KeptSelf(s: State, c: Xid)
    requires Linked(s) && Free(s, c)
    ensures Kept(s, s, c)
  {
    assert forall t | t in s.counters[c].triggers :: Armed(s, t);
  }

  lemma KeptTwice(s1: State, s2: State, s3: State, c: Xid)
    requires Kept(s1, s2, c) && Kept(s2, s3, c)
    ensures Kept(s1, s3, c)
  {
    hide NarrowAll;
    if !Fresh(s3, c) && Fresh(s2, c) {
      SameBrackets(s2, s3, s2.counters[c].triggers, s2.counters[c].value);
    }
  }

  lemma SameHeard(trig: Trigger, trig': Trigger, b: Brackets, u: Int64)
    requires SameTest(trig, trig')
    ensures Heard(trig, b, u) <==> Heard(trig', b, u)
  {
  }

  lemma KeptGuard(s: State, s': State, c: Xid, o: Owner)
    requires GuardedBut(s, c, o) && Kept(s, s', c)
    ensures GuardedBut(s', c, o)
  {
    hide NarrowAll, Unseen, Triggers;
    if Fresh(s', c) {
      NowGuarded(s', c, o);
    } else {
      KeptHeard(s, s', c, s.counters[c].value, o);
    }
  }

  lemma KeptHeard(s: State, s': State, c: Xid, v: Int64, o: Owner)
    requires HeardBut(s, c, v, o) && Kept(s, s', c) && BracketsOf(s', c) == BracketsOf(s, c)
    ensures HeardBut(s', c, v, o)
  {
    hide NarrowAll, Heard, Fresh;
    forall t | t in s'.counters[c].triggers && Has(s', t) && Pending(s', t) && !Owns(o, t)
      ensures Heard(Trig(s', t), BracketsOf(s', c), v)
    {
      SameHeard(Trig(s, t), Trig(s', t), BracketsOf(s, c), v);
    }
  }

  lemma ShorterKept(s: State, c: Xid, list: seq<TriggerId>)
    requires Kept(s, s, c) && NoDup(list) && forall t | t in list :: t in s.counters[c].triggers
    ensures Kept(s, Refresh(SetList(s, c, list), c), c)
  {
    hide NarrowAll, Fresh, Refresh, Triggers, BracketsOf;
    var s1 := SetList(s, c, list);
    RefreshFrame(s1, c);
    RefreshFresh(s1, c);
    assert Relisted(s1.counters[c], Refresh(s1, c).counters[c], list);
  }

  /** A trigger taken off a list */
  lemma DeleteKept(s: State, t: TriggerId, c: Xid)
    requires Kept(s, s, c)
    ensures Kept(s, DeleteTrigger(s, t), c)
  {
    hide NarrowAll, Refresh;
    if Has(s, t) && Trig(s, t).sync.Some? && Trig(s, t).sync.value in s.counters {
      if Trig(s, t).sync == Some(c) {
        WithoutMembers(s.counters[c].triggers, t);
        ShorterKept(s, c, Without(s.counters[c].triggers, t));
      } else {
        DeleteFrame(s, t);
      }
    }
  }

  // ----- freeing and firing -----

  lemma {:induction false} UnlinkKept(s: State, w: Xid, n: nat, c: Xid)
    requires Linked(s) && Free(s, c) && w in s.awaits && n <= s.awaits[w].armed
    ensures Kept(s, Unlink(s, w, n), c)
  {
    hide NarrowAll, DeleteTrigger, Prune, Fresh;
    KeptSelf(s, c);
    if n > 0 {
      var u := Unlink(s, w, n - 1);
      UnlinkKept(s, w, n - 1, c);
      assert Kept(u, u, c);
      if UnlinkOne(u, w, n - 1) != u {
        DeleteKept(u, AwaitTrigger(w, n - 1), c);
      }
      KeptTwice(s, u, UnlinkOne(u, w, n - 1), c);
    }
  }

  lemma FreeAwaitKept(s: State, w: Xid, c: Xid)
    requires Linked(s) && Free(s, c) && w in s.awaits && !s.counters[c].beingDestroyed
    ensures Kept(s, FreeAwait(s, w), c)
  {
    hide NarrowAll, Unlink, Prune, Fresh;
    var n := s.awaits[w].armed;
    var u, s' := Unlink(s, w, n), FreeAwait(s, w);
    UnlinkKept(s, w, n, c);
    UnlinkEffect(s, w, n);
    assert Relisted(s.counters[c], u.counters[c], Pruned(s.counters[c], w, n));
    ArmedOnList(s, c, w);
    assert Kept(u, s', c);
    KeptTwice(s, u, s', c);
  }

  lemma FireAwaitKept(s: State, w: Xid, c: Xid)
    requires Linked(s) && Free(s, c) && w in s.awaits && !s.counters[c].beingDestroyed
    ensures s.awaits[w].armed <= |s.awaits[w].conds| && Kept(s, FireAwait(s, w), c)
  {
    hide NarrowAll, FreeAwait, Triggers;
    var aw := s.awaits[w];
    var conds := EventConds(s, aw.conds[..aw.armed]);
    var events := if aw.client in s.gone then [] else CounterEvents(s, aw.client, conds);
    var s1 := Unignore(s.(log := s.log + events), aw.client);
    LinkedFrame(s, s1);
    KeptSelf(s, c);
    assert Kept(s, s1, c);
    FreeAwaitKept(s1, w, c);
    KeptTwice(s, s1, FreeAwait(s1, w), c);
  }

  /** Alarms that are not on the list do not matter. */
  lemma OtherAlarmsKept(s: State, s': State, c: Xid)
    requires Linked(s) && Free(s, c) && s'.counters == s.counters && s'.awaits == s.awaits
    requires forall a | AlarmTrigger(a) in s.counters[c].triggers ::
               a in s.alarms && a in s'.alarms && s'.alarms[a] == s.alarms[a]
    ensures Kept(s, s', c)
  {
    hide NarrowAll, Fresh;
    KeptSelf(s, c);
  }

  lemma FireKept(s: State, t: TriggerId, c: Xid)
    requires Linked(s) && NoneDying(s) && Free(s, c) && (t.AlarmTrigger? ==> t !in s.counters[c].triggers)
    ensures Kept(s, Fire(s, t), c)
  {
    hide NarrowAll, Fresh, FireAlarm, FireAwait, Kept;
    KeptSelf(s, c);
    match t
    case AlarmTrigger(a) =>
      if a in s.alarms {
        FireAlarmEffect(s, a);
        assert forall b | AlarmTrigger(b) in s.counters[c].triggers :: Armed(s, AlarmTrigger(b));
        OtherAlarmsKept(s, FireAlarm(s, a), c);
      }
    case AwaitTrigger(w, _) =>
      if w in s.awaits {
        FireAwaitKept(s, w, c);
      }
  }

  lemma {:induction false} FireAllKept(s: State, ts: seq<TriggerId>, c: Xid)
    requires Linked(s) && NoneDying(s) && Free(s, c)
    requires forall t | t in ts && t.AlarmTrigger? :: t !in s.counters[c].triggers
    ensures Kept(s, FireAll(s, ts), c)
  {
    hide NarrowAll, Fresh, Fire, Linked, NoneDying;
    KeptSelf(s, c);
    if ts != [] {
      var n := |ts| - 1;
      assert forall t | t in ts[..n] :: t in ts;
      FireAllKept(s, ts[..n], c);
      FireAllEffect(s, ts[..n]);
      var p := FireAll(s, ts[..n]);
      FireKept(p, ts[n], c);
      KeptTwice(s, p, Fire(p, ts[n]), c);
    }
  }

  lemma RefreshOtherKept(s: State, d: Xid, c: Xid)
    requires Linked(s) && Free(s, c) && c != d
    ensures Kept(s, Refresh(s, d), c)
  {
    hide NarrowAll, Fresh, Triggers;
    KeptSelf(s, c);
    RefreshFrame(s, d);
  }

  /** What is on the list of one counter is on no other. */
  lemma OnOneList(s: State, c: Xid, d: Xid, t: TriggerId)
    requires Linked(s) && c in s.counters && d in s.counters && c != d && t in s.counters[d].triggers
    ensures t !in s.counters[c].triggers
  {
    assert Armed(s, t) && Trig(s, t).sync == Some(d);
  }

  /** A change of another counter */
  lemma ChangeOtherKept(s: State, d: Xid, v: Int64, c: Xid)
    requires Inv(s) && Free(s, c) && d in s.counters && c != d
    ensures Kept(s, SyncModel.ChangeCounter(s, d, v), c)
  {
    hide NarrowAll, Fresh, Triggers, FireAll, Refresh, Blocking, AlarmsOk;
    var s1 := SetValue(s, d, v);
    var ts := True(s1, s.counters[d].triggers, s.counters[d].value);
    SameLinksLinked(s, s1);
    KeptSelf(s, c);
    assert Kept(s, s1, c);
    forall t | t in ts
      ensures t !in s1.counters[c].triggers
    {
      OnOneList(s, c, d, t);
    }
    FireAllKept(s1, ts, c);
    FireAllEffect(s1, ts);
    var s2 := FireAll(s1, ts);
    RefreshOtherKept(s2, d, c);
    KeptTwice(s, s1, s2, c);
    KeptTwice(s, s2, Refresh(s2, d), c);
  }

  /** A change of the counter itself: every walk ends by computing the brackets. */
  lemma ChangeGuarded(s: State, c: Xid, v: Int64)
    requires Inv(s) && Free(s, c)
    ensures GuardedBut(SyncModel.ChangeCounter(s, c, v), c, Nobody)
  {
    hide NarrowAll, SyncModel.ChangeCounter;
    QuiescentAfter(s, c, v);
    FreshAfter(s, c, v);
    NowGuarded(SyncModel.ChangeCounter(s, c, v), c, Nobody);
  }

  /** A value inside the brackets, stored without a check */
  lemma QuietGuarded(s: State, c: Xid, v: Card32, o: Owner)
    requires GuardedBut(s, c, o) && Quiet(BracketsOf(s, c), v)
    ensures GuardedBut(SetValue(s, c, v), c, o)
  {
    hide NarrowAll;
    var s' := SetValue(s, c, v);
    QuietBetween(BracketsOf(s, c), v);
    forall t | t in s'.counters[c].triggers && Has(s', t) && Pending(s', t) && !Owns(o, t)
      ensures Heard(Trig(s', t), BracketsOf(s', c), v)
    {
      assert Heard(Trig(s, t), BracketsOf(s, c), s.counters[c].value);
    }
  }

  // ----- destroying -----

  lemma FreeAlarmKept(s: State, a: Xid, c: Xid)
    requires Linked(s) && Free(s, c) && a in s.alarms
    ensures Kept(s, FreeAlarm(s, a), c)
  {
    hide NarrowAll, Fresh, DeleteTrigger, Triggers;
    var t := AlarmTrigger(a);
    var s1 := NotifyAlarm(SetAlarm(s, a, s.alarms[a].(state := Destroyed)), a);
    KeptSelf(s, c);
    assert Kept(s, s1, c);
    DeleteKept(s1, t, c);
    var s2, s' := DeleteTrigger(s1, t), FreeAlarm(s, a);
    KeptTwice(s, s1, s2, c);
    FreeAlarmEffect(s, a);
    WithoutMembers(s.counters[c].triggers, t);
    assert Relisted(s.counters[c], s'.counters[c], Without(s.counters[c].triggers, t));
    DeleteOnly(s1, t);
    assert Kept(s2, s', c);
    KeptTwice(s, s2, s', c);
  }

  lemma DeleteOnly(s: State, t: TriggerId)
    ensures OnlyCounters(s, DeleteTrigger(s, t))
  {
    if Has(s, t) && Trig(s, t).sync.Some? && Trig(s, t).sync.value in s.counters {
      DeleteFrame(s, t);
    }
  }

  /** One node of the walk that destroys counter d */
  lemma NotifyKept(s: State, d: Xid, list: seq<TriggerId>, c: Xid)
    requires Dying(s, d, list) && list != [] && Free(s, c) && c != d
    ensures d in NotifyDestroyed(s, list[0]).counters
    ensures Kept(s, SetList(NotifyDestroyed(s, list[0]), d, list[1..]), c)
  {
    hide NarrowAll, Fresh, FireAwait, Blocking, AlarmsOk, Complete;
    var s1 := NotifyDestroyed(s, list[0]);
    assert list[0] in s.counters[d].triggers && Armed(s, list[0]);
    OnOneList(s, c, d, list[0]);
    match list[0]
    case AlarmTrigger(a) =>
      assert forall b | AlarmTrigger(b) in s.counters[c].triggers :: Armed(s, AlarmTrigger(b));
      OtherAlarmsKept(s, s1, c);
    case AwaitTrigger(w, _) =>
      FireAwaitEffect(s, w);
      FireAwaitKept(s, w, c);
      OtherListKept(s, s1, d, list[1..], c);
  }

  lemma OtherListKept(s: State, s1: State, d: Xid, list: seq<TriggerId>, c: Xid)
    requires Kept(s, s1, c) && d in s1.counters && c != d
    ensures Kept(s, SetList(s1, d, list), c)
  {
    hide NarrowAll, Triggers, Fresh;
    assert Kept(s1, SetList(s1, d, list), c);
    KeptTwice(s, s1, SetList(s1, d, list), c);
  }

  lemma {:induction false} DestroyWalkKept(s: State, d: Xid, list: seq<TriggerId>, c: Xid)
    requires Dying(s, d, list) && Free(s, c) && c != d
    ensures Kept(s, DestroyWalk(s, d, list), c)
    decreases |list|
  {
    hide NarrowAll, Fresh, NotifyDestroyed, Dying, Linked;
    if list == [] {
      DyingLinked(s, d, list);
      KeptSelf(s, c);
    } else {
      NotifyKept(s, d, list, c);
      var s1 := SetList(NotifyDestroyed(s, list[0]), d, list[1..]);
      if list[0].AlarmTrigger? {
        DestroyAlarmStep(s, d, list);
      } else {
        DestroyAwaitStep(s, d, list);
      }
      DestroyWalkKept(s1, d, list[1..], c);
      KeptTwice(s, s1, DestroyWalk(s1, d, list[1..]), c);
    }
  }

  lemma DyingLinked(s: State, d: Xid, list: seq<TriggerId>)
    requires Dying(s, d, list)
    ensures Linked(s)
  {
  }

  lemma FreeCounterKept(s: State, d: Xid, c: Xid)
    requires Inv(s) && d in s.counters && Free(s, c) && c != d
    ensures Kept(s, FreeCounter(s, d), c)
  {
    hide NarrowAll, Fresh, Dying, DestroyWalk, Triggers;
    var s1 := s.(counters := s.counters[d := s.counters[d].(beingDestroyed := true)]);
    var list := s.counters[d].triggers;
    SameLinksButDying(s, s1, d);
    KeptSelf(s, c);
    assert Kept(s, s1, c);
    DestroyWalkKept(s1, d, list, c);
    var s2, s' := DestroyWalk(s1, d, list), FreeCounter(s, d);
    KeptTwice(s, s1, s2, c);
    assert Kept(s2, s', c);
    KeptTwice(s, s2, s', c);
  }

  // ----- SyncInitTrigger -----

  lemma DeleteFresh(s: State, t: TriggerId, c: Xid)
    requires Has(s, t) && Free(s, c) && (Trig(s, t).sync.Some? ==> Trig(s, t).sync.value in s.counters)
    ensures var s' := DeleteTrigger(s, t);
      c in s'.counters &&
      if Trig(s, t).sync == Some(c) then Fresh(s', c) && s'.counters[c].value == s.counters[c].value
      else s'.counters[c] == s.counters[c]
  {
    hide NarrowAll, Fresh, Triggers;
    if Trig(s, t).sync.Some? {
      var d := Trig(s, t).sync.value;
      DeleteFrame(s, t);
      if d == c {
        RefreshFresh(SetList(s, c, Without(s.counters[c].triggers, t)), c);
      }
    }
  }

  lemma AddFresh(s: State, t: TriggerId, c: Xid)
    requires Has(s, t) && Free(s, c) && (Trig(s, t).sync.Some? ==> Trig(s, t).sync.value in s.counters)
    requires forall d | d in s.counters :: t !in s.counters[d].triggers
    ensures var s' := AddTrigger(s, t);
      c in s'.counters &&
      if Trig(s, t).sync == Some(c) then Fresh(s', c) && s'.counters[c].value == s.counters[c].value
      else s'.counters[c] == s.counters[c]
    ensures OnlyCounters(s, AddTrigger(s, t))
  {
    hide NarrowAll, Fresh, Triggers;
    if Trig(s, t).sync.Some? {
      var d := Trig(s, t).sync.value;
      var s1 := SetList(s, d, [t] + s.counters[d].triggers);
      RefreshFrame(s1, d);
      if d == c {
        RefreshFresh(s1, c);
      }
    }
  }

  /** Brackets that are up to date stay so when a trigger of another list is changed. */
  lemma ElsewhereFresh(s: State, s': State, c: Xid)
    requires Fresh(s, c) && c in s'.counters && s'.counters[c] == s.counters[c]
    requires SameTests(s, s', s.counters[c].triggers)
    ensures Fresh(s', c)
  {
    hide NarrowAll, Triggers;
    SameBrackets(s, s', s.counters[c].triggers, s.counters[c].value);
  }

  /** Move leaves the brackets of the new counter and of the old one up to date, and no others are touched. */
  lemma MoveFresh(s: State, t: TriggerId, trig: Trigger, c: Xid)
    requires Has(s, t) && OnOwnList(s, t) && Free(s, c) && (trig.sync.Some? ==> trig.sync.value in s.counters)
    requires trig.sync != Trig(s, t).sync && forall u | u in s.counters[c].triggers :: Has(s, u)
    ensures var s' := Move(s, t, trig);
      c in s'.counters && s'.counters[c].value == s.counters[c].value &&
      if trig.sync == Some(c) || Trig(s, t).sync == Some(c) then Fresh(s', c) else s'.counters[c] == s.counters[c]
  {
    hide NarrowAll, Fresh, Triggers, DeleteTrigger, AddTrigger;
    var s3 := DeleteTrigger(s, t);
    MoveDelete(s, t);
    DeleteFresh(s, t, c);
    SetTrigFrame(s3, t, trig);
    var s4 := SetTrig(s3, t, trig);
    FreeStays(s, s3, c);
    AddFresh(s4, t, c);
    assert Move(s, t, trig) == AddTrigger(s4, t);
    if trig.sync == Some(c) {
      assert s4.counters[c].value == s.counters[c].value;
    } else if Trig(s, t).sync == Some(c) {
      ElsewhereFresh(s3, s4, c);
      ElsewhereFresh(s4, AddTrigger(s4, t), c);
      assert Fresh(AddTrigger(s4, t), c);
    } else {
      assert AddTrigger(s4, t).counters[c] == s.counters[c];
    }
  }

  lemma FreeStays(s: State, s': State, c: Xid)
    requires Free(s, c) && CountersKept(s, s')
    ensures Free(s', c)
  {
  }

  lemma StayFresh(s: State, d: Xid, c: Xid)
    requires Free(s, c)
    ensures var s' := Refresh(s, d);
      c in s'.counters && s'.counters[c].value == s.counters[c].value && s'.counters[c].triggers == s.counters[c].triggers
      && if c == d then Fresh(s', c) else s'.counters[c] == s.counters[c]
  {
    hide NarrowAll, Fresh, Triggers;
    RefreshFrame(s, d);
    if c == d {
      RefreshFresh(s, c);
    }
  }

  /** The state in which SyncInitTrigger registers the trigger */
  lemma InitHalfway(s: State, t: TriggerId, trig: Trigger, sync: Option<Xid>, clock: Clock, c: Xid)
    requires Linked(s) && Has(s, t) && OnOwnList(s, t) && Free(s, c) && trig.sync == Trig(s, t).sync
    ensures var s1 := Query(s, sync, clock);
      && Has(s1, t)
      && var s2 := SetTrig(s1, t, trig);
      && Free(s2, c) && Has(s2, t) && OnOwnList(s2, t) && Trig(s2, t) == trig && s2.counters.Keys == s.counters.Keys
      && (forall u | u in s2.counters[c].triggers :: Has(s2, u))
      && s2.counters[c].triggers == s.counters[c].triggers
      && (if sync == Some(c) then s2.counters[c].value == clock(c) else s2.counters[c] == s.counters[c])
  {
    QueryFrame(s, sync, clock);
    SetTrigFrame(Query(s, sync, clock), t, trig);
    assert forall u | u in s.counters[c].triggers :: Armed(s, u);
  }

  /** SyncInitTrigger, when it succeeds: the same, and the new counter has the value it was asked for. */
  lemma InitFresh(s: State, t: TriggerId, counter: Xid, ch: Changes, clock: Clock, c: Xid)
    requires Linked(s) && Has(s, t) && OnOwnList(s, t) && Free(s, c)
    requires InitStatus(s, Trig(s, t), counter, ch, clock) == Success
    ensures var s' := InitSuccess(s, t, counter, ch, clock);
      var sync := NewSync(Trig(s, t), counter, ch);
      && (sync == Some(c) ==> Fresh(s', c) && s'.counters[c].value == clock(c))
      && (sync != Some(c) ==>
            c in s'.counters && s'.counters[c].value == s.counters[c].value &&
            if Trig(s, t).sync == Some(c) then Fresh(s', c) else s'.counters[c] == s.counters[c])
  {
    hide NarrowAll, Fresh, Triggers, Refresh, Wrap, Linked, OnOwnList, DeleteTrigger, AddTrigger, SetTrig;
    var was := Trig(s, t);
    var trig := Installed(s, was, counter, ch, clock);
    var trig1 := trig.(sync := was.sync);
    var s1 := Query(s, trig.sync, clock);
    var s2 := SetTrig(s1, t, trig1);
    InitHalfway(s, t, trig1, trig.sync, clock, c);
    if ch.counter && trig.sync != was.sync {
      SetTrigTwice(s, s1.counters, t, trig1, trig);
      assert InitSuccess(s, t, counter, ch, clock) == Move(s2, t, trig);
      MoveFresh(s2, t, trig, c);
    } else if trig.sync.Some? {
      assert InitSuccess(s, t, counter, ch, clock) == Refresh(s2, trig.sync.value);
      StayFresh(s2, trig.sync.value, c);
    }
  }

  // ----- alarms that arrive -----

  /** The brackets that the other triggers of the counter ask for at value v */
  function Others(s: State, c: Xid, a: Xid, v: Int64): Brackets
    requires c in s.counters
  {
    NarrowAll(Unrestricted, v, Triggers(s, Without(s.counters[c].triggers, AlarmTrigger(a))))
  }

  /** Whether the brackets at v are the same for a trigger before and after it has advanced to `next`. */
  predicate SameSides(trig: Trigger, next: Int64, v: Int64, others: Brackets) {
    match trig.testType
    case PositiveComparison => (trig.testValue == v || trig.testValue <= Less(others)) && Greater(others) <= next
    case NegativeComparison => (trig.testValue == v || trig.testValue >= Greater(others)) && next <= Less(others)
    case _ => true
  }

  /** The trigger is TRUE on arrival, and the value it advances to asks for other brackets than it did. */
  predicate GoesStale(trig: Trigger, delta: Int64, v: Int64, others: Brackets) {
    delta != 0 && CheckValue(trig.check, v, v, trig.testValue) &&
    match Advance(trig.check, v, trig.testValue, delta)
    case Some(next) => !SameSides(trig, next, v, others)
    case None => false
  }

  /** One trigger put to others, before and after its advance */
  lemma SidesIff(trig: Trigger, delta: Int64, next: Int64, v: Int64, others: Brackets)
    requires Checks(trig) && !WrongSign(trig.testType, delta) && delta != 0
    requires CheckValue(trig.check, v, v, trig.testValue)
    requires Advance(trig.check, v, trig.testValue, delta) == Some(next)
    requires others.greater.Some? ==> v <= others.greater.value < INT64_MAX
    requires others.less.Some? ==> INT64_MIN < others.less.value <= v
    ensures Narrow(Unrestricted, v, trig.(testValue := next), others) == Narrow(Unrestricted, v, trig, others)
            <==> SameSides(trig, next, v, others)
  {
    AdvanceIsFalse(trig.check, v, trig.testValue, delta);
  }

  /** What the list of c asks for is what the others ask for, and the one alarm. */
  lemma OthersAnd(s: State, s': State, c: Xid, a: Xid, v: Int64)
    requires c in s.counters && c in s'.counters && AlarmTrigger(a) in s'.counters[c].triggers && a in s'.alarms
    requires NoDup(s.counters[c].triggers)
    requires forall t | t in s.counters[c].triggers && t != AlarmTrigger(a) ::
               Has(s, t) && Has(s', t) && Trig(s', t) == Trig(s, t)
    requires forall t :: t in s'.counters[c].triggers <==> t == AlarmTrigger(a) || t in s.counters[c].triggers
    ensures Computed(s', c, v) == Narrow(Unrestricted, v, s'.alarms[a].trigger, Others(s, c, a, v))
    ensures Nearest(Unrestricted, v, Triggers(s, Without(s.counters[c].triggers, AlarmTrigger(a))), Others(s, c, a, v))
  {
    hide NarrowAll, Narrow, Nearest;
    var t := AlarmTrigger(a);
    var rest, list := Without(s.counters[c].triggers, t), s'.counters[c].triggers;
    WithoutMembers(s.counters[c].triggers, t);
    var ts, ts' := Triggers(s, rest), Triggers(s', list);
    var trig := s'.alarms[a].trigger;
    NearestBrackets(Unrestricted, v, ts);
    NearestBrackets(Unrestricted, v, ts');
    NarrowNearest(Unrestricted, v, ts, trig, Others(s, c, a, v));
    forall x
      ensures x in ts' <==> x in ts + [trig]
    {
      if x in ts' {
        var u :| u in list && Has(s', u) && Trig(s', u) == x;
        assert u == t || u in rest;
      }
      if x in ts {
        var u :| u in rest && Has(s, u) && Trig(s, u) == x;
        assert u in list && Trig(s', u) == x;
      }
      assert Trig(s', t) == trig;
    }
    NearestIsUnique(Unrestricted, v, ts', ts + [trig], Computed(s', c, v), Narrow(Unrestricted, v, trig,
      Others(s, c, a, v)));
  }

  /** The end of SyncChangeAlarmAttributes only sets the alarm's state. */
  lemma ActivatedFresh(s: State, a: Xid, c: Xid)
    requires a in s.alarms && Fresh(s, c) && forall u | u in s.counters[c].triggers :: Has(s, u)
    ensures Fresh(SetAlarm(s, a, s.alarms[a].(state := Active)), c)
  {
    hide NarrowAll;
    ElsewhereFresh(s, SetAlarm(s, a, s.alarms[a].(state := Active)), c);
  }

  /** A successful SyncChangeAlarmAttributes, on the brackets: up to date where the alarm is now, and kept elsewhere */
  lemma AttributesFresh(s: State, client: Client, a: Xid, attrs: Attributes, clock: Clock, c: Xid)
    requires Linked(s) && a in s.alarms && ChangeStatus(s, a, attrs, clock) == Success && Free(s, c)
    ensures var s' := ChangeAttributes(s, client, a, attrs, clock);
      && Free(s', c)
      && (SyncRuns.Arriving(s, a, attrs, clock).sync == Some(c) ==> Fresh(s', c) && s'.counters[c].value == clock(c))
      && (SyncRuns.Arriving(s, a, attrs, clock).sync != Some(c) ==> Kept(s, s', c))
  {
    hide *;
    var t := AlarmTrigger(a);
    var s1 := Committed(s, client, a, attrs);
    SyncRuns.CommittedLinked(s, client, a, attrs);
    SyncRuns.StatusSame(s, s1, a, attrs, clock);
    SyncRuns.AttributesEffect(s, client, a, attrs, clock);
    SyncRuns.AttributesUnfold(s, client, a, attrs, clock);
    var s' := ChangeAttributes(s, client, a, attrs, clock);
    FreeStays(s, s', c);
    FreeThere(s, s1, c);
    ArrivingSync(s, a, attrs, clock);
    InitFresh(s1, t, Get(attrs.counter, NONE), attrs.Mask(), clock, c);
    AttributesBrackets(s, s1, InitSuccess(s1, t, Get(attrs.counter, NONE), attrs.Mask(), clock), s', a, attrs, clock, c);
  }

  lemma ArrivingSync(s: State, a: Xid, attrs: Attributes, clock: Clock)
    requires a in s.alarms
    ensures SyncRuns.Arriving(s, a, attrs, clock).sync
         == NewSync(Wanted(s.alarms[a].trigger, attrs), Get(attrs.counter, NONE), attrs.Mask())
  {
  }

  lemma FreeThere(s: State, s': State, c: Xid)
    requires Free(s, c) && s'.counters == s.counters
    ensures Free(s', c) && c in s.counters && c in s'.counters && s'.counters[c] == s.counters[c]
  {
  }

  lemma AttributesBrackets(s: State, s1: State, s2: State, s': State, a: Xid, attrs: Attributes, clock: Clock, c: Xid)
    requires Linked(s) && a in s.alarms && a in s'.alarms && Free(s, c) && Free(s', c)
    requires s1.counters == s.counters && a in s1.alarms && s1.alarms[a].trigger == Wanted(s.alarms[a].trigger, attrs)
    requires s' == s.(alarms := s.alarms[a := s'.alarms[a]], counters := s'.counters)
    requires s' == if a in s2.alarms then SetAlarm(s2, a, s2.alarms[a].(state := Active)) else s2
    requires var sync := SyncRuns.Arriving(s, a, attrs, clock).sync;
      && Moved(s, s', AlarmTrigger(a), sync)
      && sync == NewSync(s1.alarms[a].trigger, Get(attrs.counter, NONE), attrs.Mask())
      && (sync == Some(c) ==> Fresh(s2, c) && s2.counters[c].value == clock(c))
      && (sync != Some(c) ==>
            c in s2.counters && s2.counters[c].value == s.counters[c].value &&
            if s1.alarms[a].trigger.sync == Some(c) then Fresh(s2, c) else s2.counters[c] == s.counters[c])
    ensures var sync := SyncRuns.Arriving(s, a, attrs, clock).sync;
      && (sync == Some(c) ==> Fresh(s', c) && s'.counters[c].value == clock(c))
      && (sync != Some(c) ==> Kept(s, s', c))
  {
    hide *;
    RecordsThere(s, s2, s', a);
    var sync := SyncRuns.Arriving(s, a, attrs, clock).sync;
    if sync == Some(c) {
      MovedThere(s, s2, s', a, sync, c);
      ActivatedFresh(s2, a, c);
    } else {
      if s1.alarms[a].trigger.sync == Some(c) {
        MovedThere(s, s2, s', a, sync, c);
        ActivatedFresh(s2, a, c);
      }
      OthersKept(s, s', a, sync, c);
    }
  }

  lemma RecordsThere(s: State, s2: State, s': State, a: Xid)
    requires a in s.alarms && a in s'.alarms && s' == s.(alarms := s.alarms[a := s'.alarms[a]], counters := s'.counters)
    requires s' == if a in s2.alarms then SetAlarm(s2, a, s2.alarms[a].(state := Active)) else s2
    ensures a in s2.alarms && s' == SetAlarm(s2, a, s2.alarms[a].(state := Active)) && s'.counters == s2.counters
    ensures s2.awaits == s.awaits && s2.alarms.Keys == s.alarms.Keys
  {
    assert s'.alarms.Keys == s.alarms.Keys;
  }

  lemma MovedThere(s: State, s2: State, s': State, a: Xid, sync: Option<Xid>, c: Xid)
    requires Linked(s) && Free(s, c) && a in s.alarms && Moved(s, s', AlarmTrigger(a), sync)
    requires s2.counters == s'.counters && s2.awaits == s.awaits && s2.alarms.Keys == s.alarms.Keys
    ensures c in s2.counters && forall u | u in s2.counters[c].triggers :: Has(s2, u)
  {
    forall u | u in s2.counters[c].triggers
      ensures Has(s2, u)
    {
      assert u == AlarmTrigger(a) || Armed(s, u);
    }
  }

  /** An alarm that leaves a list, or goes from elsewhere to elsewhere, leaves the others as they are. */
  lemma OthersKept(s: State, s': State, a: Xid, sync: Option<Xid>, c: Xid)
    requires Linked(s) && Free(s, c) && Free(s', c) && a in s.alarms && a in s'.alarms
    requires s' == s.(alarms := s.alarms[a := s'.alarms[a]], counters := s'.counters)
    requires Moved(s, s', AlarmTrigger(a), sync) && sync != Some(c)
    requires s'.counters[c].value == s.counters[c].value && (s'.counters[c] == s.counters[c] || Fresh(s', c))
    ensures Kept(s, s', c)
  {
    hide NarrowAll, Fresh, Triggers;
    forall u | u in s'.counters[c].triggers
      ensures u in s.counters[c].triggers && u != AlarmTrigger(a) && Armed(s, u)
      ensures Has(s', u) && Trig(s', u) == Trig(s, u) && (Pending(s', u) ==> Pending(s, u))
    {
    }
  }

  // ----- changes that may leave a counter unguarded -----

  /** The list, its tests and the brackets of c are the same; its value may be another. */
  ghost predicate Unmoved(s: State, s': State, c: Xid) {
    && Free(s, c) && Free(s', c) && s'.counters[c].triggers == s.counters[c].triggers
    && BracketsOf(s', c) == BracketsOf(s, c) && SameTests(s, s', s.counters[c].triggers)
    && (forall t | t in s.counters[c].triggers :: Pending(s', t) <==> Pending(s, t))
  }

  lemma UnmovedHeard(s: State, s': State, c: Xid, v: Int64, o: Owner)
    requires Unmoved(s, s', c)
    ensures HeardBut(s', c, v, o) <==> HeardBut(s, c, v, o)
  {
    hide NarrowAll, Heard, Triggers;
    forall t | t in s.counters[c].triggers
      ensures Has(s, t) && Has(s', t)
      ensures Heard(Trig(s, t), BracketsOf(s, c), v) <==> Heard(Trig(s', t), BracketsOf(s', c), v)
    {
      SameHeard(Trig(s, t), Trig(s', t), BracketsOf(s, c), v);
    }
  }

  /** The triggers of c that are not of o are the same, with the same tests. */
  ghost predicate Joined(s: State, s': State, c: Xid, o: Owner) {
    && c in s.counters && c in s'.counters
    && (forall t | !Owns(o, t) :: t in s'.counters[c].triggers <==> t in s.counters[c].triggers)
    && forall t | t in s.counters[c].triggers && !Owns(o, t) ::
         Has(s, t) && Has(s', t) && SameTest(Trig(s, t), Trig(s', t)) && (Pending(s', t) <==> Pending(s, t))
  }

  lemma JoinedTwice(s1: State, s2: State, s3: State, c: Xid, o: Owner)
    requires Joined(s1, s2, c, o) && Joined(s2, s3, c, o)
    ensures Joined(s1, s3, c, o)
  {
  }

  lemma JoinedQuiescent(s: State, s': State, c: Xid, v: Int64, o: Owner)
    requires Joined(s, s', c, o)
    ensures QuiescentBut(s', c, v, o) <==> QuiescentBut(s, c, v, o)
  {
  }

  lemma JoinedHeard(s: State, s': State, c: Xid, v: Int64, o: Owner)
    requires Joined(s, s', c, o) && BracketsOf(s', c) == BracketsOf(s, c)
    ensures HeardBut(s', c, v, o) <==> HeardBut(s, c, v, o)
  {
    hide NarrowAll, Heard, Triggers;
    forall t | t in s.counters[c].triggers && !Owns(o, t)
      ensures Heard(Trig(s, t), BracketsOf(s, c), v) <==> Heard(Trig(s', t), BracketsOf(s', c), v)
    {
      SameHeard(Trig(s, t), Trig(s', t), BracketsOf(s, c), v);
    }
  }

  /** Where brackets have just been computed, guarded is quiescent. */
  lemma FreshGuardIff(s: State, c: Xid, o: Owner)
    requires Fresh(s, c)
    ensures GuardedBut(s, c, o) <==> QuiescentBut(s, c, s.counters[c].value, o)
  {
    hide NarrowAll, Triggers;
    if QuiescentBut(s, c, s.counters[c].value, o) {
      NowGuarded(s, c, o);
    }
  }

  lemma OwnerGone(s: State, c: Xid, o: Owner)
    requires c in s.counters && forall t | t in s.counters[c].triggers :: !Owns(o, t)
    ensures GuardedBut(s, c, o) <==> GuardedBut(s, c, Nobody)
    ensures forall v: Int64 :: HeardBut(s, c, v, o) <==> HeardBut(s, c, v, Nobody)
    ensures forall v: Int64 :: QuiescentBut(s, c, v, o) <==> QuiescentBut(s, c, v, Nobody)
  {
    hide NarrowAll, Triggers, Heard;
  }

  lemma GuardedFree(s: State, c: Xid, o: Owner)
    requires GuardedBut(s, c, o)
    ensures Free(s, c) && c in s.counters
  {
    hide NarrowAll, Triggers;
  }

  lemma KeptFresh(s: State, s': State, c: Xid)
    requires Kept(s, s', c) && Fresh(s, c)
    ensures Fresh(s', c)
  {
    hide NarrowAll, Triggers;
    if s'.counters[c].triggers == s.counters[c].triggers && BracketsOf(s', c) == BracketsOf(s, c) {
      SameBrackets(s, s', s.counters[c].triggers, s.counters[c].value);
    }
  }

  lemma FreshFree(s: State, c: Xid)
    requires Fresh(s, c)
    ensures Free(s, c) && c in s.counters
  {
    hide NarrowAll, Triggers;
  }
}
