/**
 * The procedures of Xext/sync.c, step by step, on the fields they update. Resources are found by id in
 * the maps; a node of a trigger list is named by its trigger, which is on a list at most once.
 */
module SyncServer {
  import opened Options
  import opened SyncTypes
  import opened SyncBrackets
  import M = SyncModel
  import opened SyncRequests
  import opened SyncLinks
  import opened SyncInit
  import opened SyncInvariants
  import SyncAlarms
  import SyncRuns

  // ----- list nodes -----

  lemma {:induction false} UnlinkNode(list: seq<TriggerId>, t: TriggerId, i: nat)
    requires i < |list| && list[i] == t && t !in list[..i]
    ensures Without(list, t) == list[..i] + list[i + 1..]
  {
    if i > 0 {
      assert list[0] in list[..i];
      assert t !in list[1..][..i - 1] by {
        assert forall u | u in list[1..][..i - 1] :: u in list[..i];
      }
      UnlinkNode(list[1..], t, i - 1);
      assert list[1..][i - 1] == t;
      assert [list[0]] + (list[1..][..i - 1] + list[1..][i..]) == list[..i] + list[i + 1..];
    }
  }

  /** The node after the one that holds t. */
  function Next(list: seq<TriggerId>, t: TriggerId): (r: Option<TriggerId>)
    ensures r.Some? ==> r.value in list
  {
    if |list| < 2 then None
    else if list[0] == t then Some(list[1])
    else Next(list[1..], t)
  }

  lemma {:induction false} NextAt(list: seq<TriggerId>, i: nat)
    requires i < |list| && NoDup(list)
    ensures Next(list, list[i]) == if i + 1 < |list| then Some(list[i + 1]) else None
  {
    if |list| >= 2 && i > 0 {
      NextAt(list[1..], i - 1);
    }
  }

  lemma {:induction false} PruneConcat(a: seq<TriggerId>, b: seq<TriggerId>, w: Xid, n: nat)
    ensures Prune(a + b, w, n) == Prune(a, w, n) + Prune(b, w, n)
  {
    if a == [] {
      assert a + b == b;
    } else {
      assert (a + b)[1..] == a[1..] + b;
      PruneConcat(a[1..], b, w, n);
    }
  }

  /** Every node of every list names a trigger that exists. */
  ghost predicate Resolved(s: State) {
    forall c, u | c in s.counters && u in s.counters[c].triggers :: Has(s, u)
  }

  lemma LinkedResolved(s: State, s': State)
    requires Linked(s) && s'.counters == s.counters && s'.awaits == s.awaits && s'.alarms.Keys == s.alarms.Keys
    ensures Resolved(s')
  {
    forall c, u | c in s'.counters && u in s'.counters[c].triggers ensures Has(s', u) {
      assert Armed(s, u);
    }
  }

  lemma RelistResolved(s: State, c: Xid, list: seq<TriggerId>, t: TriggerId)
    requires Resolved(s) && c in s.counters && Has(s, t)
    requires forall u | u in list :: u == t || u in s.counters[c].triggers
    ensures Resolved(M.SetList(s, c, list))
  {
    var s' := M.SetList(s, c, list);
    forall d, u | d in s'.counters && u in s'.counters[d].triggers ensures Has(s', u) {
      assert u == t || u in s.counters[d].triggers;
      assert Has(s, u);
    }
  }

  lemma SetTrigResolved(s: State, t: TriggerId, trig: Trigger)
    requires Resolved(s) && Has(s, t)
    ensures Resolved(SetTrig(s, t, trig))
  {
    SetTrigFrame(s, t, trig);
    forall d, u | d in s.counters && u in s.counters[d].triggers ensures Has(SetTrig(s, t, trig), u) {
      assert Has(s, u);
    }
  }

  /** The lists of s' hold no trigger that those of s do not. */
  lemma FewerResolved(s: State, s': State)
    requires Resolved(s) && s'.alarms == s.alarms && s'.awaits == s.awaits && s'.counters.Keys == s.counters.Keys
    requires forall d, u | d in s.counters && u in s'.counters[d].triggers :: u in s.counters[d].triggers
    ensures Resolved(s')
  {
    forall d, u | d in s'.counters && u in s'.counters[d].triggers ensures Has(s', u) {
      assert Has(s, u);
    }
  }

  lemma NarrowNext(s: State, ct: CounterType, v: Int64, list: seq<TriggerId>, i: nat)
    requires i < |list| && Has(s, list[i])
    ensures NarrowAll(ct, v, M.Triggers(s, list[..i + 1]))
         == Narrow(ct, v, Trig(s, list[i]), NarrowAll(ct, v, M.Triggers(s, list[..i])))
  {
    var before := M.Triggers(s, list[..i]);
    assert list[..i + 1][..i] == list[..i];
    assert M.Triggers(s, list[..i + 1]) == before + [Trig(s, list[i])];
    assert (before + [Trig(s, list[i])])[..|before|] == before;
  }

  /** What TriggerFired relies on. */
  predicate CanFire(s: State, t: TriggerId) {
    match t
    case AlarmTrigger(a) => a in s.alarms && Agrees(s.alarms[a])
    case AwaitTrigger(w, _) =>
      w in s.awaits && AwaitComplete(s.awaits[w])
      && (s.awaits[w].client !in s.gone ==> s.awaits[w].client in s.ignore && s.ignore[s.awaits[w].client] > 0)
  }

  /** Nothing that the walk of a list relies on is lost when another trigger fires. */
  lemma CanFireKept(s: State, ts: seq<TriggerId>, t: TriggerId)
    requires Linked(s) && NoneDying(s) && Complete(s) && Blocking(s) && (forall a | a in s.alarms :: Agrees(s.alarms[a]))
    requires Armed(M.FireAll(s, ts), t)
    ensures CanFire(M.FireAll(s, ts), t)
  {
    FireAllEffect(s, ts);
    FireAllBlocking(s, ts);
    match t
    case AlarmTrigger(a) => assert SameAlarm(s.alarms[a], M.FireAll(s, ts).alarms[a]);
    case AwaitTrigger(w, _) =>
  }

  /** The nodes from position i of the old list on are still the end of the list. */
  predicate Rest(list: seq<TriggerId>, before: seq<TriggerId>, i: nat) {
    i <= |before| && |before| - i <= |list| && list[|list| - (|before| - i)..] == before[i..]
  }

  lemma PruneRest(list: seq<TriggerId>, before: seq<TriggerId>, i: nat, w: Xid, n: nat)
    requires Rest(list, before, i) && forall u | u in before[i..] :: !(u.AwaitTrigger? && u.await == w && u.index < n)
    ensures Rest(Prune(list, w, n), before, i)
  {
    var k := |list| - (|before| - i);
    assert list == list[..k] + list[k..];
    PruneConcat(list[..k], list[k..], w, n);
    PruneNone(list[k..], w, n);
  }

  /** What the walk of the list of c needs, and keeps. */
  ghost predicate Walking(s: State, c: Xid) {
    Linked(s) && NoneDying(s) && Complete(s) && Blocking(s) && (forall a | a in s.alarms :: Agrees(s.alarms[a]))
    && c in s.counters
  }

  /** The state when the walk has reached node i. */
  ghost function At(s: State, c: Xid, was: Int64, i: nat): State
    requires c in s.counters && i <= |s.counters[c].triggers|
  {
    M.FireAll(s, M.True(s, s.counters[c].triggers[..i], was))
  }

  /** A node that has not been reached yet is as it was at the start. */
  lemma NotReached(s: State, c: Xid, was: Int64, i: nat, t: TriggerId)
    requires Walking(s, c) && i < |s.counters[c].triggers| && t in s.counters[c].triggers[i..]
    requires c in At(s, c, was, i).counters && t in At(s, c, was, i).counters[c].triggers
    ensures var p := At(s, c, was, i);
      && Armed(s, t) && Armed(p, t) && Trig(p, t) == Trig(s, t) && Trig(s, t).sync == Some(c)
      && ValueOf(p, c) == ValueOf(s, c)
  {
    hide M.True, M.FireAll;
    var list := s.counters[c].triggers;
    var ts := M.True(s, list[..i], was);
    FireAllEffect(s, ts);
    var p := At(s, c, was, i);
    assert t in list;
    assert t !in list[..i];
    assert Armed(s, t) && Armed(p, t);
    assert Relisted(s.counters[c], p.counters[c], p.counters[c].triggers);
  }

  lemma RestHead(list: seq<TriggerId>, before: seq<TriggerId>, i: nat)
    requires Rest(list, before, i) && i < |before| && NoDup(list)
    ensures before[i] in list && Next(list, before[i]) == if i + 1 < |before| then Some(before[i + 1]) else None
    ensures Rest(list, before, i + 1)
  {
    var k := |list| - (|before| - i);
    assert list[k] == list[k..][0] == before[i];
    NextAt(list, k);
    if i + 1 < |before| {
      assert list[k + 1] == list[k..][1] == before[i + 1];
    }
    assert list[k + 1..] == list[k..][1..] == before[i..][1..] == before[i + 1..];
  }

  lemma WalkNode(s: State, c: Xid, was: Int64, i: nat)
    requires Walking(s, c) && i < |s.counters[c].triggers|
    requires c in At(s, c, was, i).counters && Rest(At(s, c, was, i).counters[c].triggers, s.counters[c].triggers, i)
    ensures var p := At(s, c, was, i);
      var t := s.counters[c].triggers[i];
      && Linked(p) && CanFire(p, t) && Has(p, t) && Has(s, t) && Trig(p, t).sync == Some(c)
      && Check(p, Trig(p, t), was) == Check(s, Trig(s, t), was)
      && Next(p.counters[c].triggers, t)
         == if i + 1 < |s.counters[c].triggers| then Some(s.counters[c].triggers[i + 1]) else None
  {
    hide M.True, M.FireAll;
    var list := s.counters[c].triggers;
    var ts := M.True(s, list[..i], was);
    FireAllEffect(s, ts);
    RestHead(At(s, c, was, i).counters[c].triggers, list, i);
    assert list[i] == list[i..][0];
    NotReached(s, c, was, i, list[i]);
    CanFireKept(s, ts, list[i]);
  }

  lemma TrueNext(s: State, list: seq<TriggerId>, was: Int64, i: nat)
    requires i < |list| && Has(s, list[i])
    ensures Check(s, Trig(s, list[i]), was) ==> M.True(s, list[..i + 1], was) == M.True(s, list[..i], was) + [list[i]]
    ensures !Check(s, Trig(s, list[i]), was) ==> M.True(s, list[..i + 1], was) == M.True(s, list[..i], was)
  {
    assert list[..i + 1][..i] == list[..i];
    assert M.True(s, list[..i], was) + [] == M.True(s, list[..i], was);
  }

  lemma FireAllNext(s: State, ts: seq<TriggerId>, t: TriggerId)
    ensures M.FireAll(s, ts + [t]) == M.Fire(M.FireAll(s, ts), t)
  {
    assert (ts + [t])[..|ts|] == ts;
  }

  lemma AtNext(s: State, c: Xid, was: Int64, i: nat)
    requires c in s.counters && i < |s.counters[c].triggers| && Has(s, s.counters[c].triggers[i])
    ensures var t := s.counters[c].triggers[i];
      At(s, c, was, i + 1) == if Check(s, Trig(s, t), was) then M.Fire(At(s, c, was, i), t) else At(s, c, was, i)
  {
    var list := s.counters[c].triggers;
    TrueNext(s, list, was, i);
    FireAllNext(s, M.True(s, list[..i], was), list[i]);
  }

  lemma WalkFired(s: State, c: Xid, was: Int64, i: nat)
    requires Walking(s, c) && i < |s.counters[c].triggers|
    requires c in At(s, c, was, i).counters && Rest(At(s, c, was, i).counters[c].triggers, s.counters[c].triggers, i)
    ensures Has(s, s.counters[c].triggers[i])
    ensures At(s, c, was, i + 1)
         == if Check(s, Trig(s, s.counters[c].triggers[i]), was) then M.Fire(At(s, c, was, i), s.counters[c].triggers[i])
            else At(s, c, was, i)
    ensures c in At(s, c, was, i + 1).counters
    ensures Rest(At(s, c, was, i + 1).counters[c].triggers, s.counters[c].triggers, i + 1)
  {
    var list := s.counters[c].triggers;
    var t := list[i];
    var p := At(s, c, was, i);
    WalkNode(s, c, was, i);
    AtNext(s, c, was, i);
    FireAllEffect(s, M.True(s, list[..i], was));
    RestHead(p.counters[c].triggers, list, i);
    if Check(s, Trig(s, t), was) {
      FireKeepsRest(p, c, t, list, i);
    }
  }

  lemma FireKeepsRest(p: State, c: Xid, t: TriggerId, list: seq<TriggerId>, i: nat)
    requires Linked(p) && NoneDying(p) && Complete(p) && CanFire(p, t)
    requires c in p.counters && i < |list| && t == list[i] && NoDup(list)
    requires t in p.counters[c].triggers && Rest(p.counters[c].triggers, list, i + 1)
    ensures c in M.Fire(p, t).counters && Rest(M.Fire(p, t).counters[c].triggers, list, i + 1)
  {
    match t
    case AlarmTrigger(a) => FireAlarmEffect(p, a);
    case AwaitTrigger(w, _) =>
      FireAwaitEffect(p, w);
      OnlyOneOnList(p, c, t);
      var n := p.awaits[w].armed;
      forall u | u in list[i + 1..] ensures !(u.AwaitTrigger? && u.await == w && u.index < n) {
        assert u in p.counters[c].triggers[|p.counters[c].triggers| - (|list| - (i + 1))..];
        assert u in p.counters[c].triggers;
        assert u != t;
      }
      PruneRest(p.counters[c].triggers, list, i + 1, w, n);
      assert Relisted(p.counters[c], M.FireAwait(p, w).counters[c], Pruned(p.counters[c], w, n));
  }

  /** The nodes from i on have not been unlinked. */
  ghost predicate OnRest(s: State, c: Xid, list: seq<TriggerId>, i: nat) {
    c in s.counters && Rest(s.counters[c].triggers, list, i)
  }

  lemma Fires(s: State, list: seq<TriggerId>, was: Int64, i: nat, fired: seq<TriggerId>, fires: bool)
    returns (next: seq<TriggerId>)
    requires i < |list| && Has(s, list[i]) && fires == Check(s, Trig(s, list[i]), was)
    requires fired == M.True(s, list[..i], was)
    ensures next == if fires then fired + [list[i]] else fired
    ensures next == M.True(s, list[..i + 1], was)
  {
    TrueNext(s, list, was, i);
    next := if fires then fired + [list[i]] else fired;
  }

  /** Half-way through FreeAwait every node still names a trigger. */
  lemma UnlinkResolved(s: State, w: Xid, i: nat)
    requires Linked(s) && w in s.awaits && i <= s.awaits[w].armed
    ensures SameButCounters(s, M.Unlink(s, w, i)) && Resolved(M.Unlink(s, w, i))
  {
    hide M.Unlink, Prune;
    UnlinkEffect(s, w, i);
    var u := M.Unlink(s, w, i);
    forall c, t | c in u.counters && t in u.counters[c].triggers ensures Has(u, t) {
      assert Relisted(s.counters[c], u.counters[c], Pruned(s.counters[c], w, i));
      assert t in s.counters[c].triggers;
      assert Armed(s, t);
    }
  }

  lemma UnlinkHas(s: State, w: Xid, i: nat)
    requires Linked(s) && w in s.awaits && i <= s.awaits[w].armed
    ensures var u := M.Unlink(s, w, i);
      && SameButCounters(s, u)
      && Resolved(u)
      && (i < s.awaits[w].armed ==>
            Has(u, AwaitTrigger(w, i))
            && (Trig(u, AwaitTrigger(w, i)).sync.Some? ==> Trig(u, AwaitTrigger(w, i)).sync.value in u.counters))
  {
    hide M.Unlink, Resolved;
    UnlinkResolved(s, w, i);
    if i < s.awaits[w].armed {
      assert Armed(s, AwaitTrigger(w, i));
    }
  }

  lemma DestroyStep(s: State, c: Xid, list: seq<TriggerId>)
    requires Dying(s, c, list) && list != []
    ensures var s1 := M.NotifyDestroyed(s, list[0]);
      && c in s1.counters && Dying(M.SetList(s1, c, list[1..]), c, list[1..])
      && M.DestroyWalk(s, c, list) == M.DestroyWalk(M.SetList(s1, c, list[1..]), c, list[1..])
  {
    if list[0].AlarmTrigger? {
      DestroyAlarmStep(s, c, list);
    } else {
      DestroyAwaitStep(s, c, list);
    }
  }

  /** The trigger with its new test value and check function, or the error. */
  function Evaluated(s: State, trig: Trigger, sync: Option<Xid>, ch: M.Changes): (Trigger, Status) {
    var value := ch.valueType || ch.value;
    var trig1 := if value then trig.(testValue := Wrap(M.Target(s, sync, trig))) else trig;
    if ch.valueType && trig.valueType.OtherValueType? then (trig, BadValue)
    else if value && !trig.valueType.Absolute? && sync.None? then (trig, BadMatch)
    else if value && !InRange(M.Target(s, sync, trig)) then (trig1, BadValue)
    else if ch.testType && trig.testType.OtherTest? then (trig1, BadValue)
    else (if ch.testType then trig1.(check := trig.testType) else trig1, Success)
  }

  function Registered(s: State, t: TriggerId, trig: Trigger, sync: Option<Xid>, ch: M.Changes): State
    requires Has(s, t)
  {
    var s2 := SetTrig(s, t, trig);
    if ch.counter && sync != trig.sync then Move(s2, t, trig.(sync := sync))
    else if sync.Some? then M.Refresh(s2, sync.value) else s2
  }

  lemma QueryKeeps(s: State, t: TriggerId, sync: Option<Xid>, clock: M.Clock)
    requires Has(s, t) && OnOwnList(s, t) && Resolved(s)
    ensures var s1 := M.Query(s, sync, clock);
      Has(s1, t) && Trig(s1, t) == Trig(s, t) && OnOwnList(s1, t) && Resolved(s1)
  {
    QueryFrame(s, sync, clock);
    FewerResolved(s, M.Query(s, sync, clock));
  }

  lemma InitInParts(s: State, t: TriggerId, counter: Xid, ch: M.Changes, clock: M.Clock)
    requires Has(s, t) && !(ch.counter && counter != NONE && counter !in s.counters)
    requires OnOwnList(s, t) && Resolved(s)
    ensures var sync := M.NewSync(Trig(s, t), counter, ch);
      var s1 := M.Query(s, sync, clock);
      var r := Evaluated(s1, Trig(s, t), sync, ch);
      && OnOwnList(s1, t) && Resolved(s1)
      && r.1 == M.InitStatus(s, Trig(s, t), counter, ch, clock)
      && M.InitTrigger(s, t, counter, ch, clock)
         == if r.1 == Success then Registered(s1, t, r.0, sync, ch) else SetTrig(s1, t, r.0)
  {
    hide SetTrig, M.Refresh, M.DeleteTrigger, M.AddTrigger, InRange, Wrap;
    var sync := M.NewSync(Trig(s, t), counter, ch);
    QueryKeeps(s, t, sync, clock);
    SetTrigSame(M.Query(s, sync, clock), t);
  }

  /** A committed alarm is ready for SyncInitTrigger. */
  lemma CommittedReady(s: State, client: Client, a: Xid, attrs: Attributes)
    requires Linked(s) && a in s.alarms
    ensures var s1 := Committed(s, client, a, attrs);
      && Linked(s1) && Resolved(s1) && OnOwnList(s1, AlarmTrigger(a)) && s1.counters == s.counters
      && Trig(s1, AlarmTrigger(a)) == Wanted(s.alarms[a].trigger, attrs)
  {
    var s1 := Committed(s, client, a, attrs);
    SyncRuns.CommittedOnlyAlarm(s, client, a, attrs);
    SameLinksLinked(s, s1);
    LinkedResolved(s1, s1);
    SyncRuns.AlarmOnOwnList(s1, a);
  }

  lemma InitStatusSame(s: State, s1: State, trig: Trigger, counter: Xid, ch: M.Changes, clock: M.Clock)
    requires s1.counters == s.counters
    ensures M.InitStatus(s1, trig, counter, ch, clock) == M.InitStatus(s, trig, counter, ch, clock)
  {
  }

  lemma AlarmStillThere(s: State, a: Xid, counter: Xid, ch: M.Changes, clock: M.Clock)
    requires a in s.alarms && Linked(s)
    requires M.InitStatus(s, Trig(s, AlarmTrigger(a)), counter, ch, clock) == Success
    ensures a in M.InitSuccess(s, AlarmTrigger(a), counter, ch, clock).alarms
  {
    SyncRuns.AlarmOnOwnList(s, a);
    InitSuccessEffect(s, AlarmTrigger(a), counter, ch, clock);
  }

  lemma InitKeepsAwait(s: State, w: Xid, i: nat, counter: Xid, clock: M.Clock)
    requires w in s.awaits && i < |s.awaits[w].conds| && OnOwnList(s, AwaitTrigger(w, i))
    requires s.awaits[w].conds[i].trigger.sync.None?
    requires M.InitStatus(s, Trig(s, AwaitTrigger(w, i)), counter, M.ALL_TRIGGER, clock) == Success
    ensures w in M.InitSuccess(s, AwaitTrigger(w, i), counter, M.ALL_TRIGGER, clock).awaits
  {
    InitSuccessEffect(s, AwaitTrigger(w, i), counter, M.ALL_TRIGGER, clock);
  }

  /** Once a condition has failed the loop has ended. */
  lemma {:induction false} SetupStops(p: State, w: Xid, reqs: seq<WaitCondition>, i: nat, n: nat, clock: M.Clock)
    requires i <= n <= |reqs| && (i == n || Setup(p, w, reqs, i, clock).1 != Success)
    ensures Setup(p, w, reqs, n, clock) == Setup(p, w, reqs, i, clock)
  {
    if i < n {
      SetupStops(p, w, reqs, i, n - 1, clock);
    }
  }

  lemma SetupStart(s0: State, p: State, client: Client, w: Xid, reqs: seq<WaitCondition>, clock: M.Clock)
    requires SyncRuns.Setting(s0, p, client, w, reqs, 0)
    ensures Setup(p, w, reqs, 0, clock) == (p, Success)
    ensures SyncRuns.SetUp(s0, (p, Success), client, w, reqs, 0)
  {
  }

  lemma SetupGoesOn(s0: State, p: State, r: (State, Status), client: Client, w: Xid, reqs: seq<WaitCondition>, i: nat,
                    clock: M.Clock)
    requires i < |reqs| && r.1 == Success && Setup(p, w, reqs, i, clock) == r
    requires SyncRuns.SetUp(s0, r, client, w, reqs, i)
    ensures SyncRuns.Setting(s0, r.0, client, w, reqs, i)
    ensures var r' := SetupOne(r.0, w, i, reqs[i], clock);
            Setup(p, w, reqs, i + 1, clock) == r' && SyncRuns.SetUp(s0, r', client, w, reqs, i + 1)
  {
    hide SyncRuns.Setting, SetupOne;
    SyncRuns.SetupRound(s0, r, client, w, reqs, i, clock);
  }

  lemma SetupEnds(s0: State, p: State, r: (State, Status), client: Client, w: Xid, reqs: seq<WaitCondition>, i: nat,
                  clock: M.Clock)
    requires i <= |reqs| && (i == |reqs| || r.1 != Success) && Setup(p, w, reqs, i, clock) == r
    requires SyncRuns.SetUp(s0, r, client, w, reqs, i)
    ensures Setup(p, w, reqs, |reqs|, clock) == r && SyncRuns.SetUp(s0, r, client, w, reqs, |reqs|)
  {
    hide SyncRuns.Setting, SetupOne, Setup;
    SetupStops(p, w, reqs, i, |reqs|, clock);
  }

  /** What ProcSyncAwait does once its loop has ended. */
  lemma AwaitEnds(s: State, client: Client, w: Xid, reqs: seq<WaitCondition>, clock: M.Clock)
    requires reqs != []
    ensures var r := Setup(Prologue(s, client, w, reqs), w, reqs, |reqs|, clock);
      && AwaitStatus(s, client, w, reqs, clock) == r.1
      && (w in r.0.awaits ==> AwaitRequest(s, client, w, reqs, clock)
                              == if r.1 != Success then M.FreeAwait(r.0, w) else Epilogue(r.0, client, w))
  {
  }

  lemma SetValueWalking(s: State, c: Xid, v: Int64)
    requires Inv(s) && c in s.counters
    ensures Walking(M.SetValue(s, c, v), c)
  {
    SameLinksLinked(s, M.SetValue(s, c, v));
    assert forall a | a in s.alarms :: AlarmOk(s, a);
  }

  lemma SystemKept(s: State, c: Xid, v: Int64, ts: seq<TriggerId>)
    requires Inv(s) && c in s.counters
    ensures var p := M.FireAll(M.SetValue(s, c, v), ts);
      && c in p.counters && (p.counters[c].kind.SystemCounter? <==> s.counters[c].kind.SystemCounter?)
      && Resolved(p)
  {
    var s1 := M.SetValue(s, c, v);
    SetValueWalking(s, c, v);
    FireAllEffect(s1, ts);
    var p := M.FireAll(s1, ts);
    assert Relisted(s1.counters[c], p.counters[c], p.counters[c].triggers);
    LinkedResolved(p, p);
  }

  class SyncServer {
    var counters: map<Xid, Counter>
    var alarms: map<Xid, Alarm>
    var awaits: map<Xid, Await>
    var ignore: map<Client, nat>
    var gone: set<Client>
    var log: seq<Event>

    ghost function S(): State
      reads this
    {
      State(counters, alarms, awaits, ignore, gone, log)
    }

    constructor ()
      ensures S() == INITIAL
    {
      counters, alarms, awaits, ignore, gone, log := map[], map[], map[], map[], {}, [];
    }

    function Trigger(t: TriggerId): (trig: Trigger)
      requires Has(S(), t)
      reads this
      ensures trig == Trig(S(), t)
    {
      match t
      case AlarmTrigger(a) => alarms[a].trigger
      case AwaitTrigger(w, i) => awaits[w].conds[i].trigger
    }

    predicate CheckTrigger(trig: Trigger, was: Int64)
      requires trig.sync.Some? ==> trig.sync.value in counters
      reads this
      ensures CheckTrigger(trig, was) == Check(S(), trig, was)
    {
      trig.sync.None? || CheckValue(trig.check, counters[trig.sync.value].value, was, trig.testValue)
    }

    method StoreTrigger(t: TriggerId, trig: Trigger)
      requires Has(S(), t)
      modifies this
      ensures S() == SetTrig(old(S()), t, trig)
    {
      match t
      case AlarmTrigger(a) => alarms := alarms[a := alarms[a].(trigger := trig)];
      case AwaitTrigger(w, i) =>
        awaits := awaits[w := awaits[w].(conds := awaits[w].conds[i := awaits[w].conds[i].(trigger := trig)])];
    }

    /** The body of the loop of SyncComputeBracketValues: one trigger's test value, for its kind of counter */
    static method NarrowBy(trig: Trigger, ct: CounterType, value: Int64, less: Option<Int64>, greater: Option<Int64>,
                           bracketLess0: Int64, bracketGreater0: Int64)
      returns (newLess: Option<Int64>, newGreater: Option<Int64>, bracketLess: Int64, bracketGreater: Int64)
      requires bracketGreater0 == Greater(Brackets(less, greater)) && bracketLess0 == Less(Brackets(less, greater))
      ensures Brackets(newLess, newGreater) == Narrow(ct, value, trig, Brackets(less, greater))
      ensures bracketGreater == Greater(Brackets(newLess, newGreater)) && bracketLess == Less(Brackets(newLess, newGreater))
    {
      newLess, newGreater, bracketLess, bracketGreater := less, greater, bracketLess0, bracketGreater0;
      var test := trig.testValue;
      if trig.testType == PositiveComparison && ct != NeverIncreases {
        if value < test && test < bracketGreater {
          bracketGreater, newGreater := test, Some(test);
        } else if value > test && test > bracketLess {
          bracketLess, newLess := test, Some(test);
        }
      } else if trig.testType == NegativeComparison && ct != NeverDecreases {
        if value > test && test > bracketLess {
          bracketLess, newLess := test, Some(test);
        } else if value < test && test < bracketGreater {
          bracketGreater, newGreater := test, Some(test);
        }
      } else if trig.testType == NegativeTransition && ct != NeverIncreases {
        if value >= test && test > bracketLess {
          bracketLess, newLess := test, Some(test);
        } else if value < test && test < bracketGreater {
          bracketGreater, newGreater := test, Some(test);
        }
      } else if trig.testType == PositiveTransition && ct != NeverDecreases {
        if value <= test && test < bracketGreater {
          bracketGreater, newGreater := test, Some(test);
        } else if value > test && test > bracketLess {
          bracketLess, newLess := test, Some(test);
        }
      }
    }

    /** SyncComputeBracketValues: the nearest test values the triggers on the list ask for. */
    method ComputeBracketValues(c: Xid)
      requires M.IsSystem(S(), c) && Resolved(S())
      modifies this
      ensures S() == M.Refresh(old(S()), c)
    {
      var k := counters[c];
      var ct := k.kind.ct;
      if ct == NeverChanges {
        return;
      }
      var bracketGreater: Int64, bracketLess: Int64 := INT64_MAX, INT64_MIN;
      var newGreater: Option<Int64>, newLess: Option<Int64> := None, None;
      for i := 0 to |k.triggers|
        invariant S() == old(S())
        invariant Brackets(newLess, newGreater) == NarrowAll(ct, k.value, M.Triggers(S(), k.triggers[..i]))
        invariant bracketGreater == Greater(Brackets(newLess, newGreater))
        invariant bracketLess == Less(Brackets(newLess, newGreater))
      {
        NarrowNext(S(), ct, k.value, k.triggers, i);
        newLess, newGreater, bracketLess, bracketGreater :=
          NarrowBy(Trigger(k.triggers[i]), ct, k.value, newLess, newGreater, bracketLess, bracketGreater);
      }
      assert k.triggers[..|k.triggers|] == k.triggers;
      counters := counters[c := k.(kind := k.kind.(brackets := Brackets(newLess, newGreater)))];
    }

    /** SyncDeleteTriggerFromSyncObject */
    method DeleteTriggerFromSyncObject(t: TriggerId)
      requires Has(S(), t) && (Trigger(t).sync.Some? ==> Trigger(t).sync.value in counters)
      requires Resolved(S())
      modifies this
      ensures S() == M.DeleteTrigger(old(S()), t)
    {
      var sync := Trigger(t).sync;
      if sync.None? {
        return;
      }
      var c := sync.value;
      var list := counters[c].triggers;
      var i := 0;
      while i < |list| && list[i] != t
        invariant 0 <= i <= |list| && t !in list[..i]
      {
        i := i + 1;
      }
      if i < |list| {
        UnlinkNode(list, t, i);
        counters := counters[c := counters[c].(triggers := list[..i] + list[i + 1..])];
      } else {
        assert list[..i] == list;
        WithoutAbsent(list, t);
        assert counters[c := counters[c].(triggers := list)] == counters;
      }
      if counters[c].kind.SystemCounter? {
        RelistResolved(old(S()), c, counters[c].triggers, t);
        ComputeBracketValues(c);
      }
    }

    /** SyncAddTriggerToSyncObject */
    method AddTriggerToSyncObject(t: TriggerId)
      requires Has(S(), t) && (Trigger(t).sync.Some? ==> Trigger(t).sync.value in counters)
      requires Resolved(S())
      modifies this
      ensures S() == M.AddTrigger(old(S()), t)
    {
      var sync := Trigger(t).sync;
      if sync.None? {
        return;
      }
      var c := sync.value;
      var list := counters[c].triggers;
      for i := 0 to |list|
        invariant t !in list[..i] && S() == old(S())
      {
        if list[i] == t {
          return;
        }
      }
      assert list[..|list|] == list;
      counters := counters[c := counters[c].(triggers := [t] + list)];
      if counters[c].kind.SystemCounter? {
        RelistResolved(old(S()), c, counters[c].triggers, t);
        ComputeBracketValues(c);
      }
    }

    // ----- alarms -----

    /** SyncSendAlarmNotifyEvents */
    method SendAlarmNotifyEvents(a: Xid)
      requires a in alarms && (alarms[a].trigger.sync.Some? ==> alarms[a].trigger.sync.value in counters)
      modifies this`log
      ensures S() == M.NotifyAlarm(old(S()), a)
    {
      var alarm := alarms[a];
      var sync := alarm.trigger.sync;
      var value := if sync.Some? then counters[sync.value].value else 0;
      var to := if alarm.events then [alarm.client] else [];
      log := log + [AlarmNotify(a, value, alarm.trigger.testValue, alarm.state, to + alarm.eventClients)];
    }

    /** SyncAlarmCounterDestroyed */
    method AlarmCounterDestroyed(a: Xid)
      requires a in alarms && (alarms[a].trigger.sync.Some? ==> alarms[a].trigger.sync.value in counters)
      modifies this
      ensures S() == M.AlarmCounterDestroyed(old(S()), a)
      // the alarm can go off no more and has said so once, with the value the counter had
      ensures alarms.Keys == old(alarms).Keys && alarms[a].state == Inactive && alarms[a].trigger.sync.None?
      ensures forall b | b in alarms && b != a :: alarms[b] == old(alarms)[b]
      ensures log == old(log) + [AlarmNotify(a, SyncValue(old(S()), old(alarms)[a].trigger.sync),
                                             old(alarms)[a].trigger.testValue, Inactive,
                                               SyncAlarms.Listeners(old(alarms)[a]))]
    {
      alarms := alarms[a := alarms[a].(state := Inactive)];
      SendAlarmNotifyEvents(a);
      alarms := alarms[a := alarms[a].(trigger := alarms[a].trigger.(sync := None))];
    }

    /** The loop of SyncAlarmTriggerFired: adds delta until the trigger is FALSE or the sum overflows. */
    static method AdvanceTestValue(check: TestType, value: Int64, oldValue: Int64, delta: Int64)
      returns (next: Option<Int64>)
      requires delta != 0 || !CheckValue(check, value, value, oldValue)
      ensures next == M.Advance(check, value, oldValue, delta)
    {
      var test: Int64, overflow := Wrap(oldValue + delta), !InRange(oldValue + delta);
      while !overflow && CheckValue(check, value, value, test)
        invariant delta == 0 ==> test == oldValue
        invariant M.Advance(check, value, oldValue, delta)
               == if overflow then None
                  else if CheckValue(check, value, value, test) then M.Advance(check, value, test, delta)
                  else Some(test)
        decreases !overflow, if delta > 0 then INT64_MAX - test else test - INT64_MIN
      {
        test, overflow := Wrap(test + delta), !InRange(test + delta);
      }
      next := if overflow then None else Some(test);
    }

    /** SyncAlarmTriggerFired: the event carries the old test value and the new state. */
    method AlarmTriggerFired(a: Xid)
      requires a in alarms && (alarms[a].trigger.sync.Some? ==> alarms[a].trigger.sync.value in counters)
      requires !AlarmSpins(S(), a)
      modifies this
      ensures S() == M.FireAlarm(old(S()), a)
    {
      var alarm := alarms[a];
      var trig := alarm.trigger;
      if alarm.state != Active {
        return;
      }
      if trig.sync.None?
         || (alarm.delta == 0 && (trig.testType == PositiveComparison || trig.testType == NegativeComparison)) {
        alarm := alarm.(state := Inactive);
        alarms := alarms[a := alarm];
      }
      var newTestValue := trig.testValue;
      if alarm.state == Active {
        var next := AdvanceTestValue(trig.check, counters[trig.sync.value].value, trig.testValue, alarm.delta);
        if next.Some? {
          newTestValue := next.value;
        } else {
          alarm := alarm.(state := Inactive);
          alarms := alarms[a := alarm];
        }
      }
      SendAlarmNotifyEvents(a);
      alarms := alarms[a := alarms[a].(trigger := alarms[a].trigger.(testValue := newTestValue))];
      assert trig.(testValue := trig.testValue) == trig;
    }

    /** FreeAlarm */
    method FreeAlarm(a: Xid)
      requires a in alarms && Linked(S())
      modifies this
      ensures S() == M.FreeAlarm(old(S()), a)
      ensures old(Inv(S())) ==> Inv(S())
    {
      if Inv(S()) {
        FreeAlarmInv(S(), a);
      }
      assert Armed(S(), AlarmTrigger(a));
      alarms := alarms[a := alarms[a].(state := Destroyed)];
      SendAlarmNotifyEvents(a);
      LinkedResolved(old(S()), S());
      DeleteTriggerFromSyncObject(AlarmTrigger(a));
      alarms := alarms - {a};
    }

    // ----- awaits -----

    /** SyncSendCounterNotifyEvents */
    method SendCounterNotifyEvents(client: Client, conds: seq<Condition>)
      requires forall i | 0 <= i < |conds| :: conds[i].trigger.sync.Some? && conds[i].trigger.sync.value in counters
      modifies this`log
      ensures log == old(log) + if client in gone then [] else M.CounterEvents(old(S()), client, conds)
    {
      if client in gone {
        return;
      }
      var events: seq<Event> := [];
      for i := 0 to |conds|
        invariant S() == old(S()) && |events| == i
        invariant forall j | 0 <= j < i :: events[j] == M.CounterEvent(S(), client, conds[j], |conds| - 1 - j)
      {
        var trig := conds[i].trigger;
        var k := counters[trig.sync.value];
        events := events + [CounterNotify(client, trig.sync.value, trig.testValue, k.value, |conds| - i - 1,
          k.beingDestroyed)];
      }
      log := log + events;
    }

    /** FreeAwait */
    method FreeAwait(w: Xid)
      requires Linked(S()) && w in awaits
      modifies this
      ensures S() == M.FreeAwait(old(S()), w)
    {
      var aw := awaits[w];
      for i := 0 to aw.armed
        invariant S() == M.Unlink(old(S()), w, i)
      {
        UnlinkHas(old(S()), w, i);
        var t := AwaitTrigger(w, i);
        var sync := Trigger(t).sync;
        if sync.Some? && !counters[sync.value].beingDestroyed {
          DeleteTriggerFromSyncObject(t);
        }
      }
      UnlinkEffect(old(S()), w, aw.armed);
      awaits := awaits - {w};
    }

    /** SyncAwaitTriggerFired */
    method AwaitTriggerFired(w: Xid)
      requires Linked(S()) && w in awaits && AwaitComplete(awaits[w])
      requires awaits[w].client !in gone ==> awaits[w].client in ignore && ignore[awaits[w].client] > 0
      modifies this
      ensures S() == M.FireAwait(old(S()), w)
    {
      var aw := awaits[w];
      var wanted: seq<Condition> := [];
      for i := 0 to aw.armed
        invariant S() == old(S()) && wanted == M.EventConds(S(), aw.conds[..i])
        invariant forall j | 0 <= j < |wanted| :: wanted[j].trigger.sync.Some? && wanted[j].trigger.sync.value in counters
      {
        var cond := aw.conds[i];
        var trig := cond.trigger;
        assert aw.conds[..i + 1][..i] == aw.conds[..i];
        assert Armed(S(), AwaitTrigger(w, i)) && Trig(S(), AwaitTrigger(w, i)) == trig;
        var k := counters[trig.sync.value];
        if k.beingDestroyed {
          wanted := wanted + [cond];
        } else if InRange(k.value - trig.testValue) {
          var diff := k.value - trig.testValue;
          var greater, equal := diff > cond.threshold, diff == cond.threshold;
          if ((trig.testType == PositiveComparison || trig.testType == PositiveTransition) && (greater || equal))
             || ((trig.testType == NegativeComparison || trig.testType == NegativeTransition) && !greater) {
            wanted := wanted + [cond];
          }
        }
      }
      if |wanted| > 0 {
        SendCounterNotifyEvents(aw.client, wanted);
      }
      ghost var events := if aw.client in gone then [] else M.CounterEvents(old(S()), aw.client, wanted);
      assert log == old(log) + events;
      AttendClient(aw.client);
      assert S() == M.Unignore(old(S()).(log := old(log) + events), aw.client);
      LinkedFrame(old(S()), S());
      FreeAwait(w);
    }

    /** AttendClient of os/connection.c */
    method AttendClient(client: Client)
      requires client !in gone ==> client in ignore && ignore[client] > 0
      modifies this`ignore
      ensures S() == M.Unignore(old(S()), client)
      // ignored once less, and served again after the last time
      ensures client !in gone ==>
                (client in ignore <==> old(ignore)[client] > 1) &&
                (client in ignore ==> ignore[client] == old(ignore)[client] - 1)
      ensures forall other :: other != client || client in gone ==>
                (other in ignore <==> other in old(ignore)) && (other in ignore ==> ignore[other] == old(ignore)[other])
    {
      if client in gone {
        return;
      }
      if ignore[client] - 1 == 0 {
        ignore := ignore - {client};
      } else {
        ignore := ignore[client := ignore[client] - 1];
      }
    }

    /** TriggerFired */
    method TriggerFired(t: TriggerId)
      requires Linked(S()) && CanFire(S(), t)
      modifies this
      ensures S() == M.Fire(old(S()), t)
    {
      match t
      case AlarmTrigger(a) =>
        assert Armed(S(), t) && Trig(S(), t) == alarms[a].trigger;
        AlarmTriggerFired(a);
      case AwaitTrigger(w, _) =>
        AwaitTriggerFired(w);
    }

    // ----- counters -----

    /** SyncUpdateCounter */
    method UpdateCounter(c: Xid, v: Int64) returns (was: Int64)
      requires c in counters
      modifies this
      ensures S() == M.SetValue(old(S()), c, v) && was == old(counters)[c].value
    {
      was := counters[c].value;
      counters := counters[c := counters[c].(value := v)];
    }

    /** The body of the walk: check one trigger, and call TriggerFired if it has become TRUE. */
    method VisitNode(t: TriggerId, was: Int64, ghost s1: State, ghost c: Xid, ghost i: nat) returns (fires: bool)
      requires Walking(s1, c) && i < |s1.counters[c].triggers| && t == s1.counters[c].triggers[i]
      requires S() == At(s1, c, was, i) && OnRest(S(), c, s1.counters[c].triggers, i)
      modifies this
      ensures S() == At(s1, c, was, i + 1) && OnRest(S(), c, s1.counters[c].triggers, i + 1)
      ensures Has(s1, t) && fires == Check(s1, Trig(s1, t), was)
    {
      WalkNode(s1, c, was, i);
      WalkFired(s1, c, was, i);
      fires := CheckTrigger(Trigger(t), was);
      if fires {
        TriggerFired(t);
      }
    }

    /**
     * SyncChangeCounter: walks the list from node to node, with the next node looked up before the
     * trigger fires. `fired` records the triggers whose TriggerFired was called.
     */
    method ChangeCounter(c: Xid, v: Int64) returns (ghost fired: seq<TriggerId>)
      requires Inv(S()) && c in counters
      modifies this
      ensures S() == M.ChangeCounter(old(S()), c, v)
      // exactly the triggers of the old list whose check held, each once, in the order of the list
      ensures fired == M.True(M.SetValue(old(S()), c, v), old(counters)[c].triggers, old(counters)[c].value)
      ensures NoDup(fired) && M.InOrder(fired, old(counters)[c].triggers)
      ensures S() == M.Refresh(M.FireAll(M.SetValue(old(S()), c, v), fired), c)
      ensures Inv(S())
    {
      ChangeCounterInv(S(), c, v);
      ghost var list := counters[c].triggers;
      ghost var s0 := S();
      var was := UpdateCounter(c, v);
      ghost var s1 := S();
      SetValueWalking(s0, c, v);
      fired := [];
      ghost var i := 0;
      var ptl: Option<TriggerId> := if counters[c].triggers == [] then None else Some(counters[c].triggers[0]);
      while ptl.Some?
        invariant i <= |list| && ptl == (if i < |list| then Some(list[i]) else None)
        invariant fired == M.True(s1, list[..i], was)
        invariant S() == At(s1, c, was, i)
        invariant OnRest(S(), c, list, i)
        decreases |list| - i
      {
        var t := ptl.value;
        WalkNode(s1, c, was, i);
        var pnext := Next(counters[c].triggers, t);
        var fires := VisitNode(t, was, s1, c, i);
        fired := Fires(s1, list, was, i, fired, fires);
        ptl, i := pnext, i + 1;
      }
      assert list[..i] == list;
      M.TrueInOrder(s1, list, was);
      FireAllEffect(s1, fired);
      SystemKept(s0, c, v, fired);
      if counters[c].kind.SystemCounter? {
        ComputeBracketValues(c);
      }
    }

    /** CounterDestroyed; the list of the dying counter is left alone. */
    method CounterDestroyed(t: TriggerId, ghost c: Xid)
      requires c in counters && Dying(S(), c, counters[c].triggers) && t in counters[c].triggers
      modifies this
      ensures S() == M.NotifyDestroyed(old(S()), t)
      ensures c in counters && counters[c].triggers == old(counters)[c].triggers
    {
      assert Armed(S(), t);
      match t
      case AlarmTrigger(a) => AlarmCounterDestroyed(a);
      case AwaitTrigger(w, _) =>
        FireAwaitEffect(S(), w);
        ghost var before := S();
        AwaitTriggerFired(w);
        assert Relisted(before.counters[c], counters[c], Pruned(before.counters[c], w, before.awaits[w].armed));
    }

    /** FreeCounter: tells every trigger on the list that the counter is going away. */
    method FreeCounter(c: Xid)
      requires Inv(S()) && c in counters
      modifies this
      ensures S() == M.FreeCounter(old(S()), c)
      ensures Inv(S())
    {
      FreeCounterInv(S(), c);
      ghost var s0 := S();
      counters := counters[c := counters[c].(beingDestroyed := true)];
      ghost var s1 := S();
      SameLinksButDying(s0, s1, c);
      while counters[c].triggers != []
        invariant c in counters && Dying(S(), c, counters[c].triggers)
        invariant M.DestroyWalk(S(), c, counters[c].triggers) == M.DestroyWalk(s1, c, s0.counters[c].triggers)
        decreases |counters[c].triggers|
      {
        DestroyStep(S(), c, counters[c].triggers);
        CounterDestroyed(counters[c].triggers[0], c);
        counters := counters[c := counters[c].(triggers := counters[c].triggers[1..])];
      }
      counters := counters - {c};
    }

    // ----- requests -----

    /** The end of SyncInitTrigger: registers the trigger on a new counter, or computes the brackets anew. */
    method Register(t: TriggerId, trig: Trigger, sync: Option<Xid>, ch: M.Changes)
      requires Has(S(), t) && OnOwnList(S(), t) && Trig(S(), t).sync == trig.sync && Resolved(S())
      requires sync.Some? ==> sync.value in counters
      modifies this
      ensures S() == Registered(old(S()), t, trig, sync, ch)
    {
      ghost var s1 := S();
      StoreTrigger(t, trig);
      SetTrigFrame(s1, t, trig);
      SetTrigResolved(s1, t, trig);
      if ch.counter && sync != trig.sync {
        ghost var s2 := S();
        DeleteTriggerFromSyncObject(t);
        MoveDelete(s2, t);
        FewerResolved(s2, S());
        ghost var s3 := S();
        StoreTrigger(t, trig.(sync := sync));
        SetTrigFrame(s3, t, trig.(sync := sync));
        SetTrigResolved(s3, t, trig.(sync := sync));
        AddTriggerToSyncObject(t);
      } else if sync.Some? && counters[sync.value].kind.SystemCounter? {
        ComputeBracketValues(sync.value);
      }
    }

    /** The part of SyncInitTrigger that evaluates the value type, the test value and the test type. */
    method EvaluateTrigger(trig: Trigger, sync: Option<Xid>, ch: M.Changes) returns (trig1: Trigger, status: Status)
      requires sync.Some? ==> sync.value in counters
      ensures (trig1, status) == Evaluated(S(), trig, sync, ch)
    {
      trig1 := trig;
      if ch.valueType && trig.valueType != Relative && trig.valueType != Absolute {
        return trig1, BadValue;
      }
      if ch.valueType || ch.value {
        if trig.valueType == Absolute {
          trig1 := trig.(testValue := trig.waitValue);
        } else {
          if sync.None? {
            return trig1, BadMatch;
          }
          var sum := counters[sync.value].value + trig.waitValue;
          trig1 := trig.(testValue := Wrap(sum));
          if !InRange(sum) {
            return trig1, BadValue;
          }
        }
      }
      if ch.testType {
        if trig1.testType.OtherTest? {
          return trig1, BadValue;
        }
        trig1 := trig1.(check := trig1.testType);
      }
      status := Success;
    }

    /** SyncInitTrigger */
    method InitTrigger(t: TriggerId, counter: Xid, ch: M.Changes, clock: M.Clock) returns (status: Status)
      requires Has(S(), t) && OnOwnList(S(), t) && Resolved(S())
      modifies this
      ensures status == M.InitStatus(old(S()), Trig(old(S()), t), counter, ch, clock)
      ensures S() == M.InitTrigger(old(S()), t, counter, ch, clock)
    {
      var trig := Trigger(t);
      var sync := trig.sync;
      ghost var s0 := S();
      if ch.counter {
        if counter == NONE {
          sync := None;
        } else if counter !in counters {
          return BadCounter;
        } else {
          sync := Some(counter);
        }
      }
      if sync.Some? && counters[sync.value].kind.SystemCounter? {
        var was := UpdateCounter(sync.value, clock(sync.value));
      }
      ghost var s1 := M.Query(s0, sync, clock);
      assert S() == s1;
      InitInParts(s0, t, counter, ch, clock);
      trig, status := EvaluateTrigger(trig, sync, ch);
      if status != Success {
        StoreTrigger(t, trig);
        return;
      }
      Register(t, trig, sync, ch);
    }

    /** SyncEventSelectForAlarm */
    method EventSelectForAlarm(a: Xid, client: Client, wants: bool)
      requires a in alarms
      modifies this`alarms
      ensures S() == M.SetAlarm(old(S()), a, SelectEvents(old(alarms)[a], client, wants))
    {
      var alarm := alarms[a];
      if client == alarm.client {
        alarm := alarm.(events := wants);
      } else if client in alarm.eventClients {
        if !wants {
          alarm := alarm.(eventClients := Remove(alarm.eventClients, client));
        }
      } else if wants {
        alarm := alarm.(eventClients := [client] + alarm.eventClients);
      }
      alarms := alarms[a := alarm];
    }

    /** The first part of SyncChangeAlarmAttributes, up to the commit. */
    method CommitAttributes(client: Client, a: Xid, attrs: Attributes) returns (status: Status)
      requires a in alarms
      modifies this
      ensures status == EarlyStatus(old(alarms)[a], attrs)
      ensures S() == if status == Success
               then Committed(old(S()), client, a, attrs) else Selected(old(S()), client, a, attrs)
    {
      var trig := Wanted(alarms[a].trigger, attrs);
      var delta := Get(attrs.delta, alarms[a].delta);
      if (attrs.events.Some? && attrs.events.value != 0 && attrs.events.value != 1) || attrs.unknown {
        return BadValue;
      }
      if attrs.events.Some? {
        EventSelectForAlarm(a, client, attrs.events.value == 1);
      }
      if attrs.delta.Some? || attrs.testType.Some? {
        if ((trig.testType == PositiveComparison || trig.testType == PositiveTransition) && delta < 0)
           || ((trig.testType == NegativeComparison || trig.testType == NegativeTransition) && delta > 0) {
          return BadMatch;
        }
      }
      alarms := alarms[a := alarms[a].(delta := delta, trigger := trig)];
      status := Success;
    }

    /** SyncChangeAlarmAttributes: the trigger is committed before SyncInitTrigger can still refuse it. */
    method ChangeAlarmAttributes(client: Client, a: Xid, attrs: Attributes, clock: M.Clock) returns (status: Status)
      requires a in alarms && Linked(S())
      modifies this
      ensures status == ChangeStatus(old(S()), a, attrs, clock)
      ensures S() == ChangeAttributes(old(S()), client, a, attrs, clock)
    {
      ghost var s0 := S();
      status := CommitAttributes(client, a, attrs);
      if status != Success {
        return;
      }
      ghost var s1 := S();
      CommittedReady(s0, client, a, attrs);
      InitStatusSame(s0, s1, Trig(s1, AlarmTrigger(a)), Get(attrs.counter, NONE), attrs.Mask(), clock);
      status := InitTrigger(AlarmTrigger(a), Get(attrs.counter, NONE), attrs.Mask(), clock);
      if status != Success {
        return;
      }
      AlarmStillThere(s1, a, Get(attrs.counter, NONE), attrs.Mask(), clock);
      alarms := alarms[a := alarms[a].(state := Active)];
    }

    /** The end of CreateAlarm and ChangeAlarm */
    method FireAlarmIfTrue(a: Xid)
      requires a in alarms && Linked(S()) && Agrees(alarms[a])
      modifies this
      ensures S() == FireIfTrue(old(S()), a)
    {
      assert Armed(S(), AlarmTrigger(a)) && Trig(S(), AlarmTrigger(a)) == alarms[a].trigger;
      var trig := alarms[a].trigger;
      if trig.sync.None? || CheckTrigger(trig, counters[trig.sync.value].value) {
        AlarmTriggerFired(a);
      }
    }

    /** ProcSyncChangeAlarm */
    method ProcChangeAlarm(client: Client, a: Xid, attrs: Attributes, clock: M.Clock) returns (status: Status)
      requires Inv(S())
      modifies this
      ensures status == if a in old(alarms) then ChangeStatus(old(S()), a, attrs, clock) else BadAlarm
      ensures S() == SyncRequests.ChangeAlarm(old(S()), client, a, attrs, clock)
      ensures Inv(S()) <==> (a in old(alarms) ==> Harmless(old(S()), a, attrs, clock))
    {
      SyncRuns.ChangeAlarmInv(S(), client, a, attrs, clock);
      if a !in alarms {
        return BadAlarm;
      }
      assert AlarmOk(S(), a);
      status := ChangeAlarmAttributes(client, a, attrs, clock);
      if status == Success {
        SyncRuns.ChangeAttributesSuccess(old(S()), client, a, attrs, clock);
        FireAlarmIfTrue(a);
      }
    }

    /** ProcSyncCreateAlarm */
    method ProcCreateAlarm(client: Client, a: Xid, attrs: Attributes, clock: M.Clock) returns (status: Status)
      requires Inv(S())
      modifies this
      ensures S() == SyncRequests.CreateAlarm(old(S()), client, a, attrs, clock)
      ensures status == if a in old(alarms) || a in old(counters) then BadIDChoice
                        else ChangeStatus(M.SetAlarm(old(S()), a, NewAlarm(client)), a, attrs, clock)
      ensures Inv(S())
    {
      SyncRuns.CreateAlarmInv(S(), client, a, attrs, clock);
      if a in alarms || a in counters {
        return BadIDChoice;
      }
      alarms := alarms[a := NewAlarm(client)];
      ghost var s1 := S();
      SyncRuns.NewAlarmInv(old(S()), client, a);
      status := ChangeAlarmAttributes(client, a, attrs, clock);
      if status != Success {
        alarms := alarms - {a};
        return;
      }
      SyncRuns.ChangeAttributesSuccess(s1, client, a, attrs, clock);
      if alarms[a].trigger.sync.None? {
        alarms := alarms[a := alarms[a].(state := Inactive)];
      } else {
        FireAlarmEffect(S(), a);
        FireAlarmIfTrue(a);
      }
    }

    /** SyncAwaitEpilogue */
    method AwaitEpilogue(client: Client, w: Xid)
      requires w in awaits && Inv(M.Ignore(S(), client))
      modifies this
      ensures S() == Epilogue(old(S()), client, w)
    {
      ignore := ignore[client := (if client in ignore then ignore[client] else 0) + 1];
      ghost var s1 := S();
      var i := 0;
      while i < |awaits[w].conds|
        invariant S() == s1 && i <= |awaits[w].conds| && FirstTrue(s1, w, 0) == FirstTrue(s1, w, i)
      {
        assert AwaitComplete(awaits[w]) && Armed(S(), AwaitTrigger(w, i));
        assert Trig(S(), AwaitTrigger(w, i)) == awaits[w].conds[i].trigger;
        var trig := awaits[w].conds[i].trigger;
        if CheckTrigger(trig, counters[trig.sync.value].value) {
          TriggerFired(AwaitTrigger(w, i));
          return;
        }
        i := i + 1;
      }
    }

    /** The loop of ProcSyncAwait: arms one condition after the other until one is refused. */
    method ArmConditions(ghost s0: State, client: Client, w: Xid, reqs: seq<WaitCondition>, clock: M.Clock)
      returns (status: Status)
      requires SyncRuns.Setting(s0, S(), client, w, reqs, 0)
      modifies this
      ensures Setup(old(S()), w, reqs, |reqs|, clock) == (S(), status)
      ensures SyncRuns.SetUp(s0, (S(), status), client, w, reqs, |reqs|)
    {
      hide *;
      ghost var p := S();
      var i := 0;
      status := Success;
      SetupStart(s0, p, client, w, reqs, clock);
      while i < |reqs| && status == Success
        invariant i <= |reqs| && Setup(p, w, reqs, i, clock) == (S(), status)
        invariant SyncRuns.SetUp(s0, (S(), status), client, w, reqs, i)
      {
        ghost var r := (S(), status);
        SetupGoesOn(s0, p, r, client, w, reqs, i, clock);
        status := ArmCondition(s0, client, w, reqs, i, clock);
        i := i + 1;
      }
      SetupEnds(s0, p, (S(), status), client, w, reqs, i, clock);
    }

    /** ProcSyncAwait */
    method ProcAwait(client: Client, w: Xid, reqs: seq<WaitCondition>, clock: M.Clock) returns (status: Status)
      requires Inv(S()) && Legal(S(), DoAwait(client, w, reqs, clock))
      modifies this
      ensures status == AwaitStatus(old(S()), client, w, reqs, clock)
      ensures S() == AwaitRequest(old(S()), client, w, reqs, clock)
      ensures Inv(S())
    {
      hide Linked, Complete, NoneDying, AlarmsOk, Blocking, Setup, Epilogue, M.FreeAwait, SyncRuns.ListsBut, SyncRuns.Partway,
        CountersKept;
      SyncRuns.AwaitInv(S(), client, w, reqs, clock);
      if reqs == [] {
        return BadValue;
      }
      ghost var s0 := S();
      SyncRuns.PrologueSetting(s0, client, w, reqs);
      AwaitEnds(s0, client, w, reqs, clock);
      awaits := awaits[w := Await(client, Blanks(reqs), 0)];
      status := ArmConditions(s0, client, w, reqs, clock);
      if status != Success {
        FreeAwait(w);
      } else {
        SyncRuns.BlockedInv(s0, S(), client, w, reqs);
        AwaitEpilogue(client, w);
      }
    }

    /** One round of the loop of ProcSyncAwait */
    method ArmCondition(ghost s0: State, client: Client, w: Xid, reqs: seq<WaitCondition>, i: nat, clock: M.Clock)
      returns (status: Status)
      requires i < |reqs| && SyncRuns.Setting(s0, S(), client, w, reqs, i)
      modifies this
      ensures (S(), status) == SetupOne(old(S()), w, i, reqs[i], clock)
    {
      if reqs[i].counter == NONE {
        return BadCounter;
      }
      SyncRuns.UnarmedOnNoList(S(), w, i);
      LinkedResolved(S(), S());
      ghost var before := S();
      status := InitTrigger(AwaitTrigger(w, i), reqs[i].counter, M.ALL_TRIGGER, clock);
      if status == Success {
        SyncRuns.SetupOneState(before, w, i, reqs[i], clock);
        InitKeepsAwait(before, w, i, reqs[i].counter, clock);
        awaits := awaits[w := awaits[w].(armed := i + 1)];
      }
    }

    /** IdleTimeWakeupHandler; `reset` is the flag that the last event time was reset. */
    method IdleTimeWakeup(c: Xid, idle: Int64, reset: bool)
      requires Inv(S()) && M.IsSystem(S(), c)
      modifies this
      ensures S() == IdleWakeup(old(S()), c, idle, reset)
      ensures Inv(S())
    {
      SyncRuns.IdleWakeupInv(S(), c, idle, reset);
      var b := counters[c].kind.brackets;
      if b.less.None? && b.greater.None? {
        return;
      }
      SyncRuns.WakeupInv(S(), c, 0);
      if reset && idle != 0 {
        IdleTimeCheckBrackets(c, 0);
      }
      IdleTimeCheckBrackets(c, idle);
    }

    method IdleTimeCheckBrackets(c: Xid, idle: Int64)
      requires Inv(S()) && M.IsSystem(S(), c)
      modifies this
      ensures S() == CheckBrackets(old(S()), c, idle)
    {
      var b := counters[c].kind.brackets;
      if (b.greater.Some? && idle >= b.greater.value) || (b.less.Some? && idle <= b.less.value) {
        ghost var fired := ChangeCounter(c, idle);
      } else {
        var was := UpdateCounter(c, idle);
      }
    }
  }
}
