/** Awaits on unrestricted system counters: what setting them up and giving them up does to brackets and to being guarded. */
module SyncAwaits {
  import opened Options
  import opened Wire
  import opened SyncTypes
  import opened SyncBrackets
  import opened SyncModel
  import opened SyncRequests
  import opened SyncLinks
  import opened SyncInvariants
  import opened SyncInit
  import SyncRuns
  import opened SyncIdle
  import opened SyncMissed
  import opened SyncGuards

  // ----- one condition -----

  /** A condition set up on c leaves the brackets up to date; one set up elsewhere does not touch c. */
  lemma SetupFresh(p: State, w: Xid, n: nat, req: WaitCondition, clock: Clock, c: Xid)
    requires Linked(p) && Free(p, c) && w in p.awaits && n < |p.awaits[w].conds|
    requires p.awaits[w].conds[n].trigger.sync.None? && OnOwnList(p, AwaitTrigger(w, n))
    requires CondStatus(p, w, n, req, clock) == Success
    ensures var s' := SetupOne(p, w, n, req, clock).0;
      c in s'.counters &&
      if req.counter == c then Fresh(s', c) && s'.counters[c].value == clock(c) else s'.counters[c] == p.counters[c]
  {
    hide *;
    var t := AwaitTrigger(w, n);
    SyncRuns.CondAccepted(p, w, n, req, clock);
    InitFresh(p, t, req.counter, ALL_TRIGGER, clock, c);
    InitSuccessEffect(p, t, req.counter, ALL_TRIGGER, clock);
    ArmFresh(p, InitSuccess(p, t, req.counter, ALL_TRIGGER, clock), w, n, Installed(p, Trig(p, t), req.counter,
      ALL_TRIGGER, clock), c);
  }

  lemma ArmFresh(p: State, s: State, w: Xid, n: nat, trig: Trigger, c: Xid)
    requires Linked(p) && Free(p, c) && w in p.awaits && n < |p.awaits[w].conds|
    requires s == SetTrig(p, AwaitTrigger(w, n), trig).(counters := s.counters)
             && Moved(p, s, AwaitTrigger(w, n), trig.sync)
    ensures c in s.counters && Arm(s, w, n + 1).counters == s.counters
    ensures Fresh(s, c) ==> Fresh(Arm(s, w, n + 1), c)
  {
    hide NarrowAll, Triggers;
    if Fresh(s, c) {
      forall u | u in s.counters[c].triggers
        ensures Has(s, u) && Has(Arm(s, w, n + 1), u) && SameTest(Trig(s, u), Trig(Arm(s, w, n + 1), u))
      {
        assert u == AwaitTrigger(w, n) || Armed(p, u);
      }
      ElsewhereFresh(s, Arm(s, w, n + 1), c);
    }
  }

  lemma SetupJoined(p: State, p': State, w: Xid, n: nat, trig: Trigger, c: Xid)
    requires Linked(p) && Linked(p') && Free(p, c) && w in p.awaits && p.awaits[w].armed == n < |p.awaits[w].conds|
    requires p' == p.(counters := p'.counters, awaits := p.awaits[w := SyncRuns.ArmNext(p.awaits[w], n, trig)])
    requires CountersKept(p, p') && Headed(p, p', AwaitTrigger(w, n), trig.sync)
    ensures Joined(p, p', c, OfAwait(w))
    ensures trig.sync != Some(c) && p'.counters[c] == p.counters[c] ==> Kept(p, p', c)
  {
    hide *;
    FreeStays(p, p', c);
    FreeIn(p, c);
    FreeIn(p', c);
    LinkedOnce(p, c);
    LinkedOnce(p', c);
    forall u
      ensures u in p'.counters[c].triggers
              <==> u in p.counters[c].triggers || (u == AwaitTrigger(w, n) && trig.sync == Some(c))
      ensures u in p.counters[c].triggers && u != AwaitTrigger(w, n) ==>
                Has(p, u) && Has(p', u) && Trig(p', u) == Trig(p, u) && (Pending(p', u) <==> Pending(p, u))
    {
      HeadedListed(p, p', AwaitTrigger(w, n), trig.sync, c, u);
      if u in p.counters[c].triggers && u != AwaitTrigger(w, n) {
        ArmedApart(p, p', w, n, trig, u);
      }
    }
    SameButOne(p, p', c, w, n);
    if trig.sync != Some(c) && p'.counters[c] == p.counters[c] {
      UnarmedNot(p, c, w, n);
      SameListKept(p, p', c);
    }
  }

  lemma HeadedListed(p: State, p': State, t: TriggerId, sync: Option<Xid>, c: Xid, u: TriggerId)
    requires Headed(p, p', t, sync) && c in p.counters
    ensures c in p'.counters &&
            (u in p'.counters[c].triggers <==> u in p.counters[c].triggers || (u == t && sync == Some(c)))
  {
  }

  lemma UnarmedNot(p: State, c: Xid, w: Xid, n: nat)
    requires Linked(p) && c in p.counters && w in p.awaits && p.awaits[w].armed == n
    ensures AwaitTrigger(w, n) !in p.counters[c].triggers
  {
    assert !Armed(p, AwaitTrigger(w, n));
  }

  lemma SameButOne(p: State, p': State, c: Xid, w: Xid, n: nat)
    requires c in p.counters && c in p'.counters
    requires forall u | u != AwaitTrigger(w, n) :: u in p'.counters[c].triggers <==> u in p.counters[c].triggers
    requires forall u | u in p.counters[c].triggers && u != AwaitTrigger(w, n) ::
               Has(p, u) && Has(p', u) && Trig(p', u) == Trig(p, u) && (Pending(p', u) <==> Pending(p, u))
    ensures Joined(p, p', c, OfAwait(w))
  {
    hide Pending, Trig;
  }

  lemma SameListKept(p: State, p': State, c: Xid)
    requires Free(p, c) && c in p'.counters && p'.counters[c] == p.counters[c] && NoDup(p.counters[c].triggers)
    requires forall u | u in p.counters[c].triggers ::
               Has(p, u) && Has(p', u) && Trig(p', u) == Trig(p, u) && (Pending(p', u) <==> Pending(p, u))
    ensures Kept(p, p', c)
  {
    hide NarrowAll, Triggers, Fresh, Pending, Trig;
  }

  lemma LinkedOnce(s: State, c: Xid)
    requires Linked(s) && c in s.counters
    ensures NoDup(s.counters[c].triggers) && forall u | u in s.counters[c].triggers :: Armed(s, u)
  {
  }

  lemma ArmedApart(p: State, p': State, w: Xid, n: nat, trig: Trigger, u: TriggerId)
    requires Armed(p, u) && u != AwaitTrigger(w, n) && w in p.awaits && p.awaits[w].armed == n < |p.awaits[w].conds|
    requires p' == p.(counters := p'.counters, awaits := p.awaits[w := SyncRuns.ArmNext(p.awaits[w], n, trig)])
    ensures Has(p, u) && Has(p', u) && Trig(p', u) == Trig(p, u) && (Pending(p', u) <==> Pending(p, u))
  {
  }

  /** One condition set up: it joins c, or nothing happens to c. */
  lemma RoundEffect(s0: State, p: State, client: Client, w: Xid, reqs: seq<WaitCondition>, n: nat, clock: Clock, c: Xid)
    requires SyncRuns.Setting(s0, p, client, w, reqs, n) && n < |reqs| && Free(p, c)
    requires CondStatus(p, w, n, reqs[n], clock) == Success
    ensures var p' := SetupOne(p, w, n, reqs[n], clock).0;
      && Joined(p, p', c, OfAwait(w))
      && if reqs[n].counter == c then Fresh(p', c) && p'.counters[c].value == clock(c)
         else Kept(p, p', c) && p'.counters[c] == p.counters[c]
  {
    hide *;
    WaitingOpen(s0, p, client, w, reqs, n);
    SyncRuns.UnarmedOnNoList(p, w, n);
    SyncRuns.SetupOneState(p, w, n, reqs[n], clock);
    SetupFresh(p, w, n, reqs[n], clock, c);
    SyncRuns.SetupStep(s0, p, client, w, reqs, n, clock);
    var p' := SetupOne(p, w, n, reqs[n], clock).0;
    WaitingOpen(s0, p', client, w, reqs, n + 1);
    SetupJoined(p, p', w, n, Installed(p, p.awaits[w].conds[n].trigger, reqs[n].counter, ALL_TRIGGER, clock), c);
  }

  lemma WaitingOpen(s0: State, p: State, client: Client, w: Xid, reqs: seq<WaitCondition>, n: nat)
    requires SyncRuns.Setting(s0, p, client, w, reqs, n)
    ensures Linked(p) && w in p.awaits && p.awaits[w].armed == n && |p.awaits[w].conds| == |reqs| && n <= |reqs|
    ensures n < |reqs| ==> p.awaits[w].conds[n].trigger.sync.None?
    ensures NoneDying(s0) ==> NoneDying(p)
    ensures forall c | Free(s0, c) :: Free(p, c)
  {
  }

  lemma {:induction false} SetupKeepsFresh(s: State, client: Client, w: Xid, reqs: seq<WaitCondition>, n: nat, clock: Clock,
      c: Xid)
    requires Linked(s) && w !in s.awaits && n <= |reqs| && Fresh(s, c)
    requires Setup(Prologue(s, client, w, reqs), w, reqs, n, clock).1 == Success
    ensures Fresh(Setup(Prologue(s, client, w, reqs), w, reqs, n, clock).0, c)
  {
    hide NarrowAll, Triggers, SetupOne, SyncRuns.Setting, Linked, Joined, Kept;
    if n == 0 {
      PrologueFresh(s, client, w, reqs, c);
    } else {
      var r := Setup(Prologue(s, client, w, reqs), w, reqs, n - 1, clock);
      SetupKeepsFresh(s, client, w, reqs, n - 1, clock, c);
      SyncRuns.SetupSetting(s, client, w, reqs, n - 1, clock);
      SetupOneStatus(r.0, w, n - 1, reqs[n - 1], clock);
      RoundEffect(s, r.0, client, w, reqs, n - 1, clock, c);
      if reqs[n - 1].counter != c {
        KeptFresh(r.0, SetupOne(r.0, w, n - 1, reqs[n - 1], clock).0, c);
      }
    }
  }

  lemma SetupOneStatus(p: State, w: Xid, i: nat, req: WaitCondition, clock: Clock)
    ensures SetupOne(p, w, i, req, clock).1 == CondStatus(p, w, i, req, clock)
  {
    hide InitStatus, InitSuccess, InitFailure;
  }

  lemma PrologueFresh(s: State, client: Client, w: Xid, reqs: seq<WaitCondition>, c: Xid)
    requires Linked(s) && w !in s.awaits && Fresh(s, c)
    ensures Fresh(Prologue(s, client, w, reqs), c)
  {
    hide NarrowAll, Triggers;
    assert forall u | u in s.counters[c].triggers :: Armed(s, u);
    ElsewhereFresh(s, Prologue(s, client, w, reqs), c);
  }

  lemma BlockKept(p: State, client: Client, c: Xid)
    requires Linked(p) && Free(p, c)
    ensures var s1 := Ignore(p, client);
      Kept(p, s1, c) && Linked(s1) && s1.counters == p.counters && s1.awaits == p.awaits && s1.alarms == p.alarms
  {
    hide NarrowAll, Triggers;
    KeptSelf(p, c);
    LinkedFrame(p, Ignore(p, client));
  }

  lemma NotDying(s: State, c: Xid, w: Xid)
    requires NoneDying(s) && c in s.counters
    ensures !s.counters[c].beingDestroyed && OffDying(s, w)
  {
  }

  lemma AllChecked(s: State, p: State, client: Client, w: Xid, reqs: seq<WaitCondition>)
    requires SyncRuns.Setting(s, p, client, w, reqs, |reqs|)
    ensures w in p.awaits && forall i | 0 <= i < |p.awaits[w].conds| :: Checks(p.awaits[w].conds[i].trigger)
  {
  }

  lemma NoneDyingSame(p: State, s: State)
    requires NoneDying(p) && s.counters == p.counters
    ensures NoneDying(s)
  {
  }

  lemma EpilogueIs(p: State, client: Client, w: Xid)
    requires w in p.awaits && p.awaits[w].armed <= |p.awaits[w].conds|
    ensures var s1 := Ignore(p, client);
      && s1.awaits == p.awaits && FirstTrue(s1, w, 0) <= |s1.awaits[w].conds|
      && Epilogue(p, client, w) == if FirstTrue(s1, w, 0) < |s1.awaits[w].conds| then FireAwait(s1, w) else s1
  {
    hide FirstTrue, FireAwait;
  }

  /** An Await that succeeds keeps brackets that are up to date so, on the counters it names as on the others. */
  lemma AwaitFresh(s: State, client: Client, w: Xid, reqs: seq<WaitCondition>, clock: Clock, c: Xid)
    requires Linked(s) && NoneDying(s) && w !in s.awaits && Fresh(s, c)
    requires AwaitStatus(s, client, w, reqs, clock) == Success
    ensures Fresh(AwaitRequest(s, client, w, reqs, clock), c)
  {
    hide *;
    AwaitIs(s, client, w, reqs, clock);
    SetupKeepsFresh(s, client, w, reqs, |reqs|, clock, c);
    SyncRuns.SetupSetting(s, client, w, reqs, |reqs|, clock);
    var p := Setup(Prologue(s, client, w, reqs), w, reqs, |reqs|, clock).0;
    SetUpOpen(s, Setup(Prologue(s, client, w, reqs), w, reqs, |reqs|, clock), client, w, reqs);
    WaitingOpen(s, p, client, w, reqs, |reqs|);
    FreshFree(p, c);
    BlockKept(p, client, c);
    var s1 := Ignore(p, client);
    KeptFresh(p, s1, c);
    EpilogueIs(p, client, w);
    if FirstTrue(s1, w, 0) < |s1.awaits[w].conds| {
      FreshFree(s1, c);
      NoneDyingSame(p, s1);
      NotDying(s1, c, w);
      FireAwaitKept(s1, w, c);
      KeptFresh(s1, FireAwait(s1, w), c);
    }
  }

  lemma SetUpOpen(s: State, r: (State, Status), client: Client, w: Xid, reqs: seq<WaitCondition>)
    requires SyncRuns.SetUp(s, r, client, w, reqs, |reqs|) && r.1 == Success
    ensures SyncRuns.Setting(s, r.0, client, w, reqs, |reqs|)
  {
  }

  lemma AwaitIs(s: State, client: Client, w: Xid, reqs: seq<WaitCondition>, clock: Clock)
    requires Linked(s) && w !in s.awaits && AwaitStatus(s, client, w, reqs, clock) == Success
    ensures var r := Setup(Prologue(s, client, w, reqs), w, reqs, |reqs|, clock);
      r.1 == Success && w in r.0.awaits && AwaitRequest(s, client, w, reqs, clock) == Epilogue(r.0, client, w)
  {
    hide Setup, Epilogue, Linked, SyncRuns.Setting;
    SyncRuns.SetupSetting(s, client, w, reqs, |reqs|, clock);
  }


  // ----- all conditions -----

  /** One of the first k conditions names counter c. */
  ghost predicate Joins(reqs: seq<WaitCondition>, k: nat, c: Xid) {
    exists i :: 0 <= i < k && i < |reqs| && reqs[i].counter == c
  }

  /**
   * Where the loop of ProcSyncAwait has got to, for counter c: brackets computed at the clock's value if a condition has
   * joined, and otherwise nothing done but for the value, if the condition that failed has asked for it.
   */
  ghost predicate WaitState(s: State, r: (State, Status), c: Xid, w: Xid, reqs: seq<WaitCondition>, clock: Clock) {
    var p := r.0;
    w in p.awaits && Joined(s, p, c, OfAwait(w)) &&
    var k := p.awaits[w].armed;
    if Joins(reqs, k, c) then Fresh(p, c) && p.counters[c].value == clock(c)
    else
      && p.counters[c] == s.counters[c].(value := p.counters[c].value)
      && (r.1 == Success ==> p.counters[c].value == s.counters[c].value)
  }

  lemma PrologueWaits(s: State, client: Client, w: Xid, reqs: seq<WaitCondition>, clock: Clock, c: Xid)
    requires Linked(s) && w !in s.awaits && Free(s, c)
    ensures WaitState(s, (Prologue(s, client, w, reqs), Success), c, w, reqs, clock)
  {
    hide NarrowAll, Triggers, Fresh;
    assert forall u | u in s.counters[c].triggers :: Armed(s, u);
  }

  lemma JoinsNext(reqs: seq<WaitCondition>, n: nat, c: Xid)
    requires n < |reqs|
    ensures Joins(reqs, n + 1, c) <==> Joins(reqs, n, c) || reqs[n].counter == c
  {
    if Joins(reqs, n + 1, c) {
      var i :| 0 <= i < n + 1 && i < |reqs| && reqs[i].counter == c;
    }
    if Joins(reqs, n, c) {
      var i :| 0 <= i < n && i < |reqs| && reqs[i].counter == c;
    }
  }

  lemma RoundWaits(s: State, p: State, client: Client, w: Xid, reqs: seq<WaitCondition>, n: nat, clock: Clock, c: Xid)
    requires SyncRuns.Setting(s, p, client, w, reqs, n) && n < |reqs| && Free(s, c)
    requires WaitState(s, (p, Success), c, w, reqs, clock) && CondStatus(p, w, n, reqs[n], clock) == Success
    ensures WaitState(s, SetupOne(p, w, n, reqs[n], clock), c, w, reqs, clock)
  {
    hide NarrowAll, Triggers, Fresh, SetupOne, SyncRuns.Setting, Joins, Joined, Kept, CondStatus, IsSystem, BracketsOf;
    var p' := SetupOne(p, w, n, reqs[n], clock).0;
    WaitingOpen(s, p, client, w, reqs, n);
    RoundEffect(s, p, client, w, reqs, n, clock, c);
    SetupOneStatus(p, w, n, reqs[n], clock);
    SyncRuns.SetupStep(s, p, client, w, reqs, n, clock);
    WaitingOpen(s, p', client, w, reqs, n + 1);
    JoinedTwice(s, p, p', c, OfAwait(w));
    JoinsNext(reqs, n, c);
    if reqs[n].counter != c && Joins(reqs, n, c) {
      KeptFresh(p, p', c);
    }
  }

  /** A failing SyncInitTrigger may store the queried value and another test value, and touches nothing else. */
  lemma FailureUnmoved(s: State, t: TriggerId, counter: Xid, ch: Changes, clock: Clock, c: Xid)
    requires Has(s, t) && Free(s, c)
    ensures var s' := InitFailure(s, t, counter, ch, clock);
      && Has(s', t) && s' == SetTrig(s, t, Trig(s', t)).(counters := s'.counters)
      && Trig(s', t) == Trig(s, t).(testValue := Trig(s', t).testValue)
      && s'.counters == (if ch.counter && counter != NONE && counter !in s.counters then s
                         else Query(s, NewSync(Trig(s, t), counter, ch), clock)).counters
      && c in s'.counters && s'.counters[c] == s.counters[c].(value := s'.counters[c].value)
      && (s'.counters[c].value == s.counters[c].value || s'.counters[c].value == clock(c))
  {
    InitFailureEffect(s, t, counter, ch, clock);
  }

  lemma RoundFailsJoined(s: State, p: State, client: Client, w: Xid, reqs: seq<WaitCondition>, n: nat, clock: Clock, c: Xid)
    requires SyncRuns.Setting(s, p, client, w, reqs, n) && n < |reqs| && Free(p, c)
    requires CondStatus(p, w, n, reqs[n], clock) != Success
    ensures var r := SetupOne(p, w, n, reqs[n], clock);
      && r.1 != Success && w in r.0.awaits && r.0.awaits[w].armed == n
      && Joined(p, r.0, c, OfAwait(w)) && Free(r.0, c)
      && r.0.counters[c] == p.counters[c].(value := r.0.counters[c].value)
      && (r.0.counters[c].value == p.counters[c].value || r.0.counters[c].value == clock(c))
      && (forall t | t in p.counters[c].triggers :: Has(p, t) && Has(r.0, t) && SameTest(Trig(p, t), Trig(r.0, t)))
  {
    hide *;
    WaitingOpen(s, p, client, w, reqs, n);
    FreeIn(p, c);
    RoundFailsIs(p, w, n, reqs[n], clock);
    var t, p' := AwaitTrigger(w, n), SetupOne(p, w, n, reqs[n], clock).0;
    if reqs[n].counter == NONE {
      FailureJoined(p, p, w, n, Trig(p, t), c);
    } else {
      FailureUnmoved(p, t, reqs[n].counter, ALL_TRIGGER, clock, c);
      SyncRuns.UnarmedOnNoList(p, w, n);
      FailureJoined(p, p', w, n, Trig(p', t), c);
    }
  }

  lemma RoundFailsIs(p: State, w: Xid, n: nat, req: WaitCondition, clock: Clock)
    requires CondStatus(p, w, n, req, clock) != Success && w in p.awaits && n < |p.awaits[w].conds|
    ensures Has(p, AwaitTrigger(w, n))
    ensures SetupOne(p, w, n, req, clock).1 != Success
    ensures SetupOne(p, w, n, req, clock).0
         == if req.counter == NONE then p else InitFailure(p, AwaitTrigger(w, n), req.counter, ALL_TRIGGER, clock)
  {
    hide InitFailure, InitStatus;
  }

  lemma FailureJoined(p: State, p': State, w: Xid, n: nat, trig: Trigger, c: Xid)
    requires Linked(p) && Free(p, c) && w in p.awaits && p.awaits[w].armed == n < |p.awaits[w].conds|
    requires p' == p || p' == SetTrig(p, AwaitTrigger(w, n), trig).(counters := p'.counters)
    requires c in p'.counters && p'.counters[c] == p.counters[c].(value := p'.counters[c].value)
    ensures w in p'.awaits && p'.awaits[w].armed == n && Joined(p, p', c, OfAwait(w)) && Free(p', c)
    ensures forall t | t in p.counters[c].triggers :: Has(p, t) && Has(p', t) && SameTest(Trig(p, t), Trig(p', t))
  {
    hide NarrowAll, Triggers;
    assert forall u | u in p.counters[c].triggers :: Armed(p, u);
    SetTrigFrame(p, AwaitTrigger(w, n), trig);
  }

  lemma RoundFails(s: State, p: State, client: Client, w: Xid, reqs: seq<WaitCondition>, n: nat, clock: Clock, c: Xid)
    requires SyncRuns.Setting(s, p, client, w, reqs, n) && n < |reqs| && Free(s, c)
    requires WaitState(s, (p, Success), c, w, reqs, clock) && CondStatus(p, w, n, reqs[n], clock) != Success
    ensures WaitState(s, SetupOne(p, w, n, reqs[n], clock), c, w, reqs, clock)
  {
    hide NarrowAll, Triggers, Fresh, SetupOne, SyncRuns.Setting, Joins, Joined, CondStatus, IsSystem, BracketsOf;
    WaitingOpen(s, p, client, w, reqs, n);
    RoundFailsJoined(s, p, client, w, reqs, n, clock, c);
    var p' := SetupOne(p, w, n, reqs[n], clock).0;
    JoinedTwice(s, p, p', c, OfAwait(w));
    if Joins(reqs, n, c) {
      FreshFree(p, c);
      assert p'.counters[c] == p.counters[c];
      ElsewhereFresh(p, p', c);
    }
  }

  lemma {:induction false} SetupWaits(s: State, client: Client, w: Xid, reqs: seq<WaitCondition>, n: nat, clock: Clock,
      c: Xid)
    requires Linked(s) && w !in s.awaits && n <= |reqs| && Free(s, c)
    ensures WaitState(s, Setup(Prologue(s, client, w, reqs), w, reqs, n, clock), c, w, reqs, clock)
  {
    hide NarrowAll, Triggers, SetupOne, WaitState, SyncRuns.Setting, CondStatus, Linked, IsSystem;
    if n == 0 {
      PrologueWaits(s, client, w, reqs, clock, c);
    } else {
      var r := Setup(Prologue(s, client, w, reqs), w, reqs, n - 1, clock);
      SetupWaits(s, client, w, reqs, n - 1, clock, c);
      SyncRuns.SetupSetting(s, client, w, reqs, n - 1, clock);
      if r.1 == Success {
        if CondStatus(r.0, w, n - 1, reqs[n - 1], clock) == Success {
          RoundWaits(s, r.0, client, w, reqs, n - 1, clock, c);
        } else {
          RoundFails(s, r.0, client, w, reqs, n - 1, clock, c);
        }
      }
    }
  }

  // ----- the end of the request -----

  lemma {:induction false} UnlinkElsewhere(s: State, w: Xid, n: nat, c: Xid)
    requires Linked(s) && w in s.awaits && n <= s.awaits[w].armed && c in s.counters
    requires forall t | t in s.counters[c].triggers :: !Owns(OfAwait(w), t)
    ensures c in Unlink(s, w, n).counters && Unlink(s, w, n).counters[c] == s.counters[c]
  {
    hide DeleteTrigger, Prune;
    if n > 0 {
      UnlinkElsewhere(s, w, n - 1, c);
      UnlinkEffect(s, w, n - 1);
      var u, t := Unlink(s, w, n - 1), AwaitTrigger(w, n - 1);
      assert Armed(s, t) && Has(u, t) && Trig(u, t) == Trig(s, t);
      if Trig(s, t).sync.Some? && Trig(s, t).sync.value in u.counters {
        assert t in s.counters[Trig(s, t).sync.value].triggers;
        DeleteFrame(u, t);
      }
    }
  }

  /** What giving the await up, with or without events, leaves on counter c */
  lemma FreedJoined(p: State, s': State, w: Xid, c: Xid)
    requires Linked(p) && NoneDying(p) && w in p.awaits && c in p.counters && AwaitGone(p, s', w)
    ensures Joined(p, s', c, OfAwait(w)) && forall t | t in s'.counters[c].triggers :: !Owns(OfAwait(w), t)
    ensures c in s'.counters && s'.counters[c].value == p.counters[c].value
  {
    hide Prune;
    assert Relisted(p.counters[c], s'.counters[c], Pruned(p.counters[c], w, p.awaits[w].armed));
    assert forall u | u in p.counters[c].triggers :: Armed(p, u);
  }

  /** Giving the await up neither guards a counter nor leaves it unguarded. */
  lemma FreedGuardIff(p: State, s': State, w: Xid, c: Xid)
    requires Linked(p) && NoneDying(p) && w in p.awaits && Free(p, c) && AwaitGone(p, s', w) && Kept(p, s', c)
    requires Fresh(p, c)
             || ((forall t | t in p.counters[c].triggers :: !Owns(OfAwait(w), t)) && s'.counters[c] == p.counters[c])
    ensures Free(s', c) && (GuardedBut(s', c, Nobody) <==> GuardedBut(p, c, OfAwait(w)))
  {
    hide *;
    FreeIn(p, c);
    FreedJoined(p, s', w, c);
    KeptFree(p, s', c);
    OwnerGone(s', c, OfAwait(w));
    if Fresh(p, c) {
      KeptFresh(p, s', c);
      FreshGuardIff(p, c, OfAwait(w));
      FreshGuardIff(s', c, OfAwait(w));
      JoinedQuiescent(p, s', c, p.counters[c].value, OfAwait(w));
    } else {
      FreeIn(s', c);
      SameBracketsOf(p, s', c);
      JoinedHeard(p, s', c, p.counters[c].value, OfAwait(w));
      GuardIs(p, c, OfAwait(w));
      GuardIs(s', c, OfAwait(w));
    }
  }

  lemma KeptFree(s: State, s': State, c: Xid)
    requires Kept(s, s', c)
    ensures Free(s', c)
  {
    hide NarrowAll, Triggers;
  }

  lemma FreeIn(s: State, c: Xid)
    ensures Free(s, c) ==> c in s.counters
  {
  }

  lemma SameBracketsOf(p: State, s': State, c: Xid)
    requires Free(p, c) && c in s'.counters && s'.counters[c] == p.counters[c]
    ensures Free(s', c) && BracketsOf(s', c) == BracketsOf(p, c)
  {
  }

  lemma GuardIs(s: State, c: Xid, o: Owner)
    requires Free(s, c)
    ensures c in s.counters && (GuardedBut(s, c, o) <==> HeardBut(s, c, s.counters[c].value, o))
  {
    hide HeardBut;
  }

  /** The await stays: none of its conditions is TRUE. */
  lemma StaysGuardIff(s: State, c: Xid, w: Xid)
    requires Linked(s) && w in s.awaits && Free(s, c) && FirstTrue(s, w, 0) == |s.awaits[w].conds|
    requires Fresh(s, c) || forall t | t in s.counters[c].triggers :: !Owns(OfAwait(w), t)
    requires forall i | 0 <= i < |s.awaits[w].conds| :: Checks(s.awaits[w].conds[i].trigger)
    ensures GuardedBut(s, c, Nobody) <==> GuardedBut(s, c, OfAwait(w))
  {
    hide NarrowAll, Triggers, Fresh, Heard, Unseen;
    if Fresh(s, c) {
      FreshGuardIff(s, c, OfAwait(w));
      FreshGuardIff(s, c, Nobody);
      forall t | t in s.counters[c].triggers && Has(s, t) && Owns(OfAwait(w), t)
        ensures !ComparisonTrue(s.counters[c].value, Trig(s, t))
      {
        assert Armed(s, t) && Trig(s, t).sync == Some(c);
        assert Checks(s.awaits[w].conds[t.index].trigger);
      }
    } else {
      OwnerGone(s, c, OfAwait(w));
    }
  }

  /** What WaitState says about an await given up or left to block */
  lemma WaitStateOpen(s: State, r: (State, Status), client: Client, w: Xid, reqs: seq<WaitCondition>, k: nat, clock: Clock,
      c: Xid)
    requires Linked(s) && w !in s.awaits && Free(s, c) && WaitState(s, r, c, w, reqs, clock)
    requires SyncRuns.Setting(s, r.0, client, w, reqs, k)
    ensures Free(r.0, c)
    ensures Fresh(r.0, c) || forall t | t in r.0.counters[c].triggers :: !Owns(OfAwait(w), t)
  {
    hide NarrowAll, Triggers, Joins, Linked, Joined, SyncRuns.ListsBut, SyncRuns.Partway, Fresh;
    FreeStays(s, r.0, c);
    OwnsNone(s, c, w);
  }

  lemma EndFailed(s: State, r: (State, Status), client: Client, w: Xid, reqs: seq<WaitCondition>, k: nat, clock: Clock,
      c: Xid)
    requires Linked(s) && NoneDying(s) && w !in s.awaits && Free(s, c)
    requires SyncRuns.Setting(s, r.0, client, w, reqs, k) && WaitState(s, r, c, w, reqs, clock)
    ensures w in r.0.awaits && Free(FreeAwait(r.0, w), c)
    ensures w in r.0.awaits && (GuardedBut(FreeAwait(r.0, w), c, Nobody) <==> GuardedBut(r.0, c, OfAwait(w)))
  {
    hide *;
    var p := r.0;
    WaitStateOpen(s, r, client, w, reqs, k, clock, c);
    WaitingOpen(s, p, client, w, reqs, k);
    FreeIn(p, c);
    NotDying(p, c, w);
    FreeAwaitKept(p, w, c);
    FreeAwaitEffect(p, w);
    if forall t | t in p.counters[c].triggers :: !Owns(OfAwait(w), t) {
      UnlinkElsewhere(p, w, p.awaits[w].armed, c);
      FreeAwaitCounters(p, w);
    }
    FreedGuardIff(p, FreeAwait(p, w), w, c);
  }

  lemma FreeAwaitCounters(p: State, w: Xid)
    requires w in p.awaits
    ensures FreeAwait(p, w).counters == Unlink(p, w, p.awaits[w].armed).counters
  {
    hide Unlink;
  }

  lemma EndBlocked(s: State, p: State, client: Client, w: Xid, reqs: seq<WaitCondition>, clock: Clock, c: Xid)
    requires Linked(s) && NoneDying(s) && w !in s.awaits && Free(s, c)
    requires SyncRuns.Setting(s, p, client, w, reqs, |reqs|) && WaitState(s, (p, Success), c, w, reqs, clock)
    ensures w in p.awaits && Free(Epilogue(p, client, w), c)
    ensures w in p.awaits && (GuardedBut(Epilogue(p, client, w), c, Nobody) <==> GuardedBut(p, c, OfAwait(w)))
  {
    hide *;
    WaitStateOpen(s, (p, Success), client, w, reqs, |reqs|, clock, c);
    WaitingOpen(s, p, client, w, reqs, |reqs|);
    FreeIn(p, c);
    BlockKept(p, client, c);
    var s1 := Ignore(p, client);
    SameFree(p, s1, c);
    IgnoreGuardIff(p, client, c, OfAwait(w));
    AllChecked(s, p, client, w, reqs);
    EpilogueIs(p, client, w);
    if Fresh(p, c) {
      KeptFresh(p, s1, c);
    }
    if FirstTrue(s1, w, 0) < |s1.awaits[w].conds| {
      NoneDyingSame(p, s1);
      NotDying(s1, c, w);
      FireAwaitKept(s1, w, c);
      FireAwaitEffect(s1, w);
      if forall t | t in p.counters[c].triggers :: !Owns(OfAwait(w), t) {
        FireElsewhere(s1, w, c);
      }
      FreedGuardIff(s1, FireAwait(s1, w), w, c);
    } else {
      StaysGuardIff(s1, c, w);
    }
  }

  lemma SameFree(p: State, s1: State, c: Xid)
    requires Free(p, c) && s1.counters == p.counters
    ensures Free(s1, c) && s1.counters[c] == p.counters[c]
  {
  }

  lemma IgnoreGuardIff(p: State, client: Client, c: Xid, o: Owner)
    requires Linked(p) && Free(p, c)
    ensures GuardedBut(Ignore(p, client), c, o) <==> GuardedBut(p, c, o)
  {
    hide NarrowAll, Triggers, Heard;
    var s1 := Ignore(p, client);
    forall t | t in p.counters[c].triggers
      ensures Has(p, t) && Has(s1, t) && Trig(s1, t) == Trig(p, t) && (Pending(s1, t) <==> Pending(p, t))
    {
      assert Armed(p, t);
    }
  }

  lemma FireElsewhere(s: State, w: Xid, c: Xid)
    requires Linked(s) && w in s.awaits && c in s.counters
    requires forall t | t in s.counters[c].triggers :: !Owns(OfAwait(w), t)
    ensures c in FireAwait(s, w).counters && FireAwait(s, w).counters[c] == s.counters[c]
  {
    hide Unlink, CounterEvents, EventConds;
    var aw := s.awaits[w];
    var conds := EventConds(s, aw.conds[..aw.armed]);
    var events := if aw.client in s.gone then [] else CounterEvents(s, aw.client, conds);
    var s1 := Unignore(s.(log := s.log + events), aw.client);
    LinkedFrame(s, s1);
    UnlinkElsewhere(s1, w, aw.armed, c);
  }

  /**
   * What an Await must find on a guarded counter to leave it so: where a condition has joined, no pending comparison TRUE at
   * the clock's value; where one has failed, all triggers heard at the value it may have asked for.
   */
  ghost predicate Listened(s: State, client: Client, w: Xid, reqs: seq<WaitCondition>, clock: Clock, c: Xid)
    requires c in s.counters
  {
    var p := Setup(Prologue(s, client, w, reqs), w, reqs, |reqs|, clock).0;
    if w in p.awaits && Joins(reqs, p.awaits[w].armed, c) then QuiescentBut(s, c, clock(c), Nobody)
    else HeardBut(s, c, ValueOf(p, c), Nobody)
  }

  /** The counter when the loop has ended, but for the conditions of the await itself */
  lemma SetUpGuardIff(s: State, client: Client, w: Xid, reqs: seq<WaitCondition>, clock: Clock, c: Xid)
    requires Linked(s) && w !in s.awaits && Free(s, c)
    ensures var p := Setup(Prologue(s, client, w, reqs), w, reqs, |reqs|, clock).0;
      Free(p, c) && (GuardedBut(p, c, OfAwait(w)) <==> Listened(s, client, w, reqs, clock, c))
  {
    hide *;
    var r := Setup(Prologue(s, client, w, reqs), w, reqs, |reqs|, clock);
    SetupWaits(s, client, w, reqs, |reqs|, clock, c);
    SyncRuns.SetupSetting(s, client, w, reqs, |reqs|, clock);
    SetUpIs(s, r, client, w, reqs);
    WaitStateOpen(s, r, client, w, reqs, r.0.awaits[w].armed, clock, c);
    OwnsNone(s, c, w);
    WaitGuardIff(s, r, c, w, reqs, clock);
    ListenedIs(s, client, w, reqs, clock, c);
  }

  lemma SetUpIs(s: State, r: (State, Status), client: Client, w: Xid, reqs: seq<WaitCondition>)
    requires SyncRuns.SetUp(s, r, client, w, reqs, |reqs|)
    ensures w in r.0.awaits && SyncRuns.Setting(s, r.0, client, w, reqs, r.0.awaits[w].armed)
  {
  }

  lemma OwnsNone(s: State, c: Xid, w: Xid)
    requires Linked(s) && Free(s, c) && w !in s.awaits
    ensures c in s.counters && forall t | t in s.counters[c].triggers :: !Owns(OfAwait(w), t)
  {
    assert forall u | u in s.counters[c].triggers :: Armed(s, u);
  }

  lemma WaitGuardIff(s: State, r: (State, Status), c: Xid, w: Xid, reqs: seq<WaitCondition>, clock: Clock)
    requires Free(s, c) && Free(r.0, c) && WaitState(s, r, c, w, reqs, clock)
    requires forall t | t in s.counters[c].triggers :: !Owns(OfAwait(w), t)
    ensures GuardedBut(r.0, c, OfAwait(w))
            <==> if Joins(reqs, r.0.awaits[w].armed, c) then QuiescentBut(s, c, clock(c), Nobody)
                 else HeardBut(s, c, ValueOf(r.0, c), Nobody)
  {
    hide NarrowAll, Triggers, Fresh, Joins, HeardBut, QuiescentBut, Joined;
    OwnerGone(s, c, OfAwait(w));
    if Joins(reqs, r.0.awaits[w].armed, c) {
      FreshGuardIff(r.0, c, OfAwait(w));
      JoinedQuiescent(s, r.0, c, clock(c), OfAwait(w));
    } else {
      JoinedHeard(s, r.0, c, r.0.counters[c].value, OfAwait(w));
    }
  }

  lemma ListenedIs(s: State, client: Client, w: Xid, reqs: seq<WaitCondition>, clock: Clock, c: Xid)
    requires c in s.counters
    ensures var p := Setup(Prologue(s, client, w, reqs), w, reqs, |reqs|, clock).0;
      Listened(s, client, w, reqs, clock, c)
      <==> if w in p.awaits && Joins(reqs, p.awaits[w].armed, c) then QuiescentBut(s, c, clock(c), Nobody)
           else HeardBut(s, c, ValueOf(p, c), Nobody)
  {
    hide Setup, Joins, QuiescentBut, HeardBut;
  }

  /** An Await, whether it fails, goes through at once or blocks, keeps a counter guarded exactly if it has listened. */
  lemma AwaitGuardedIff(s: State, client: Client, w: Xid, reqs: seq<WaitCondition>, clock: Clock, c: Xid)
    requires Inv(s) && w !in s.awaits && Free(s, c)
    ensures Free(AwaitRequest(s, client, w, reqs, clock), c)
    ensures GuardedBut(AwaitRequest(s, client, w, reqs, clock), c, Nobody) <==> Listened(s, client, w, reqs, clock, c)
  {
    hide NarrowAll, Triggers, Setup, FreeAwait, Epilogue, AlarmsOk, Blocking, Complete, Linked, NoneDying, GuardedBut,
      WaitState, SyncRuns.Setting, Listened, IsSystem, HeardBut;
    SetupWaits(s, client, w, reqs, |reqs|, clock, c);
    SyncRuns.SetupSetting(s, client, w, reqs, |reqs|, clock);
    SetUpGuardIff(s, client, w, reqs, clock, c);
    var r := Setup(Prologue(s, client, w, reqs), w, reqs, |reqs|, clock);
    if reqs == [] {
      NoConditions(s, client, w, clock, c);
    } else if r.1 != Success {
      EndFailed(s, r, client, w, reqs, r.0.awaits[w].armed, clock, c);
    } else {
      EndBlocked(s, r.0, client, w, reqs, clock, c);
    }
  }

  lemma NoConditions(s: State, client: Client, w: Xid, clock: Clock, c: Xid)
    requires Free(s, c)
    ensures Listened(s, client, w, [], clock, c) <==> GuardedBut(s, c, Nobody)
  {
    hide HeardBut, QuiescentBut;
    assert Setup(Prologue(s, client, w, []), w, [], 0, clock) == (Prologue(s, client, w, []), Success);
  }
}
