/** The destruction of a counter: what every client is told, and what is left of the alarms and awaits on its list. */
module SyncDestroy {
  import opened Options
  import opened SyncTypes
  import opened SyncBrackets
  import opened SyncModel
  import opened SyncRequests
  import opened SyncLinks
  import opened SyncInvariants
  import opened SyncAlarms

  // ----- what is sent -----

  /** The events that the destruction of the counter causes for one node of its list */
  function Told(s: State, t: TriggerId): seq<Event> {
    match t
    case AlarmTrigger(a) =>
      if a !in s.alarms then []
      else [AlarmNotify(a, SyncValue(s, s.alarms[a].trigger.sync), s.alarms[a].trigger.testValue, Inactive,
        Listeners(s.alarms[a]))]
    case AwaitTrigger(w, _) =>
      if w !in s.awaits || s.awaits[w].client in s.gone then []
      else CounterEvents(s, s.awaits[w].client, EventConds(s, s.awaits[w].conds))
  }

  function AllTold(s: State, list: seq<TriggerId>): seq<Event> {
    if list == [] then [] else Told(s, list[0]) + AllTold(s, list[1..])
  }

  /** The list holds a condition of await w. */
  ghost predicate Waits(list: seq<TriggerId>, w: Xid) {
    exists t :: t in list && t.AwaitTrigger? && t.await == w
  }

  function Orphaned(alarm: Alarm): Alarm {
    alarm.(state := Inactive, trigger := alarm.trigger.(sync := None))
  }

  /** s' after every node of `list` has been told: its alarms have lost their counter, its awaits are gone. */
  ghost predicate Settled(s: State, s': State, list: seq<TriggerId>) {
    && s'.gone == s.gone && s'.alarms.Keys == s.alarms.Keys
    && (forall a | a in s.alarms ::
          s'.alarms[a] == if AlarmTrigger(a) in list then Orphaned(s.alarms[a]) else s.alarms[a])
    && (forall w :: w in s'.awaits <==> w in s.awaits && !Waits(list, w))
    && (forall w | w in s'.awaits :: s'.awaits[w] == s.awaits[w])
  }

  /** The values and the dying counters are the same. */
  ghost predicate SameReadings(s: State, s': State) {
    && s'.counters.Keys == s.counters.Keys
    && forall c | c in s.counters ::
         s'.counters[c].value == s.counters[c].value && s'.counters[c].beingDestroyed == s.counters[c].beingDestroyed
  }

  lemma {:induction false} SameEventConds(s: State, s': State, conds: seq<Condition>)
    requires SameReadings(s, s')
    ensures EventConds(s', conds) == EventConds(s, conds)
  {
    if conds != [] {
      SameEventConds(s, s', conds[..|conds| - 1]);
    }
  }

  lemma SameCounterEvents(s: State, s': State, client: Client, conds: seq<Condition>)
    requires SameReadings(s, s')
    ensures CounterEvents(s', client, conds) == CounterEvents(s, client, conds)
  {
  }

  lemma SameTold(s: State, s': State, t: TriggerId)
    requires SameReadings(s, s') && s'.gone == s.gone
    requires t.AlarmTrigger? ==> t.alarm in s.alarms && t.alarm in s'.alarms && s'.alarms[t.alarm] == s.alarms[t.alarm]
    requires t.AwaitTrigger? ==> t.await in s.awaits && t.await in s'.awaits && s'.awaits[t.await] == s.awaits[t.await]
    ensures Told(s', t) == Told(s, t)
  {
    hide CounterEvents, EventConds;
    if t.AwaitTrigger? {
      var aw := s.awaits[t.await];
      SameEventConds(s, s', aw.conds);
      SameCounterEvents(s, s', aw.client, EventConds(s, aw.conds));
    }
  }

  lemma {:induction false} SameAllTold(s: State, s': State, list: seq<TriggerId>)
    requires SameReadings(s, s') && s'.gone == s.gone
    requires forall t | t in list && t.AlarmTrigger? ::
               t.alarm in s.alarms && t.alarm in s'.alarms && s'.alarms[t.alarm] == s.alarms[t.alarm]
    requires forall t | t in list && t.AwaitTrigger? ::
               t.await in s.awaits && t.await in s'.awaits && s'.awaits[t.await] == s.awaits[t.await]
    ensures AllTold(s', list) == AllTold(s, list)
  {
    hide Told;
    if list != [] {
      SameTold(s, s', list[0]);
      SameAllTold(s, s', list[1..]);
    }
  }

  // ----- one node -----

  lemma TellAlarm(s: State, c: Xid, list: seq<TriggerId>)
    requires Dying(s, c, list) && list != [] && list[0].AlarmTrigger?
    ensures c in NotifyDestroyed(s, list[0]).counters
    ensures var s1 := SetList(NotifyDestroyed(s, list[0]), c, list[1..]);
      && s1.log == s.log + Told(s, list[0]) && SameReadings(s, s1) && Settled(s, s1, [list[0]])
  {
    hide Linked, Complete, Blocking, AlarmsOk;
    var t := list[0];
    assert t in s.counters[c].triggers;
    assert Armed(s, t) by { OnListArmed(s, c, t); }
  }

  lemma OnListArmed(s: State, c: Xid, t: TriggerId)
    requires Linked(s) && c in s.counters && t in s.counters[c].triggers
    ensures Armed(s, t) && Trig(s, t).sync == Some(c)
  {
  }

  lemma TellAwait(s: State, c: Xid, list: seq<TriggerId>)
    requires Dying(s, c, list) && list != [] && list[0].AwaitTrigger?
    ensures c in NotifyDestroyed(s, list[0]).counters
    ensures var s1 := SetList(NotifyDestroyed(s, list[0]), c, list[1..]);
      && s1.log == s.log + Told(s, list[0]) && SameReadings(s, s1) && Settled(s, s1, [list[0]])
  {
    hide *;
    var t, w := list[0], list[0].await;
    DyingHead(s, c, list);
    FireAwaitEffect(s, w);
    TellLog(s, w);
    AwaitIsTold(s, t);
    SettledOne(s, FireAwait(s, w), c, list[1..], t);
  }

  lemma DyingHead(s: State, c: Xid, list: seq<TriggerId>)
    requires Dying(s, c, list) && list != [] && list[0].AwaitTrigger?
    ensures Linked(s) && c in s.counters && list[0].await in s.awaits
    ensures var aw := s.awaits[list[0].await]; aw.armed == |aw.conds|
  {
    hide Linked;
    assert list[0] in s.counters[c].triggers;
    OnListArmed(s, c, list[0]);
    assert AwaitComplete(s.awaits[list[0].await]);
  }

  lemma AwaitIsTold(s: State, t: TriggerId)
    requires t.AwaitTrigger? && t.await in s.awaits && s.awaits[t.await].armed == |s.awaits[t.await].conds|
    ensures NotifyDestroyed(s, t) == FireAwait(s, t.await)
    ensures var aw := s.awaits[t.await];
      Told(s, t)
      == if aw.client in s.gone then [] else CounterEvents(s, aw.client, EventConds(s, aw.conds[..aw.armed]))
  {
    hide FireAwait, CounterEvents, EventConds;
    var aw := s.awaits[t.await];
    assert aw.conds[..aw.armed] == aw.conds;
  }

  lemma SettledOne(s: State, s1: State, c: Xid, list: seq<TriggerId>, t: TriggerId)
    requires t.AwaitTrigger? && t.await in s.awaits && AwaitGone(s, s1, t.await) && c in s.counters
    ensures c in s1.counters && SetList(s1, c, list).log == s1.log
    ensures SameReadings(s, SetList(s1, c, list)) && Settled(s, SetList(s1, c, list), [t])
  {
    hide Prune;
    assert t in [t];
    assert forall x :: Waits([t], x) <==> x == t.await;
    forall d | d in s.counters
      ensures Relisted(s.counters[d], s1.counters[d], s1.counters[d].triggers)
    {
    }
  }

  lemma TellLog(s: State, w: Xid)
    requires Linked(s) && w in s.awaits
    ensures var aw := s.awaits[w];
      FireAwait(s, w).log
      == s.log + if aw.client in s.gone then [] else CounterEvents(s, aw.client, EventConds(s, aw.conds[..aw.armed]))
  {
    hide CounterEvents, EventConds, Unlink, Prune;
    var aw := s.awaits[w];
    var events := if aw.client in s.gone then [] else CounterEvents(s, aw.client, EventConds(s, aw.conds[..aw.armed]));
    var s1 := Unignore(s.(log := s.log + events), aw.client);
    LinkedFrame(s, s1);
    UnlinkEffect(s1, w, aw.armed);
  }

  lemma Tell(s: State, c: Xid, list: seq<TriggerId>)
    requires Dying(s, c, list) && list != []
    ensures c in NotifyDestroyed(s, list[0]).counters
    ensures var s1 := SetList(NotifyDestroyed(s, list[0]), c, list[1..]);
      && Dying(s1, c, list[1..]) && s1.log == s.log + Told(s, list[0]) && SameReadings(s, s1) && Settled(s, s1, [list[0]])
  {
    hide Dying, NotifyDestroyed, Told, SameReadings, Settled;
    if list[0].AlarmTrigger? {
      DestroyAlarmStep(s, c, list);
      TellAlarm(s, c, list);
    } else {
      DestroyAwaitStep(s, c, list);
      TellAwait(s, c, list);
    }
  }

  // ----- the walk -----

  lemma SettledTwice(s1: State, s2: State, s3: State, t: TriggerId, rest: seq<TriggerId>)
    requires Settled(s1, s2, [t]) && Settled(s2, s3, rest) && t !in rest
    ensures Settled(s1, s3, [t] + rest)
  {
    var list := [t] + rest;
    assert forall u :: u in list <==> u == t || u in rest;
    assert forall w :: Waits(list, w) <==> Waits([t], w) || Waits(rest, w) by {
      assert t in [t];
      assert forall u :: u in [t] <==> u == t;
    }
  }

  /** The rest of the list is told the same before and after the first node has been dealt with. */
  lemma RestSame(s: State, s1: State, c: Xid, list: seq<TriggerId>)
    requires Dying(s, c, list) && list != [] && SameReadings(s, s1) && Settled(s, s1, [list[0]])
    ensures AllTold(s1, list[1..]) == AllTold(s, list[1..])
  {
    hide AllTold, Blocking, AlarmsOk;
    var t, rest := list[0], list[1..];
    assert t in list && NoDup(s.counters[c].triggers) && t !in rest;
    forall u | u in rest
      ensures u.AlarmTrigger? ==> u.alarm in s.alarms && u.alarm in s1.alarms && s1.alarms[u.alarm] == s.alarms[u.alarm]
      ensures u.AwaitTrigger? ==> u.await in s.awaits && u.await in s1.awaits && s1.awaits[u.await] == s.awaits[u.await]
    {
      assert u in list;
      OnListArmed(s, c, u);
      if u.AwaitTrigger? {
        OnlyOneOnList(s, c, u);
        assert !Waits([t], u.await);
      }
    }
    SameAllTold(s, s1, rest);
  }

  lemma {:induction false} WalkTells(s: State, c: Xid, list: seq<TriggerId>)
    requires Dying(s, c, list)
    ensures DestroyWalk(s, c, list).log == s.log + AllTold(s, list)
    ensures Settled(s, DestroyWalk(s, c, list), list)
    decreases |list|
  {
    hide NotifyDestroyed, Told, Settled, SameReadings, Linked, Complete, Blocking, AlarmsOk;
    if list == [] {
      NothingSettled(s);
    } else {
      Tell(s, c, list);
      var s1 := SetList(NotifyDestroyed(s, list[0]), c, list[1..]);
      WalkTells(s1, c, list[1..]);
      RestSame(s, s1, c, list);
      assert list == [list[0]] + list[1..];
      assert list[0] !in list[1..] by { HeadOnce(s, c, list); }
      SettledTwice(s, s1, DestroyWalk(s1, c, list[1..]), list[0], list[1..]);
    }
  }

  lemma NothingSettled(s: State)
    ensures Settled(s, s, [])
  {
  }

  lemma HeadOnce(s: State, c: Xid, list: seq<TriggerId>)
    requires Dying(s, c, list) && list != []
    ensures list[0] !in list[1..]
  {
    assert NoDup(s.counters[c].triggers);
  }

  // ----- the whole destruction -----

  function Condemned(s: State, c: Xid): State
    requires c in s.counters
  {
    s.(counters := s.counters[c := s.counters[c].(beingDestroyed := true)])
  }

  /** Every node of the list is told, in list order and each once, and nothing else is sent. */
  lemma FreeCounterTells(s: State, c: Xid)
    requires Inv(s) && c in s.counters
    ensures var s', list := FreeCounter(s, c), s.counters[c].triggers;
      && s'.log == s.log + AllTold(Condemned(s, c), list) && Settled(s, s', list)
      && s'.counters.Keys == s.counters.Keys - {c}
  {
    hide DestroyWalk, Dying, AllTold, Linked, Complete, Blocking, AlarmsOk;
    var d, list := Condemned(s, c), s.counters[c].triggers;
    SameLinksButDying(s, d, c);
    WalkTells(d, c, list);
    DestroyWalkInv(d, c, list);
    WalkKeys(d, c, list);
  }

  lemma {:induction false} WalkKeys(s: State, c: Xid, list: seq<TriggerId>)
    requires Dying(s, c, list)
    ensures DestroyWalk(s, c, list).counters.Keys == s.counters.Keys
    decreases |list|
  {
    hide NotifyDestroyed, Dying, Told, Settled;
    if list != [] {
      Tell(s, c, list);
      WalkKeys(SetList(NotifyDestroyed(s, list[0]), c, list[1..]), c, list[1..]);
    }
  }

  /** The event, if it is an AlarmNotify of alarm a */
  function Notice(e: Event, a: Xid): seq<Event> {
    if e.AlarmNotify? && e.alarm == a then [e] else []
  }

  /** The AlarmNotify events of alarm a */
  function Notices(events: seq<Event>, a: Xid): seq<Event> {
    if events == [] then [] else Notice(events[0], a) + Notices(events[1..], a)
  }

  /** The event, if it is a CounterNotify for the client */
  function Reply(e: Event, client: Client): seq<Event> {
    if e.CounterNotify? && e.client == client then [e] else []
  }

  /** The CounterNotify events that a client gets */
  function Replies(events: seq<Event>, client: Client): seq<Event> {
    if events == [] then [] else Reply(events[0], client) + Replies(events[1..], client)
  }

  lemma Regroup(x: seq<Event>, y: seq<Event>, z: seq<Event>)
    ensures x + (y + z) == (x + y) + z
  {
  }

  lemma {:induction false} NoticesOf(x: seq<Event>, y: seq<Event>, a: Xid)
    ensures Notices(x + y, a) == Notices(x, a) + Notices(y, a)
  {
    hide Notice;
    if x == [] {
      assert x + y == y;
    } else {
      NoticesOf(x[1..], y, a);
      assert (x + y)[0] == x[0] && (x + y)[1..] == x[1..] + y;
      Regroup(Notice(x[0], a), Notices(x[1..], a), Notices(y, a));
    }
  }

  lemma {:induction false} RepliesOf(x: seq<Event>, y: seq<Event>, client: Client)
    ensures Replies(x + y, client) == Replies(x, client) + Replies(y, client)
  {
    hide Reply;
    if x == [] {
      assert x + y == y;
    } else {
      RepliesOf(x[1..], y, client);
      assert (x + y)[0] == x[0] && (x + y)[1..] == x[1..] + y;
      Regroup(Reply(x[0], client), Replies(x[1..], client), Replies(y, client));
    }
  }

  lemma {:induction false} NoNotices(events: seq<Event>, a: Xid)
    requires forall e | e in events :: !(e.AlarmNotify? && e.alarm == a)
    ensures Notices(events, a) == []
  {
    if events != [] {
      NoNotices(events[1..], a);
    }
  }

  lemma {:induction false} NoReplies(events: seq<Event>, client: Client)
    requires forall e | e in events :: !(e.CounterNotify? && e.client == client)
    ensures Replies(events, client) == []
  {
    if events != [] {
      NoReplies(events[1..], client);
    }
  }

  lemma {:induction false} OnlyReplies(events: seq<Event>, client: Client)
    requires forall e | e in events :: e.CounterNotify? && e.client == client
    ensures Replies(events, client) == events
  {
    if events != [] {
      OnlyReplies(events[1..], client);
      assert events == [events[0]] + events[1..];
    }
  }

  lemma {:induction false} AlarmTold(s: State, list: seq<TriggerId>, a: Xid)
    requires NoDup(list) && a in s.alarms
    ensures Notices(AllTold(s, list), a) == if AlarmTrigger(a) in list then Told(s, AlarmTrigger(a)) else []
  {
    hide CounterEvents, EventConds;
    if list != [] {
      AlarmTold(s, list[1..], a);
      NoticesOf(Told(s, list[0]), AllTold(s, list[1..]), a);
      assert list[0] !in list[1..];
      if list[0] != AlarmTrigger(a) {
        ToldOthers(s, list[0], a);
        NoNotices(Told(s, list[0]), a);
      }
    }
  }

  lemma ToldOthers(s: State, t: TriggerId, a: Xid)
    requires t != AlarmTrigger(a)
    ensures forall e | e in Told(s, t) :: !(e.AlarmNotify? && e.alarm == a)
  {
    hide EventConds;
  }

  /** No two nodes of the list are conditions of one await, or of awaits of one client. */
  ghost predicate OneEach(s: State, list: seq<TriggerId>) {
    && NoDup(list)
    && (forall t | t in list && t.AwaitTrigger? :: t.await in s.awaits)
    && forall t, u | t in list && u in list && t.AwaitTrigger? && u.AwaitTrigger? && t != u ::
         s.awaits[t.await].client != s.awaits[u.await].client
  }

  lemma {:induction false} ClientTold(s: State, list: seq<TriggerId>, client: Client)
    requires OneEach(s, list)
    ensures forall t | t in list && t.AwaitTrigger? && s.awaits[t.await].client == client ::
              Replies(AllTold(s, list), client) == Told(s, t)
    ensures (forall t | t in list && t.AwaitTrigger? :: s.awaits[t.await].client != client) ==>
              Replies(AllTold(s, list), client) == []
  {
    hide Told;
    if list != [] {
      assert forall t | t in list[1..] :: t in list;
      assert list[0] !in list[1..];
      ClientTold(s, list[1..], client);
      RepliesOf(Told(s, list[0]), AllTold(s, list[1..]), client);
      ToldClient(s, list[0], client);
      if list[0].AwaitTrigger? && s.awaits[list[0].await].client == client {
        OnlyReplies(Told(s, list[0]), client);
      } else {
        NoReplies(Told(s, list[0]), client);
      }
    }
  }

  lemma ToldClient(s: State, t: TriggerId, client: Client)
    requires t.AwaitTrigger? ==> t.await in s.awaits
    ensures forall e | e in Told(s, t) ::
              e.CounterNotify? && e.client == client <==> t.AwaitTrigger? && s.awaits[t.await].client == client
  {
    hide EventConds;
  }

  // ----- what it means to an alarm and to a client -----

  lemma NewLog(s: State, c: Xid)
    requires Inv(s) && c in s.counters
    ensures var s' := FreeCounter(s, c);
      s.log <= s'.log && s'.log[|s.log|..] == AllTold(Condemned(s, c), s.counters[c].triggers)
  {
    hide FreeCounter, AllTold, Settled, Inv, Condemned;
    FreeCounterTells(s, c);
  }

  /**
   * Each alarm on the destroyed counter becomes Inactive, loses its counter and sends exactly one AlarmNotify, which
   * gives the counter's last value; no other alarm changes or sends anything.
   */
  lemma AlarmsOfDestroyed(s: State, c: Xid, a: Xid)
    requires Inv(s) && c in s.counters && a in s.alarms
    ensures var s' := FreeCounter(s, c);
      var alarm := s.alarms[a];
      && s.log <= s'.log && a in s'.alarms
      && if alarm.trigger.sync == Some(c) then
           s'.alarms[a] == alarm.(state := Inactive, trigger := alarm.trigger.(sync := None))
           && Notices(s'.log[|s.log|..], a)
              == [AlarmNotify(a, s.counters[c].value, alarm.trigger.testValue, Inactive, Listeners(alarm))]
         else s'.alarms[a] == alarm && Notices(s'.log[|s.log|..], a) == []
  {
    hide FreeCounter, AllTold, Inv;
    var list := s.counters[c].triggers;
    FreeCounterTells(s, c);
    NewLog(s, c);
    OnItsList(s, c, a);
    AlarmTold(Condemned(s, c), list, a);
  }

  lemma OnItsList(s: State, c: Xid, a: Xid)
    requires Inv(s) && c in s.counters && a in s.alarms
    ensures NoDup(s.counters[c].triggers)
    ensures AlarmTrigger(a) in s.counters[c].triggers <==> s.alarms[a].trigger.sync == Some(c)
  {
    assert Armed(s, AlarmTrigger(a));
  }

  /** Await w waits on counter c. */
  ghost predicate WaitsOn(aw: Await, c: Xid) {
    exists k :: 0 <= k < |aw.conds| && aw.conds[k].trigger.sync == Some(c)
  }

  lemma WaitsIff(s: State, c: Xid, w: Xid)
    requires Inv(s) && c in s.counters && w in s.awaits
    ensures Waits(s.counters[c].triggers, w) <==> WaitsOn(s.awaits[w], c)
  {
    assert AwaitComplete(s.awaits[w]);
    if Waits(s.counters[c].triggers, w) {
      var t :| t in s.counters[c].triggers && t.AwaitTrigger? && t.await == w;
      assert Armed(s, t) && Trig(s, t) == s.awaits[w].conds[t.index].trigger;
    }
    if WaitsOn(s.awaits[w], c) {
      var k :| 0 <= k < |s.awaits[w].conds| && s.awaits[w].conds[k].trigger.sync == Some(c);
      assert Armed(s, AwaitTrigger(w, k));
      assert AwaitTrigger(w, k) in s.counters[c].triggers;
    }
  }

  lemma ListOneEach(s: State, c: Xid)
    requires Inv(s) && c in s.counters
    ensures OneEach(s, s.counters[c].triggers)
  {
    var list := s.counters[c].triggers;
    forall t | t in list && t.AwaitTrigger?
      ensures t.await in s.awaits
    {
      assert Armed(s, t);
    }
    forall t, u | t in list && u in list && t.AwaitTrigger? && u.AwaitTrigger? && t != u
      ensures s.awaits[t.await].client != s.awaits[u.await].client
    {
      OnlyOneOnList(s, c, t);
    }
  }

  /** One of the events marks counter c as destroyed, and the others mark none. */
  ghost predicate OneDestroyed(events: seq<Event>, c: Xid) {
    exists i :: 0 <= i < |events| && DestroyedAt(events, i, c)
  }

  ghost predicate DestroyedAt(events: seq<Event>, i: nat, c: Xid)
    requires i < |events|
  {
    && events[i].CounterNotify? && events[i].counter == c && events[i].destroyed
    && forall j | 0 <= j < |events| && j != i :: events[j].CounterNotify? && !events[j].destroyed
  }

  lemma DestroyedOnce(s: State, aw: Await, events: seq<Event>, c: Xid)
    requires AwaitComplete(aw) && WaitsOn(aw, c) && EventsOf(s, aw, events)
    requires c in s.counters && s.counters[c].beingDestroyed
    requires forall d | d in s.counters && d != c :: !s.counters[d].beingDestroyed
    ensures OneDestroyed(events, c)
  {
    var wanted := EventIndices(s, aw.conds);
    EventIndicesAre(s, aw.conds);
    var k :| 0 <= k < |aw.conds| && aw.conds[k].trigger.sync == Some(c);
    assert WantsEvent(s, aw.conds[k]);
    var i :| 0 <= i < |wanted| && wanted[i] == k;
    assert EventOf(s, aw, events[i], k, |wanted| - 1 - i);
    forall j | 0 <= j < |events| && j != i
      ensures events[j].CounterNotify? && !events[j].destroyed
    {
      assert EventOf(s, aw, events[j], wanted[j], |wanted| - 1 - j);
      assert wanted[j] != k;
    }
    assert DestroyedAt(events, i, c);
  }

  /**
   * A client that waits on the destroyed counter is unblocked and gets the events of its await, one of them for this
   * counter and marked destroyed, counting down to 0; a client that waits on others only gets nothing and stays blocked.
   */
  lemma ClientsOfDestroyed(s: State, c: Xid, w: Xid)
    requires Inv(s) && c in s.counters && w in s.awaits && s.awaits[w].client !in s.gone
    ensures var s' := FreeCounter(s, c);
      var aw := s.awaits[w];
      && s.log <= s'.log
      && var replies := Replies(s'.log[|s.log|..], aw.client);
      if WaitsOn(aw, c) then
        && w !in s'.awaits && aw.client !in s'.ignore
        && EventsOf(Condemned(s, c), aw, replies) && OneDestroyed(replies, c)
      else w in s'.awaits && s'.awaits[w] == aw && aw.client in s'.ignore && replies == []
  {
    hide *;
    var d, list, aw := Condemned(s, c), s.counters[c].triggers, s.awaits[w];
    FreeCounterTells(s, c);
    NewLog(s, c);
    FreeCounterInv(s, c);
    WaitsIff(s, c, w);
    ListOneEach(s, c);
    CondemnedSame(s, c, w);
    ClientTold(d, list, aw.client);
    EventsAreWanted(d, aw);
    if WaitsOn(aw, c) {
      DestroyedOnce(d, aw, CounterEvents(d, aw.client, EventConds(d, aw.conds)), c);
    }
    ClientLeft(s, FreeCounter(s, c), list, w);
    ClientNode(s, d, list, w);
  }

  lemma CondemnedSame(s: State, c: Xid, w: Xid)
    requires Inv(s) && c in s.counters && w in s.awaits
    ensures var d := Condemned(s, c);
      && d.awaits == s.awaits && d.gone == s.gone && c in d.counters && d.counters[c].beingDestroyed
      && (forall x | x in d.counters && x != c :: !d.counters[x].beingDestroyed)
      && (OneEach(s, s.counters[c].triggers) ==> OneEach(d, s.counters[c].triggers))
    ensures AwaitComplete(s.awaits[w]) && Blocking(s)
  {
  }

  /** The client is ignored afterwards exactly if its await is still there. */
  lemma ClientLeft(s: State, s': State, list: seq<TriggerId>, w: Xid)
    requires Inv(s) && Inv(s') && Settled(s, s', list) && w in s.awaits && s.awaits[w].client !in s.gone
    ensures w in s'.awaits <==> !Waits(list, w)
    ensures w in s'.awaits ==> s'.awaits[w] == s.awaits[w]
    ensures s.awaits[w].client in s'.ignore <==> w in s'.awaits
  {
    var client := s.awaits[w].client;
    if client in s'.ignore {
      var x :| x in s'.awaits && s'.awaits[x].client == client;
      assert x in s.awaits && s.awaits[x].client == client;
    }
  }

  lemma ClientNode(s: State, d: State, list: seq<TriggerId>, w: Xid)
    requires d.awaits == s.awaits && d.gone == s.gone && w in s.awaits && s.awaits[w].client !in s.gone && OneEach(s, list)
    requires Blocking(s)
    ensures Waits(list, w) ==> exists t :: t in list && t.AwaitTrigger? && s.awaits[t.await].client == s.awaits[w].client
                                           && Told(d, t) == CounterEvents(d, s.awaits[w].client, EventConds(d,
                                             s.awaits[w].conds))
    ensures !Waits(list, w) ==>
              forall t | t in list && t.AwaitTrigger? :: s.awaits[t.await].client != s.awaits[w].client
  {
    hide CounterEvents, EventConds;
    if Waits(list, w) {
      var t :| t in list && t.AwaitTrigger? && t.await == w;
      assert s.awaits[t.await].client == s.awaits[w].client;
    }
  }

  /** What stays on the lists of the other counters: all but the conditions of the awaits that are gone. */
  lemma ListsAfterDestroyed(s: State, c: Xid, d: Xid, t: TriggerId)
    requires Inv(s) && c in s.counters && d in s.counters && d != c
    ensures var s' := FreeCounter(s, c);
      d in s'.counters &&
      (t in s'.counters[d].triggers
       <==> t in s.counters[d].triggers && !(t.AwaitTrigger? && t.await in s.awaits && WaitsOn(s.awaits[t.await], c)))
  {
    hide FreeCounter, AllTold, Complete, Blocking, AlarmsOk, Waits, WaitsOn;
    var s', list := FreeCounter(s, c), s.counters[c].triggers;
    FreeCounterTells(s, c);
    FreeCounterInv(s, c);
    if t in s.counters[d].triggers {
      assert Armed(s, t) && Trig(s, t).sync == Some(d);
      if t.AwaitTrigger? {
        WaitsIff(s, c, t.await);
      } else {
        OnItsList(s, c, t.alarm);
      }
      assert Armed(s', t) ==> Trig(s', t).sync == Some(d);
    }
    if t in s'.counters[d].triggers {
      assert Armed(s', t) && Trig(s', t).sync == Some(d);
      if t.AlarmTrigger? {
        OnItsList(s, c, t.alarm);
      }
      assert Armed(s, t) && Trig(s, t).sync == Some(d);
    }
  }
}
