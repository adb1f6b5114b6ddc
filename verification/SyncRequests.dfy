/** The requests of the SYNC extension that concern counters, alarms and awaits, and runs of them. */
module SyncRequests {
  import opened Options
  import opened Wire
  import opened SyncTypes
  import opened SyncBrackets
  import opened SyncModel

  // ----- alarms -----

  /** The attributes a request names, decoded; `unknown` says that a bit beyond XSyncCAEvents is set. */
  datatype Attributes = Attributes(
    counter: Option<Xid>,
    valueType: Option<ValueType>,
    value: Option<Int64>,
    testType: Option<TestType>,
    delta: Option<Int64>,
    events: Option<nat>,
    unknown: bool)
  {
    function Mask(): Changes {
      Changes(counter.Some?, valueType.Some?, value.Some?, testType.Some?)
    }
  }

  function Get<T>(o: Option<T>, default: T): T {
    if o.Some? then o.value else default
  }

  /** The trigger and delta a request asks for, given those the alarm has. */
  function Wanted(trig: Trigger, attrs: Attributes): Trigger {
    trig.(valueType := Get(attrs.valueType, trig.valueType),
          waitValue := Get(attrs.value, trig.waitValue),
          testType := Get(attrs.testType, trig.testType))
  }

  /** A delta that pulls the test value away from the side on which the test is TRUE. */
  predicate WrongSign(test: TestType, delta: Int64) {
    (test.Positive() && delta < 0) || (test.Negative() && delta > 0)
  }

  function Remove(clients: seq<Client>, c: Client): seq<Client> {
    if clients == [] then [] else if clients[0] == c then clients[1..] else [clients[0]] + Remove(clients[1..], c)
  }

  /** SyncEventSelectForAlarm */
  function SelectEvents(alarm: Alarm, client: Client, wants: bool): Alarm {
    if client == alarm.client then alarm.(events := wants)
    else if client in alarm.eventClients then
      if wants then alarm else alarm.(eventClients := Remove(alarm.eventClients, client))
    else if wants then alarm.(eventClients := [client] + alarm.eventClients)
    else alarm
  }

  /** Whether SyncChangeAlarmAttributes fails before it commits anything to the trigger, and how. */
  function EarlyStatus(alarm: Alarm, attrs: Attributes): Status {
    if attrs.unknown || (attrs.events.Some? && attrs.events.value > 1) then BadValue
    else if (attrs.delta.Some? || attrs.testType.Some?)
            && WrongSign(Wanted(alarm.trigger, attrs).testType, Get(attrs.delta, alarm.delta)) then BadMatch
    else Success
  }

  function ChangeStatus(s: State, a: Xid, attrs: Attributes, clock: Clock): Status
    requires a in s.alarms
  {
    var alarm := s.alarms[a];
    if EarlyStatus(alarm, attrs) != Success then EarlyStatus(alarm, attrs)
    else InitStatus(s, Wanted(alarm.trigger, attrs), Get(attrs.counter, NONE), attrs.Mask(), clock)
  }

  /** The alarm with its event selection changed. */
  function Selected(s: State, client: Client, a: Xid, attrs: Attributes): State
    requires a in s.alarms
  {
    if attrs.unknown || attrs.events.None? || attrs.events.value > 1 then s
    else SetAlarm(s, a, SelectEvents(s.alarms[a], client, attrs.events.value == 1))
  }

  /** The alarm with its new delta and trigger fields, before SyncInitTrigger looks at them. */
  function Committed(s: State, client: Client, a: Xid, attrs: Attributes): State
    requires a in s.alarms
    ensures a in Committed(s, client, a, attrs).alarms
  {
    var s1 := Selected(s, client, a, attrs);
    var alarm := s1.alarms[a];
    SetAlarm(s1, a, alarm.(delta := Get(attrs.delta, alarm.delta), trigger := Wanted(alarm.trigger, attrs)))
  }

  /** SyncChangeAlarmAttributes */
  function ChangeAttributes(s: State, client: Client, a: Xid, attrs: Attributes, clock: Clock): State
    requires a in s.alarms
  {
    if EarlyStatus(s.alarms[a], attrs) != Success then Selected(s, client, a, attrs)
    else
      var s1 := Committed(s, client, a, attrs);
      if ChangeStatus(s, a, attrs, clock) != Success
      then InitFailure(s1, AlarmTrigger(a), Get(attrs.counter, NONE), attrs.Mask(), clock)
      else
        var s2 := InitSuccess(s1, AlarmTrigger(a), Get(attrs.counter, NONE), attrs.Mask(), clock);
        if a in s2.alarms then SetAlarm(s2, a, s2.alarms[a].(state := Active)) else s2
  }

  const DEFAULT_TRIGGER := Trigger(None, 0, Absolute, PositiveComparison, 0, PositiveComparison)

  function NewAlarm(client: Client): Alarm {
    Alarm(DEFAULT_TRIGGER, client, 1, true, Inactive, [])
  }

  function SyncValue(s: State, sync: Option<Xid>): Int64 {
    if sync.Some? then ValueOf(s, sync.value) else 0
  }

  /** The end of CreateAlarm and ChangeAlarm: the alarm goes off at once if its trigger is TRUE. */
  function FireIfTrue(s: State, a: Xid): State {
    if a in s.alarms && Check(s, s.alarms[a].trigger, SyncValue(s, s.alarms[a].trigger.sync)) then FireAlarm(s, a) else s
  }

  /** ProcSyncCreateAlarm */
  function CreateAlarm(s: State, client: Client, a: Xid, attrs: Attributes, clock: Clock): State {
    if a in s.alarms || a in s.counters then s
    else
      var s1 := SetAlarm(s, a, NewAlarm(client));
      var s2 := ChangeAttributes(s1, client, a, attrs, clock);
      if ChangeStatus(s1, a, attrs, clock) != Success || a !in s2.alarms then s2.(alarms := s2.alarms - {a})
      else if s2.alarms[a].trigger.sync.None? then SetAlarm(s2, a, s2.alarms[a].(state := Inactive))
      else FireIfTrue(s2, a)
  }

  /** ProcSyncChangeAlarm */
  function ChangeAlarm(s: State, client: Client, a: Xid, attrs: Attributes, clock: Clock): State {
    if a !in s.alarms then s
    else
      var s1 := ChangeAttributes(s, client, a, attrs, clock);
      if ChangeStatus(s, a, attrs, clock) != Success then s1 else FireIfTrue(s1, a)
  }

  // ----- awaits -----

  datatype WaitCondition = WaitCondition(
    counter: Xid,
    valueType: ValueType,
    waitValue: Int64,
    testType: TestType,
    threshold: Int64)

  function Blank(req: WaitCondition): Condition {
    Condition(Trigger(None, req.waitValue, req.valueType, req.testType, 0, PositiveComparison), req.threshold)
  }

  function Blanks(reqs: seq<WaitCondition>): (r: seq<Condition>)
    ensures |r| == |reqs|
  {
    seq(|reqs|, i requires 0 <= i < |reqs| => Blank(reqs[i]))
  }

  /** SyncAwaitPrologue */
  function Prologue(s: State, client: Client, w: Xid, reqs: seq<WaitCondition>): State {
    s.(awaits := s.awaits[w := Await(client, Blanks(reqs), 0)])
  }

  function Arm(s: State, w: Xid, n: nat): State {
    if w in s.awaits then s.(awaits := s.awaits[w := s.awaits[w].(armed := n)]) else s
  }

  function CondStatus(s: State, w: Xid, i: nat, req: WaitCondition, clock: Clock): Status {
    if req.counter == NONE || !Has(s, AwaitTrigger(w, i)) then BadCounter
    else InitStatus(s, Trig(s, AwaitTrigger(w, i)), req.counter, ALL_TRIGGER, clock)
  }

  /** The first n rounds of the loop of ProcSyncAwait; it stops at the first condition that fails. */
  function Setup(s: State, w: Xid, reqs: seq<WaitCondition>, n: nat, clock: Clock): (State, Status)
    requires n <= |reqs|
  {
    if n == 0 then (s, Success) else SetupNext(Setup(s, w, reqs, n - 1, clock), w, n - 1, reqs[n - 1], clock)
  }

  function SetupNext(r: (State, Status), w: Xid, i: nat, req: WaitCondition, clock: Clock): (State, Status) {
    if r.1 == Success then SetupOne(r.0, w, i, req, clock) else r
  }

  function SetupOne(p: State, w: Xid, i: nat, req: WaitCondition, clock: Clock): (State, Status) {
    var t := AwaitTrigger(w, i);
    var status := CondStatus(p, w, i, req, clock);
    if req.counter == NONE || !Has(p, t) then (p, BadCounter)
    else if status != Success then (InitFailure(p, t, req.counter, ALL_TRIGGER, clock), status)
    else (Arm(InitSuccess(p, t, req.counter, ALL_TRIGGER, clock), w, i + 1), Success)
  }

  /** The first condition from i on that is TRUE already, or the number of conditions. */
  function FirstTrue(s: State, w: Xid, i: nat): (r: nat)
    requires w in s.awaits && i <= |s.awaits[w].conds|
    ensures i <= r <= |s.awaits[w].conds|
    ensures r < |s.awaits[w].conds| ==>
      var trig := s.awaits[w].conds[r].trigger; Check(s, trig, SyncValue(s, trig.sync))
    ensures forall j :: i <= j < r ==>
      var trig := s.awaits[w].conds[j].trigger; !Check(s, trig, SyncValue(s, trig.sync))
    decreases |s.awaits[w].conds| - i
  {
    var conds := s.awaits[w].conds;
    if i == |conds| || Check(s, conds[i].trigger, SyncValue(s, conds[i].trigger.sync)) then i else FirstTrue(s, w, i + 1)
  }

  /** SyncAwaitEpilogue */
  function Epilogue(s: State, client: Client, w: Xid): State
    requires w in s.awaits
  {
    var s1 := Ignore(s, client);
    var i := FirstTrue(s1, w, 0);
    if i < |s1.awaits[w].conds| then Fire(s1, AwaitTrigger(w, i)) else s1
  }

  function AwaitStatus(s: State, client: Client, w: Xid, reqs: seq<WaitCondition>, clock: Clock): Status {
    if reqs == [] then BadValue else Setup(Prologue(s, client, w, reqs), w, reqs, |reqs|, clock).1
  }

  /** ProcSyncAwait; `w` is the fresh id FakeClientID supplies. */
  function AwaitRequest(s: State, client: Client, w: Xid, reqs: seq<WaitCondition>, clock: Clock): State {
    if reqs == [] then s
    else
      var (p, status) := Setup(Prologue(s, client, w, reqs), w, reqs, |reqs|, clock);
      if w !in p.awaits then p
      else if status != Success then FreeAwait(p, w)
      else Epilogue(p, client, w)
  }

  // ----- counters -----

  function CreateCounter(s: State, c: Xid, v: Int64, kind: CounterKind): State {
    if c == NONE || c in s.counters || c in s.alarms then s
    else s.(counters := s.counters[c := Counter(v, [], false, kind)])
  }

  /** ProcSyncSetCounter: refused on system counters */
  function SetCounter(s: State, c: Xid, v: Int64): State {
    if c !in s.counters || IsSystem(s, c) then s else SyncModel.ChangeCounter(s, c, v)
  }

  /** ProcSyncChangeCounter: refused when the sum overflows */
  function AddToCounter(s: State, c: Xid, amount: Int64): State {
    if c !in s.counters || IsSystem(s, c) || !InRange(amount + s.counters[c].value) then s
    else SyncModel.ChangeCounter(s, c, amount + s.counters[c].value)
  }

  // ----- wakeups of the system counters -----

  function BracketsOf(s: State, c: Xid): Brackets {
    if IsSystem(s, c) then s.counters[c].kind.brackets else NO_BRACKETS
  }

  /** IdleTimeCheckBrackets */
  function CheckBrackets(s: State, c: Xid, idle: Int64): State {
    if c !in s.counters || Quiet(BracketsOf(s, c), idle) then SetValue(s, c, idle) else SyncModel.ChangeCounter(s, c, idle)
  }

  /** IdleTimeWakeupHandler: nothing without a bracket; when the idle time has been reset in between, 0 comes first. */
  function IdleWakeup(s: State, c: Xid, idle: Int64, reset: bool): State {
    if c !in s.counters || BracketsOf(s, c) == NO_BRACKETS then s
    else CheckBrackets(if reset && idle != 0 then CheckBrackets(s, c, 0) else s, c, idle)
  }

  /** ServertimeWakeupHandler */
  function ServertimeWakeup(s: State, c: Xid, now: Int64): State {
    if c !in s.counters || QuietAbove(BracketsOf(s, c), now) then s else SyncModel.ChangeCounter(s, c, now)
  }

  // ----- runs -----

  datatype Step =
    | DoCreateCounter(client: Client, c: Xid, v: Int64)
    | DoCreateSystemCounter(c: Xid, v: Int64, ct: CounterType)
    | DoSetCounter(client: Client, c: Xid, v: Int64)
    | DoChangeCounter(client: Client, c: Xid, v: Int64)
    | DoQueryCounter(client: Client, c: Xid, clock: Clock)
    | DoDestroyCounter(client: Client, c: Xid)
    | DoAwait(client: Client, w: Xid, reqs: seq<WaitCondition>, clock: Clock)
    | DoCreateAlarm(client: Client, a: Xid, attrs: Attributes, clock: Clock)
    | DoChangeAlarm(client: Client, a: Xid, attrs: Attributes, clock: Clock)
    | DoDestroyAlarm(client: Client, a: Xid)
    | DoIdleWakeup(c: Xid, idle: Card32, reset: bool)
    | DoServertimeWakeup(c: Xid, v: Int64)
    | ClientGone(client: Client)
    | ReapCounter(c: Xid)
    | ReapAlarm(a: Xid)
    | ReapAwait(w: Xid)

  function DoStep(s: State, step: Step): State {
    match step
    case DoCreateCounter(client, c, v) => CreateCounter(s, c, v, ClientCounter(client))
    case DoCreateSystemCounter(c, v, ct) => CreateCounter(s, c, v, SystemCounter(ct, NO_BRACKETS))
    case DoSetCounter(_, c, v) => SetCounter(s, c, v)
    case DoChangeCounter(_, c, v) => AddToCounter(s, c, v)
    case DoQueryCounter(_, c, clock) => Query(s, Some(c), clock)
    case DoDestroyCounter(_, c) => if c !in s.counters || IsSystem(s, c) then s else FreeCounter(s, c)
    case DoAwait(client, w, reqs, clock) => AwaitRequest(s, client, w, reqs, clock)
    case DoCreateAlarm(client, a, attrs, clock) => CreateAlarm(s, client, a, attrs, clock)
    case DoChangeAlarm(client, a, attrs, clock) => ChangeAlarm(s, client, a, attrs, clock)
    case DoDestroyAlarm(_, a) => if a !in s.alarms then s else FreeAlarm(s, a)
    case DoIdleWakeup(c, v, reset) => IdleWakeup(s, c, v, reset)
    case DoServertimeWakeup(c, v) => ServertimeWakeup(s, c, v)
    case ClientGone(client) => s.(gone := s.gone + {client})
    case ReapCounter(c) => if c !in s.counters then s else FreeCounter(s, c)
    case ReapAlarm(a) => if a !in s.alarms then s else FreeAlarm(s, a)
    case ReapAwait(w) => if w !in s.awaits then s else FreeAwait(s, w)
  }

  predicate Dispatched(s: State, client: Client) {
    client !in s.gone && client !in s.ignore
  }

  /** What the server guarantees when it takes a step, and what the model asks of the requests. */
  predicate Legal(s: State, step: Step) {
    match step
    case DoCreateCounter(client, _, _) => Dispatched(s, client)
    case DoCreateSystemCounter(_, _, _) => true
    case DoSetCounter(client, _, _) => Dispatched(s, client)
    case DoChangeCounter(client, _, _) => Dispatched(s, client)
    case DoQueryCounter(client, _, _) => Dispatched(s, client)
    case DoDestroyCounter(client, _) => Dispatched(s, client)
    case DoAwait(client, w, reqs, _) =>
      // FakeClientID is fresh; one request names each counter at most once
      Dispatched(s, client) && w !in s.awaits &&
      forall i, j :: 0 <= i < j < |reqs| ==> reqs[i].counter != reqs[j].counter
    case DoCreateAlarm(client, _, _, _) => Dispatched(s, client)
    case DoChangeAlarm(client, a, attrs, clock) => Dispatched(s, client) && (a in s.alarms ==> Harmless(s, a, attrs, clock))
    case DoDestroyAlarm(client, _) => Dispatched(s, client)
    case DoIdleWakeup(c, _, _) => IsSystem(s, c)
    case DoServertimeWakeup(c, _) => IsSystem(s, c)
    case ClientGone(_) => true
    case ReapCounter(c) => true
    case ReapAlarm(a) => true
    case ReapAwait(w) => w in s.awaits ==> s.awaits[w].client in s.gone
  }

  predicate OnClientCounter(s: State, a: Xid)
    requires a in s.alarms
  {
    var sync := s.alarms[a].trigger.sync;
    sync.Some? && sync.value in s.counters && s.counters[sync.value].kind.ClientCounter?
  }

  /** The test value that a ChangeAlarm leaves in the alarm when SyncInitTrigger refuses it. */
  function LateTest(s: State, a: Xid, attrs: Attributes, clock: Clock): Int64
    requires a in s.alarms
  {
    var trig := Wanted(s.alarms[a].trigger, attrs);
    var sync := NewSync(trig, Get(attrs.counter, NONE), attrs.Mask());
    if attrs.counter.Some? && attrs.counter.value != NONE && attrs.counter.value !in s.counters then trig.testValue
    else if attrs.valueType.Some? && trig.valueType.OtherValueType? then trig.testValue
    else if attrs.valueType.None? && attrs.value.None? then trig.testValue
    else if trig.valueType.Absolute? || sync.Some? then Wrap(Target(Query(s, sync, clock), sync, trig))
    else trig.testValue
  }

  /**
   * A ChangeAlarm that succeeds or fails before the commit, or one whose late failure has named no other test type
   * and has not made the trigger of an Active alarm on a client's counter TRUE.
   */
  predicate Harmless(s: State, a: Xid, attrs: Attributes, clock: Clock)
    requires a in s.alarms
  {
    var alarm := s.alarms[a];
    var v := ValueOf(s, if alarm.trigger.sync.Some? then alarm.trigger.sync.value else NONE);
    || ChangeStatus(s, a, attrs, clock) == Success
    || EarlyStatus(alarm, attrs) != Success
    || (Get(attrs.testType, alarm.trigger.testType) == alarm.trigger.testType
        && !(alarm.state == Active && OnClientCounter(s, a)
             && CheckValue(alarm.trigger.check, v, v, LateTest(s, a, attrs, clock))))
  }

  ghost predicate LegalRun(s: State, steps: seq<Step>)
    decreases steps
  {
    steps == [] || (Legal(s, steps[0]) && LegalRun(DoStep(s, steps[0]), steps[1..]))
  }

  function Run(s: State, steps: seq<Step>): State
    decreases steps
  {
    if steps == [] then s else Run(DoStep(s, steps[0]), steps[1..])
  }

  const INITIAL := State(map[], map[], map[], map[], {}, [])
}
