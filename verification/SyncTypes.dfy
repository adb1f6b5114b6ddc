/** Data model of Xext/sync.c: counters, triggers, alarms, awaits and the events they emit. */
module SyncTypes {
  import opened Options

  const INT64_MIN: int := -0x8000_0000_0000_0000
  const INT64_MAX: int := 0x7fff_ffff_ffff_ffff

  type Int64 = x: int | INT64_MIN <= x <= INT64_MAX
  type Xid = nat
  type Client = nat

  const NONE: Xid := 0

  predicate InRange(x: int) {
    INT64_MIN <= x <= INT64_MAX
  }

  /** The two's complement value that a 64-bit addition leaves behind, overflowing or not. */
  function Wrap(x: int): (r: Int64) {
    (x - INT64_MIN) % 0x1_0000_0000_0000_0000 + INT64_MIN
  }

  /** `Other` stands for a test type of a request that names none of the four. */
  datatype TestType =
    | PositiveTransition
    | NegativeTransition
    | PositiveComparison
    | NegativeComparison
    | OtherTest(code: nat)
  {
    predicate Comparison() {
      PositiveComparison? || NegativeComparison?
    }

    predicate Positive() {
      PositiveComparison? || PositiveTransition?
    }

    predicate Negative() {
      NegativeComparison? || NegativeTransition?
    }
  }

  datatype ValueType = Absolute | Relative | OtherValueType(code: nat)

  /** A trigger. `check` is the function plugged into CheckTrigger, `testType` the number kept beside it. */
  datatype Trigger = Trigger(
    sync: Option<Xid>,
    waitValue: Int64,
    valueType: ValueType,
    testType: TestType,
    testValue: Int64,
    check: TestType)

  /** A trigger is named by the alarm it is embedded in, or by its await and position there. */
  datatype TriggerId = AlarmTrigger(alarm: Xid) | AwaitTrigger(await: Xid, index: nat)

  datatype CounterType = NeverChanges | NeverIncreases | NeverDecreases | Unrestricted

  /** The brackets that were last passed to BracketValues; None is the null pointer. */
  datatype Brackets = Brackets(less: Option<Int64>, greater: Option<Int64>)

  datatype CounterKind = ClientCounter(owner: Client) | SystemCounter(ct: CounterType, brackets: Brackets)

  datatype Counter = Counter(value: Int64, triggers: seq<TriggerId>, beingDestroyed: bool, kind: CounterKind)

  datatype AlarmState = Active | Inactive | Destroyed

  datatype Alarm = Alarm(
    trigger: Trigger,
    client: Client,
    delta: Int64,
    events: bool,
    state: AlarmState,
    eventClients: seq<Client>)

  datatype Condition = Condition(trigger: Trigger, threshold: Int64)

  /** `armed` is num_waitconditions: how many of the allocated conditions are in use. */
  datatype Await = Await(client: Client, conds: seq<Condition>, armed: nat)

  datatype Event =
    | AlarmNotify(alarm: Xid, counterValue: Int64, alarmValue: Int64, state: AlarmState, to: seq<Client>)
    | CounterNotify(client: Client, counter: Xid, waitValue: Int64, counterValue: Int64, count: nat, destroyed: bool)

  /** Everything the extension keeps. `ignore` holds the non-zero ignore counts of the scheduler. */
  datatype State = State(
    counters: map<Xid, Counter>,
    alarms: map<Xid, Alarm>,
    awaits: map<Xid, Await>,
    ignore: map<Client, nat>,
    gone: set<Client>,
    log: seq<Event>)

  datatype Status = Success | BadCounter | BadValue | BadMatch | BadAccess | BadAlarm | BadIDChoice

  // ----- triggers -----

  predicate Has(s: State, t: TriggerId) {
    match t
    case AlarmTrigger(a) => a in s.alarms
    case AwaitTrigger(w, i) => w in s.awaits && i < |s.awaits[w].conds|
  }

  function Trig(s: State, t: TriggerId): Trigger
    requires Has(s, t)
  {
    match t
    case AlarmTrigger(a) => s.alarms[a].trigger
    case AwaitTrigger(w, i) => s.awaits[w].conds[i].trigger
  }

  function SetTrig(s: State, t: TriggerId, trig: Trigger): (r: State)
    requires Has(s, t)
  {
    match t
    case AlarmTrigger(a) => s.(alarms := s.alarms[a := s.alarms[a].(trigger := trig)])
    case AwaitTrigger(w, i) =>
      s.(awaits := s.awaits[w := s.awaits[w].(conds := s.awaits[w].conds[i := s.awaits[w].conds[i].(trigger := trig)])])
  }

  /** A trigger that belongs to an Active alarm or to an outstanding await: firing it has an effect. */
  predicate Pending(s: State, t: TriggerId) {
    match t
    case AlarmTrigger(a) => a in s.alarms && s.alarms[a].state == Active
    case AwaitTrigger(w, i) => w in s.awaits && i < s.awaits[w].armed
  }

  /** The four SyncCheckTrigger functions: `v` is the new value of the counter, `was` the previous one. */
  predicate CheckValue(check: TestType, v: int, was: int, test: int) {
    match check
    case PositiveComparison => v >= test
    case NegativeComparison => v <= test
    case PositiveTransition => was < test && v >= test
    case NegativeTransition => was > test && v <= test
    case OtherTest(_) => false
  }

  function ValueOf(s: State, c: Xid): Int64 {
    if c in s.counters then s.counters[c].value else 0
  }

  /** CheckTrigger: a trigger without a counter is always TRUE. */
  predicate Check(s: State, trig: Trigger, was: Int64) {
    trig.sync.None? || CheckValue(trig.check, ValueOf(s, trig.sync.value), was, trig.testValue)
  }

  // ----- trigger lists -----

  predicate NoDup<T(==)>(list: seq<T>) {
    forall i, j :: 0 <= i < j < |list| ==> list[i] != list[j]
  }

  /** The list after the first node holding `t` is unlinked. */
  function Without(list: seq<TriggerId>, t: TriggerId): seq<TriggerId> {
    if list == [] then []
    else if list[0] == t then list[1..]
    else [list[0]] + Without(list[1..], t)
  }

  lemma {:induction false} WithoutMembers(list: seq<TriggerId>, t: TriggerId)
    requires NoDup(list)
    ensures NoDup(Without(list, t))
    ensures forall u :: u in Without(list, t) <==> u in list && u != t
  {
    if list != [] {
      assert list == [list[0]] + list[1..];
      if list[0] != t {
        WithoutMembers(list[1..], t);
        assert list[0] !in Without(list[1..], t);
      }
    }
  }

  lemma {:induction false} WithoutAbsent(list: seq<TriggerId>, t: TriggerId)
    requires t !in list
    ensures Without(list, t) == list
  {
    if list != [] {
      WithoutAbsent(list[1..], t);
    }
  }
}
