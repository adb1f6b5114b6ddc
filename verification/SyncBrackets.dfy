/**
 * The brackets of a system counter: how they are computed from its trigger list, and exactly when a
 * counter that stays between them can be left without a trigger check.
 */
module SyncBrackets {
  import opened Options
  import opened SyncTypes

  const NO_BRACKETS := Brackets(None, None)

  /** Whether the counter type lets a trigger take part, test type by test type. */
  predicate TakesPart(ct: CounterType, t: Trigger) {
    match t.testType
    case PositiveComparison => ct != NeverIncreases
    case NegativeComparison => ct != NeverDecreases
    case NegativeTransition => ct != NeverIncreases
    case PositiveTransition => ct != NeverDecreases
    case OtherTest(_) => false
  }

  /** The trigger asks to be woken when the counter rises to its test value. */
  predicate WantsAbove(ct: CounterType, v: Int64, t: Trigger) {
    TakesPart(ct, t) && (v < t.testValue || (v == t.testValue && t.testType == PositiveTransition))
  }

  /** The trigger asks to be woken when the counter falls to its test value. */
  predicate WantsBelow(ct: CounterType, v: Int64, t: Trigger) {
    TakesPart(ct, t) && (v > t.testValue || (v == t.testValue && t.testType == NegativeTransition))
  }

  function Greater(b: Brackets): Int64 {
    if b.greater.Some? then b.greater.value else INT64_MAX
  }

  function Less(b: Brackets): Int64 {
    if b.less.Some? then b.less.value else INT64_MIN
  }

  /** One round of the loop of SyncComputeBracketValues. */
  function Narrow(ct: CounterType, v: Int64, t: Trigger, b: Brackets): Brackets {
    if WantsAbove(ct, v, t) && t.testValue < Greater(b) then b.(greater := Some(t.testValue))
    else if WantsBelow(ct, v, t) && t.testValue > Less(b) then b.(less := Some(t.testValue))
    else b
  }

  function NarrowAll(ct: CounterType, v: Int64, ts: seq<Trigger>): Brackets {
    if ts == [] then NO_BRACKETS
    else Narrow(ct, v, ts[|ts| - 1], NarrowAll(ct, v, ts[..|ts| - 1]))
  }

  /** Each bracket is a test value that a trigger asked for on its side of v, and none asked for a nearer one. */
  ghost predicate Nearest(ct: CounterType, v: Int64, ts: seq<Trigger>, b: Brackets) {
    && (b.greater.Some? ==> exists t :: t in ts && WantsAbove(ct, v, t) && t.testValue == b.greater.value)
    && (b.less.Some? ==> exists t :: t in ts && WantsBelow(ct, v, t) && t.testValue == b.less.value)
    && (forall t | t in ts && WantsAbove(ct, v, t) :: t.testValue == INT64_MAX || Greater(b) <= t.testValue)
    && (forall t | t in ts && WantsBelow(ct, v, t) :: t.testValue == INT64_MIN || Less(b) >= t.testValue)
    && (b.greater.Some? ==> v <= b.greater.value < INT64_MAX)
    && (b.less.Some? ==> INT64_MIN < b.less.value <= v)
  }

  lemma NarrowNearest(ct: CounterType, v: Int64, ts: seq<Trigger>, t: Trigger, b: Brackets)
    requires Nearest(ct, v, ts, b)
    ensures Nearest(ct, v, ts + [t], Narrow(ct, v, t, b))
  {
    hide WantsAbove, WantsBelow;
    Sides(ct, v, t);
    assert t in ts + [t];
    assert forall u :: u in ts + [t] <==> u in ts || u == t;
  }

  lemma Sides(ct: CounterType, v: Int64, t: Trigger)
    ensures WantsAbove(ct, v, t) ==> v <= t.testValue && !WantsBelow(ct, v, t)
    ensures WantsBelow(ct, v, t) ==> t.testValue <= v
  {
  }

  /**
   * The brackets are the nearest requested test values on either side. The extreme values of an INT64 are
   * never set, because the comparison with the initial bracket is strict.
   */
  lemma {:induction false} NearestBrackets(ct: CounterType, v: Int64, ts: seq<Trigger>)
    ensures Nearest(ct, v, ts, NarrowAll(ct, v, ts))
  {
    if ts != [] {
      hide Nearest;
      var n := |ts| - 1;
      NearestBrackets(ct, v, ts[..n]);
      NarrowNearest(ct, v, ts[..n], ts[n], NarrowAll(ct, v, ts[..n]));
      assert ts == ts[..n] + [ts[n]];
    }
  }

  /** There is one nearest pair for the tests asked for, in whatever order. */
  lemma NearestIsUnique(ct: CounterType, v: Int64, ts: seq<Trigger>, ts': seq<Trigger>, b: Brackets, b': Brackets)
    requires Nearest(ct, v, ts, b) && Nearest(ct, v, ts', b') && forall t :: t in ts <==> t in ts'
    ensures b == b'
  {
    hide TakesPart;
    NearestNoFurther(ct, v, ts, ts', b, b');
    NearestNoFurther(ct, v, ts', ts, b', b);
  }

  lemma NearestNoFurther(ct: CounterType, v: Int64, ts: seq<Trigger>, ts': seq<Trigger>, b: Brackets, b': Brackets)
    requires Nearest(ct, v, ts, b) && Nearest(ct, v, ts', b') && forall t :: t in ts ==> t in ts'
    ensures b.greater.Some? ==> b'.greater.Some? && b'.greater.value <= b.greater.value
    ensures b.less.Some? ==> b'.less.Some? && b'.less.value >= b.less.value
  {
    hide TakesPart;
  }

  /** The values IdleTimeCheckBrackets stores without checking any trigger. */
  predicate Quiet(b: Brackets, v: Int64) {
    !((b.greater.Some? && v >= b.greater.value) || (b.less.Some? && v <= b.less.value))
  }

  /** The values ServertimeWakeupHandler ignores; it looks at the upper bracket only. */
  predicate QuietAbove(b: Brackets, v: Int64) {
    !(b.greater.Some? && v >= b.greater.value)
  }

  predicate AllQuiet(b: Brackets, vs: seq<Int64>) {
    forall x :: x in vs ==> Quiet(b, x)
  }

  predicate AllQuietAbove(b: Brackets, vs: seq<Int64>) {
    forall x :: x in vs ==> QuietAbove(b, x)
  }

  /** A counter that goes through `vs` one after the other, starting at `v`, makes `t` fire on the way. */
  predicate FiresDuring(t: Trigger, v: Int64, vs: seq<Int64>)
    decreases vs
  {
    vs != [] && (CheckValue(t.testType, vs[0], v, t.testValue) || FiresDuring(t, vs[0], vs[1..]))
  }

  predicate Rising(v: Int64, vs: seq<Int64>)
    decreases vs
  {
    vs == [] || (v <= vs[0] && Rising(vs[0], vs[1..]))
  }

  /** The triggers an unrestricted counter can miss: those at an extreme value no bracket guards. */
  predicate Blind(v: Int64, b: Brackets, t: Trigger) {
    match t.testType
    case PositiveComparison => t.testValue == INT64_MAX && b.greater.None?
    case NegativeComparison => t.testValue == INT64_MIN && b.less.None?
    case PositiveTransition =>
      t.testValue == INT64_MAX && b.greater.None? && (v < INT64_MAX || Less(b) < INT64_MAX - 1)
    case NegativeTransition =>
      t.testValue == INT64_MIN && b.less.None? && (v > INT64_MIN || Greater(b) > INT64_MIN + 1)
    case OtherTest(_) => false
  }

  predicate ComparisonTrue(v: Int64, t: Trigger) {
    t.testType.Comparison() && CheckValue(t.testType, v, v, t.testValue)
  }

  /** No step between two quiet values, or from the value the brackets were computed at, fires `t`. */
  lemma QuietStep(v: Int64, ts: seq<Trigger>, t: Trigger, was: Int64, now: Int64)
    requires t in ts && !ComparisonTrue(v, t)
    requires !Blind(v, NarrowAll(Unrestricted, v, ts), t)
    requires was == v || Quiet(NarrowAll(Unrestricted, v, ts), was)
    requires Quiet(NarrowAll(Unrestricted, v, ts), now)
    ensures !CheckValue(t.testType, now, was, t.testValue)
  {
    NearestBrackets(Unrestricted, v, ts);
  }

  lemma {:induction false} QuietRun(v: Int64, ts: seq<Trigger>, t: Trigger, was: Int64, vs: seq<Int64>)
    requires t in ts && !ComparisonTrue(v, t)
    requires !Blind(v, NarrowAll(Unrestricted, v, ts), t)
    requires was == v || Quiet(NarrowAll(Unrestricted, v, ts), was)
    requires AllQuiet(NarrowAll(Unrestricted, v, ts), vs)
    ensures !FiresDuring(t, was, vs)
    decreases vs
  {
    if vs != [] {
      QuietStep(v, ts, t, was, vs[0]);
      QuietRun(v, ts, t, vs[0], vs[1..]);
    }
  }

  /**
   * Bracket soundness for an unrestricted counter, with the exact condition: a trigger that is not a
   * true comparison when the brackets are computed is never missed by any run of quiet values, of any
   * length, if and only if it is not one of the blind triggers.
   */
  lemma BracketsSound(v: Int64, ts: seq<Trigger>, t: Trigger)
    requires t in ts && !ComparisonTrue(v, t)
    ensures var b := NarrowAll(Unrestricted, v, ts);
      (forall vs: seq<Int64> :: AllQuiet(b, vs) ==> !FiresDuring(t, v, vs)) <==> !Blind(v, b, t)
  {
    var b := NarrowAll(Unrestricted, v, ts);
    NearestBrackets(Unrestricted, v, ts);
    if !Blind(v, b, t) {
      forall vs: seq<Int64> | AllQuiet(b, vs)
        ensures !FiresDuring(t, v, vs)
      {
        QuietRun(v, ts, t, v, vs);
      }
    } else {
      var extreme: Int64 := t.testValue;
      var step: Int64 := if t.testType.Positive() then INT64_MAX - 1 else INT64_MIN + 1;
      var vs: seq<Int64> := if v == extreme then [step, extreme] else [extreme];
      assert v == extreme ==> vs[1..] == [extreme];
      assert FiresDuring(t, v, vs);
      assert AllQuiet(b, vs);
    }
  }

  /** The triggers that SERVERTIME, which never decreases, can miss. */
  predicate BlindRising(v: Int64, b: Brackets, t: Trigger) {
    match t.testType
    case PositiveComparison => t.testValue == INT64_MAX && b.greater.None?
    case PositiveTransition => v < t.testValue && (b.greater.None? || t.testValue < b.greater.value)
    case _ => false
  }

  lemma {:induction false} QuietRisingRun(v: Int64, ts: seq<Trigger>, t: Trigger, was: Int64, vs: seq<Int64>)
    requires t in ts && !ComparisonTrue(v, t)
    requires !BlindRising(v, NarrowAll(NeverDecreases, v, ts), t)
    requires v <= was && Rising(was, vs)
    requires was == v || QuietAbove(NarrowAll(NeverDecreases, v, ts), was)
    requires AllQuietAbove(NarrowAll(NeverDecreases, v, ts), vs)
    ensures !FiresDuring(t, was, vs)
    decreases vs
  {
    if vs != [] {
      NearestBrackets(NeverDecreases, v, ts);
      QuietRisingRun(v, ts, t, vs[0], vs[1..]);
    }
  }

  /**
   * The same for a counter that never decreases. Here the condition is not an extreme-value accident:
   * the counter type guard leaves PositiveTransition triggers out, so one of them is missed unless
   * another trigger happens to put the upper bracket at or below its test value.
   */
  lemma BracketsSoundRising(v: Int64, ts: seq<Trigger>, t: Trigger)
    requires t in ts && !ComparisonTrue(v, t)
    ensures var b := NarrowAll(NeverDecreases, v, ts);
      (forall vs: seq<Int64> :: AllQuietAbove(b, vs) && Rising(v, vs) ==> !FiresDuring(t, v, vs))
      <==> !BlindRising(v, b, t)
  {
    var b := NarrowAll(NeverDecreases, v, ts);
    NearestBrackets(NeverDecreases, v, ts);
    if !BlindRising(v, b, t) {
      forall vs: seq<Int64> | AllQuietAbove(b, vs) && Rising(v, vs)
        ensures !FiresDuring(t, v, vs)
      {
        QuietRisingRun(v, ts, t, v, vs);
      }
    } else {
      var vs: seq<Int64> := [t.testValue];
      assert FiresDuring(t, v, vs);
      assert AllQuietAbove(b, vs);
      assert Rising(v, vs);
    }
  }

  predicate Falling(v: Int64, vs: seq<Int64>)
    decreases vs
  {
    vs == [] || (v >= vs[0] && Falling(vs[0], vs[1..]))
  }

  /** The triggers that a counter that never increases can miss. */
  predicate BlindFalling(v: Int64, b: Brackets, t: Trigger) {
    match t.testType
    case NegativeComparison => t.testValue == INT64_MIN && b.less.None?
    case NegativeTransition => v > t.testValue && (b.less.None? || t.testValue > b.less.value)
    case _ => false
  }

  lemma {:induction false} QuietFallingRun(v: Int64, ts: seq<Trigger>, t: Trigger, was: Int64, vs: seq<Int64>)
    requires t in ts && !ComparisonTrue(v, t)
    requires !BlindFalling(v, NarrowAll(NeverIncreases, v, ts), t)
    requires v >= was && Falling(was, vs)
    requires was == v || Quiet(NarrowAll(NeverIncreases, v, ts), was)
    requires AllQuiet(NarrowAll(NeverIncreases, v, ts), vs)
    ensures !FiresDuring(t, was, vs)
    decreases vs
  {
    if vs != [] {
      NearestBrackets(NeverIncreases, v, ts);
      QuietFallingRun(v, ts, t, vs[0], vs[1..]);
    }
  }

  /** And for one that never increases: here it is the NegativeTransition triggers that the guard leaves out. */
  lemma BracketsSoundFalling(v: Int64, ts: seq<Trigger>, t: Trigger)
    requires t in ts && !ComparisonTrue(v, t)
    ensures var b := NarrowAll(NeverIncreases, v, ts);
      (forall vs: seq<Int64> :: AllQuiet(b, vs) && Falling(v, vs) ==> !FiresDuring(t, v, vs))
      <==> !BlindFalling(v, b, t)
  {
    var b := NarrowAll(NeverIncreases, v, ts);
    NearestBrackets(NeverIncreases, v, ts);
    if !BlindFalling(v, b, t) {
      forall vs: seq<Int64> | AllQuiet(b, vs) && Falling(v, vs)
        ensures !FiresDuring(t, v, vs)
      {
        QuietFallingRun(v, ts, t, v, vs);
      }
    } else {
      var vs: seq<Int64> := [t.testValue];
      assert FiresDuring(t, v, vs);
      assert AllQuiet(b, vs);
      assert Falling(v, vs);
    }
  }

  /** A PositiveTransition trigger on its own on SERVERTIME is missed: the run that shows it. */
  lemma LonePositiveTransitionIsMissed(v: Int64, t: Trigger)
    requires t.testType == PositiveTransition && v < t.testValue
    ensures NarrowAll(NeverDecreases, v, [t]) == NO_BRACKETS
    ensures FiresDuring(t, v, [t.testValue]) && QuietAbove(NO_BRACKETS, t.testValue)
  {
    assert [t][..0] == [];
  }
}
