/**
 The sustained-crossing window (internal/prometheus/evaluator.go): one timestamp per policy
 stands for that policy's whole sample history.
 */
module SlidingWindow {
  datatype Operator = GreaterThan | GreaterThanOrEqual | LessThan | LessThanOrEqual | Equal | NotEqual | Unknown

  /** Compare, over exact numbers. */
  predicate Compare(value: real, threshold: real, op: Operator) {
    match op
    case GreaterThan => value > threshold
    case GreaterThanOrEqual => value >= threshold
    case LessThan => value < threshold
    case LessThanOrEqual => value <= threshold
    case Equal => value == threshold
    case NotEqual => value != threshold
    case Unknown => false
  }

  /** Everything that ever happens to a window. */
  datatype Op = Sample(key: string, crossed: bool, now: int) | Drop(key: string)

  function Apply(crossedAt: map<string, int>, op: Op): map<string, int> {
    match op
    case Drop(k) => crossedAt - {k}
    case Sample(k, crossed, now) =>
      if !crossed then crossedAt - {k} else if k in crossedAt then crossedAt else crossedAt[k := now]
  }

  function Replay(ops: seq<Op>): map<string, int> {
    if ops == [] then map[] else Apply(Replay(ops[..|ops| - 1]), ops[|ops| - 1])
  }

  /** What Observe answers in a given window. */
  function CrossedFor(crossedAt: map<string, int>, key: string, crossed: bool, now: int): int {
    if crossed && key in crossedAt then now - crossedAt[key] else 0
  }

  /** SlidingWindow. `history` is every operation made on it, over all keys. */
  class Window {
    var crossedAt: map<string, int>
    ghost var history: seq<Op>

    ghost predicate Valid()
      reads this
    {
      crossedAt == Replay(history)
    }

    constructor ()
      ensures Valid() && history == []
    {
      crossedAt, history := map[], [];
    }

    method Observe(key: string, crossed: bool, now: int) returns (elapsed: int)
      requires Valid()
      modifies this
      ensures Valid() && history == old(history) + [Sample(key, crossed, now)]
      ensures crossedAt == Apply(old(crossedAt), Sample(key, crossed, now))
      ensures elapsed == CrossedFor(old(crossedAt), key, crossed, now)
      ensures crossed ==> key in crossedAt && elapsed == now - crossedAt[key]
    {
      history := history + [Sample(key, crossed, now)];
      if !crossed {
        crossedAt := crossedAt - {key};
        return 0;
      }
      if key !in crossedAt {
        crossedAt := crossedAt[key := now];
        return 0;
      }
      return now - crossedAt[key];
    }

    method Forget(key: string)
      requires Valid()
      modifies this
      ensures Valid() && history == old(history) + [Drop(key)]
      ensures crossedAt == old(crossedAt) - {key}
    {
      history := history + [Drop(key)];
      crossedAt := crossedAt - {key};
    }
  }

  // ---------------------------------------------------------------------------------------
  // The one timestamp refines the history
  // ---------------------------------------------------------------------------------------

  predicate Crossing(op: Op, key: string) {
    op.Sample? && op.crossed && op.key == key
  }

  /** From position i on, nothing but crossed samples of this key, and i is one. */
  ghost predicate AllCrossedFrom(ops: seq<Op>, key: string, i: nat) {
    i < |ops| && Crossing(ops[i], key) && forall j :: i <= j < |ops| && ops[j].key == key ==> Crossing(ops[j], key)
  }

  /** i starts the longest all-crossed suffix of the key's operations. */
  ghost predicate StreakStartsAt(ops: seq<Op>, key: string, i: nat) {
    AllCrossedFrom(ops, key, i) && forall j :: 0 <= j < i ==> !AllCrossedFrom(ops, key, j)
  }

  ghost predicate InStreak(ops: seq<Op>, key: string) {
    exists i: nat :: AllCrossedFrom(ops, key, i)
  }

  /** The window holds a key exactly while its operations end in an all-crossed streak, and the
      timestamp it holds is the time of the first sample of the longest such streak. */
  lemma {:induction false} TimestampIsStreakStart(ops: seq<Op>, key: string)
    ensures key in Replay(ops) <==> InStreak(ops, key)
    ensures forall i: nat :: StreakStartsAt(ops, key, i) ==> key in Replay(ops) && Replay(ops)[key] == ops[i].now
  {
    if ops != [] {
      var n := |ops| - 1;
      var before, last := ops[..n], ops[n];
      TimestampIsStreakStart(before, key);
      forall i: nat | i < n
        ensures AllCrossedFrom(ops, key, i) <==> AllCrossedFrom(before, key, i) && (last.key == key ==> Crossing(last, key))
      {
        if AllCrossedFrom(ops, key, i) {
          forall j | i <= j < |before| && before[j].key == key ensures Crossing(before[j], key) {
            assert ops[j] == before[j];
          }
        }
      }
      assert AllCrossedFrom(ops, key, n) <==> Crossing(last, key);
      forall i: nat | StreakStartsAt(ops, key, i)
        ensures key in Replay(ops) && Replay(ops)[key] == ops[i].now
      {
        if i < n {
          assert forall j :: 0 <= j < i ==> !AllCrossedFrom(before, key, j) by {
            assert forall j :: 0 <= j < i ==> !AllCrossedFrom(ops, key, j);
          }
          assert StreakStartsAt(before, key, i);
        } else {
          assert forall j: nat :: j < n ==> !AllCrossedFrom(ops, key, j);
          assert !InStreak(before, key);
        }
      }
    }
  }

  /** Observe answers how long ago the streak that includes this very sample began. */
  lemma {:induction false} ObserveReportsStreak(ops: seq<Op>, key: string, now: int) returns (i: nat)
    ensures StreakStartsAt(ops + [Sample(key, true, now)], key, i)
    ensures CrossedFor(Replay(ops), key, true, now) == now - (ops + [Sample(key, true, now)])[i].now
  {
    var after := ops + [Sample(key, true, now)];
    assert after[..|after| - 1] == ops;
    assert AllCrossedFrom(after, key, |ops|);
    i := LongestStreak(after, key);
    TimestampIsStreakStart(after, key);
  }

  /** If Observe reports a crossing sustained for `duration`, then some sample at or before
      now - duration was crossed, and since that sample every sample of the key was crossed and
      the key was never forgotten (a failed query forgets it). */
  lemma SustainedMeansCrossedThroughout(ops: seq<Op>, key: string, now: int, duration: int)
    requires CrossedFor(Replay(ops), key, true, now) >= duration > 0
    ensures exists i: nat :: AllCrossedFrom(ops, key, i) && ops[i].now <= now - duration
  {
    TimestampIsStreakStart(ops, key);
    var i := LongestStreak(ops, key);
    assert ops[i].now == Replay(ops)[key];
  }

  lemma LongestStreak(ops: seq<Op>, key: string) returns (i: nat)
    requires InStreak(ops, key)
    ensures StreakStartsAt(ops, key, i)
  {
    i :| AllCrossedFrom(ops, key, i);
    while exists j :: 0 <= j < i && AllCrossedFrom(ops, key, j)
      invariant AllCrossedFrom(ops, key, i)
      decreases i
    {
      var j :| 0 <= j < i && AllCrossedFrom(ops, key, j);
      i := j;
    }
  }
}
