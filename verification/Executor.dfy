/**
 The action executor (internal/action/executor.go): it runs a range of an ordered pipeline
 against one target, obeys each action's failure policy, and undoes in last-in-first-out order.

 A plugin is a pair of functions on the cluster state `S`; `D` is the payload a plugin records
 so that its own Reverse can undo the execution later.
 */
module Executor {
  import opened Common

  datatype Target = Target(apiVersion: string, kind: string, name: string, namespace: string)

  datatype Status = Unset | Succeeded | Failed | Skipped

  datatype FailurePolicy = Empty | Continue | Stop | Rollback

  datatype Action = Action(plugin: string, params: string, onFailure: FailurePolicy, requiresApproval: bool)

  datatype Input = Input(target: Target, params: string, metricValue: string)

  /** The Details map of a result: the plugin's payload and the two keys `rollback` writes. */
  datatype Details<D> = Details(payload: Option<D>, reversed: bool, rollbackError: Option<string>)

  datatype Result<D> = Result(plugin: string, target: Target, status: Status, message: Message, details: Details<D>)

  /** What a plugin's Execute hands back, before the executor normalises it. */
  datatype RawResult<S, D> = RawResult(state: S, plugin: string, status: Status, message: string, payload: Option<D>, err: Option<string>)

  datatype Reversal<S> = Reversal(state: S, err: Option<string>)

  datatype Plugin<!S, !D> = Plugin(
    execute: (S, Input) -> RawResult<S, D>,
    reverse: (S, Result<D>) -> Reversal<S>,
    reversible: bool)

  type Registry<!S, !D> = map<string, Plugin<S, D>>

  /** Everything about a pipeline run that stays fixed while it runs. */
  datatype Pipeline<!S, !D> = Pipeline(registry: Registry<S, D>, actions: seq<Action>, target: Target, metricValue: string)

  datatype Executed<S, D> = Executed(state: S, result: Result<D>, err: Option<Message>)

  datatype Abort = Abort(index: nat, plugin: string, rolledBack: bool, cause: Message)

  datatype RunOutcome<S, D> = RunOutcome(state: S, results: seq<Result<D>>, err: Option<Abort>)

  datatype UndoOutcome<S, D> = UndoOutcome(state: S, results: seq<Result<D>>)

  /** The cluster the plugins act on. `reversals` is the history of Reverse calls made on it. */
  class Cluster<S, D> {
    var state: S
    ghost var reversals: seq<Result<D>>

    constructor (s: S)
      ensures state == s && reversals == []
    {
      state, reversals := s, [];
    }
  }

  // ---------------------------------------------------------------------------------------
  // Single actions
  // ---------------------------------------------------------------------------------------

  /** The plugin's own result, completed with the defaults the executor supplies. */
  function Normalise<S, D>(name: string, target: Target, raw: RawResult<S, D>): Result<D> {
    var status := if raw.status != Unset then raw.status else if raw.err.Some? then Failed else Succeeded;
    var message := if raw.err.Some? && raw.message == "" then raw.err.value else raw.message;
    Result(if raw.plugin == "" then name else raw.plugin, target, status, Said(message), Details(raw.payload, false, None))
  }

  /** runOne: an unregistered plugin fails without touching the cluster. */
  function RunOne<S, D>(reg: Registry<S, D>, act: Action, target: Target, metricValue: string, s: S): Executed<S, D> {
    if act.plugin !in reg then
      Executed(s,
               Result(act.plugin, target, Failed, NotRegistered, Details(None, false, None)),
               Some(NotRegistered))
    else
      var raw := reg[act.plugin].execute(s, Input(target, act.params, metricValue));
      Executed(raw.state, Normalise(act.plugin, target, raw), if raw.err.Some? then Some(Said(raw.err.value)) else None)
  }

  /** Whether a failure of this action ends the pipeline. An empty policy means stop. */
  predicate EndsPipeline(act: Action) {
    act.onFailure != Continue
  }

  // ---------------------------------------------------------------------------------------
  // What a range of the pipeline computes
  // ---------------------------------------------------------------------------------------

  /** The state before action i when every action of [from, i) has been executed in order. */
  function StateBefore<S, D>(p: Pipeline<S, D>, from: nat, i: nat, s: S): S
    requires from <= i <= |p.actions|
    decreases i, 0
  {
    if i == from then s else ExecutionAt(p, from, i - 1, s).state
  }

  /** The execution of action i after all of [from, i). */
  function ExecutionAt<S, D>(p: Pipeline<S, D>, from: nat, i: nat, s: S): Executed<S, D>
    requires from <= i < |p.actions|
    decreases i, 1
  {
    RunOne(p.registry, p.actions[i], p.target, p.metricValue, StateBefore(p, from, i, s))
  }

  /** Action i fails, and its policy is not to continue. */
  predicate AbortsAt<S, D>(p: Pipeline<S, D>, from: nat, i: nat, s: S)
    requires from <= i < |p.actions|
  {
    ExecutionAt(p, from, i, s).err.Some? && EndsPipeline(p.actions[i])
  }

  /** The first aborting action at or after i, or `to` when there is none. */
  function FirstAbort<S, D>(p: Pipeline<S, D>, from: nat, i: nat, to: nat, s: S): (k: nat)
    requires from <= i <= to <= |p.actions|
    ensures i <= k <= to
    ensures forall j :: i <= j < k ==> !AbortsAt(p, from, j, s)
    ensures k < to ==> AbortsAt(p, from, k, s)
    decreases if i <= to then to - i else 0
  {
    if i == to || AbortsAt(p, from, i, s) then i else FirstAbort(p, from, i + 1, to, s)
  }

  /** One result per action of [from, to), in pipeline order. */
  function ResultsOf<S, D>(p: Pipeline<S, D>, from: nat, to: nat, s: S): (rs: seq<Result<D>>)
    requires from <= to <= |p.actions|
    ensures |rs| == to - from
    ensures forall j :: 0 <= j < to - from ==> rs[j] == ExecutionAt(p, from, from + j, s).result
  {
    if from == to then [] else ResultsOf(p, from, to - 1, s) + [ExecutionAt(p, from, to - 1, s).result]
  }

  /** The outcome of [lo, hi) when the first aborting action is k, or when there is none and k is hi. */
  function RunUntil<S, D>(p: Pipeline<S, D>, lo: nat, hi: nat, k: nat, s: S): RunOutcome<S, D>
    requires lo <= k <= hi <= |p.actions|
  {
    if k == hi || ExecutionAt(p, lo, k, s).err.None? then RunOutcome(StateBefore(p, lo, hi, s), ResultsOf(p, lo, hi, s), None)
    else
      var done, after := ResultsOf(p, lo, k + 1, s), StateBefore(p, lo, k + 1, s);
      var cause := ExecutionAt(p, lo, k, s).err.value;
      if p.actions[k].onFailure == Rollback then
        var u := Undo(p.registry, done, after);
        RunOutcome(u.state, u.results, Some(Abort(k, p.actions[k].plugin, true, cause)))
      else
        RunOutcome(after, done, Some(Abort(k, p.actions[k].plugin, false, cause)))
  }

  /** The outcome of running [from, to): clamped, cut after the first abort, undone if that
      action asks for a rollback. */
  function RunSpec<S, D>(p: Pipeline<S, D>, from: int, to: int, s: S): RunOutcome<S, D> {
    var lo := Max(from, 0);
    var hi := if to > |p.actions| then |p.actions| else to;
    if lo >= hi then RunOutcome(s, [], None)
    else RunUntil(p, lo, hi, FirstAbort(p, lo, lo, hi, s), s)
  }

  // ---------------------------------------------------------------------------------------
  // Undo
  // ---------------------------------------------------------------------------------------

  /** Entries rollback acts on: succeeded, and the plugin is still registered. */
  predicate Undoable<S, D>(reg: Registry<S, D>, r: Result<D>) {
    r.status == Succeeded && r.plugin in reg
  }

  /** Reverse one entry and annotate it with how that went. */
  function UndoOne<S, D>(reg: Registry<S, D>, r: Result<D>, s: S): (S, Result<D>) {
    if !Undoable(reg, r) then (s, r)
    else
      var v := reg[r.plugin].reverse(s, r);
      if v.err.Some? then (v.state, r.(details := r.details.(rollbackError := v.err)))
      else (v.state, r.(details := r.details.(reversed := true)))
  }

  /** The state once the entries from position k on have been undone, last first. */
  function StateUndone<S, D>(reg: Registry<S, D>, rs: seq<Result<D>>, k: nat, s: S): S
    requires k <= |rs|
    decreases |rs| - k
  {
    if k == |rs| then s else UndoOne(reg, rs[k], StateUndone(reg, rs, k + 1, s)).0
  }

  /** The entries from position k on, each handled in the state its successors' undoing left. */
  function UndoResults<S, D>(reg: Registry<S, D>, rs: seq<Result<D>>, k: nat, s: S): (out: seq<Result<D>>)
    requires k <= |rs|
    ensures |out| == |rs| - k
    decreases |rs| - k
  {
    if k == |rs| then []
    else [UndoOne(reg, rs[k], StateUndone(reg, rs, k + 1, s)).1] + UndoResults(reg, rs, k + 1, s)
  }

  /** Undo a list of results from its last entry to its first. */
  function Undo<S, D>(reg: Registry<S, D>, rs: seq<Result<D>>, s: S): UndoOutcome<S, D> {
    UndoOutcome(StateUndone(reg, rs, 0, s), UndoResults(reg, rs, 0, s))
  }

  /** The entries from position k on that are handed to Reverse, in that order. */
  function ReverseCalls<S, D>(reg: Registry<S, D>, rs: seq<Result<D>>, k: nat): seq<Result<D>>
    requires k <= |rs|
    decreases |rs| - k
  {
    if k == |rs| then []
    else ReverseCalls(reg, rs, k + 1) + if Undoable(reg, rs[k]) then [rs[k]] else []
  }

  /** One turn of rollback's loop: skip, or reverse and annotate the entry in place. */
  method ReverseInPlace<S, D>(reg: Registry<S, D>, cluster: Cluster<S, D>, results: array<Result<D>>, i: nat)
    requires i < results.Length
    modifies cluster, results
    ensures cluster.state == UndoOne(reg, old(results[i]), old(cluster.state)).0
    ensures results[i] == UndoOne(reg, old(results[i]), old(cluster.state)).1
    ensures forall k :: 0 <= k < results.Length && k != i ==> results[k] == old(results[k])
    ensures cluster.reversals == old(cluster.reversals) + if Undoable(reg, old(results[i])) then [old(results[i])] else []
  {
    if results[i].status != Succeeded || results[i].plugin !in reg {
      return;
    }
    cluster.reversals := cluster.reversals + [results[i]];
    var v := reg[results[i].plugin].reverse(cluster.state, results[i]);
    cluster.state := v.state;
    if v.err.Some? {
      results[i] := results[i].(details := results[i].details.(rollbackError := v.err));
    } else {
      results[i] := results[i].(details := results[i].details.(reversed := true));
    }
  }

  /** rollback: best effort, last entry first, annotating `results` in place. */
  method RollbackInPlace<S, D>(reg: Registry<S, D>, cluster: Cluster<S, D>, results: array<Result<D>>)
    modifies cluster, results
    ensures UndoOutcome(cluster.state, results[..]) == Undo(reg, old(results[..]), old(cluster.state))
    ensures cluster.reversals == old(cluster.reversals) + ReverseCalls(reg, old(results[..]), 0)
  {
    ghost var was, s0, log := results[..], cluster.state, cluster.reversals;
    ghost var out := [];
    var i := results.Length;
    while i > 0
      invariant 0 <= i <= results.Length
      invariant forall k :: 0 <= k < i ==> results[k] == was[k]
      invariant |out| == |was| - i
      invariant forall k :: i <= k < |was| ==> results[k] == out[k - i]
      invariant out == UndoResults(reg, was, i, s0)
      invariant cluster.state == StateUndone(reg, was, i, s0)
      invariant cluster.reversals == log + ReverseCalls(reg, was, i)
    {
      i := i - 1;
      ReverseInPlace(reg, cluster, results, i);
      out := [results[i]] + out;
    }
    assert results[..] == out;
  }

  // ---------------------------------------------------------------------------------------
  // RunRange
  // ---------------------------------------------------------------------------------------

  method RollbackResults<S, D>(reg: Registry<S, D>, cluster: Cluster<S, D>, results: seq<Result<D>>)
      returns (annotated: seq<Result<D>>)
    modifies cluster
    ensures UndoOutcome(cluster.state, annotated) == Undo(reg, results, old(cluster.state))
    ensures cluster.reversals == old(cluster.reversals) + ReverseCalls(reg, results, 0)
  {
    var inPlace := new Result<D>[|results|](k requires 0 <= k < |results| => results[k]);
    assert inPlace[..] == results;
    RollbackInPlace(reg, cluster, inPlace);
    annotated := inPlace[..];
  }

  lemma {:induction false} FirstAbortIs<S, D>(p: Pipeline<S, D>, from: nat, i: nat, k: nat, to: nat, s: S)
    requires from <= i <= k <= to <= |p.actions|
    requires forall j :: i <= j < k ==> !AbortsAt(p, from, j, s)
    requires k == to || AbortsAt(p, from, k, s)
    ensures FirstAbort(p, from, i, to, s) == k
  {
  }

  /** The range ended with the abort of action i. */
  lemma AbortedRange<S, D>(p: Pipeline<S, D>, from: int, to: int, lo: nat, hi: nat, i: nat, s: S)
    requires lo == Max(from, 0) && hi == (if to > |p.actions| then |p.actions| else to) && lo <= i < hi
    requires AbortsAt(p, lo, i, s) && forall j :: lo <= j < i ==> !AbortsAt(p, lo, j, s)
    ensures RunSpec(p, from, to, s) == RunUntil(p, lo, hi, i, s)
  {
    FirstAbortIs(p, lo, lo, i, hi, s);
  }

  /** It ran to its end. */
  lemma {:induction false} CompletedRange<S, D>(p: Pipeline<S, D>, from: int, to: int, lo: nat, hi: nat, s: S)
    requires lo == Max(from, 0) && hi == (if to > |p.actions| then |p.actions| else to) && lo < hi
    requires forall j :: lo <= j < hi ==> !AbortsAt(p, lo, j, s)
    ensures RunSpec(p, from, to, s) == RunOutcome(StateBefore(p, lo, hi, s), ResultsOf(p, lo, hi, s), None)
  {
    FirstAbortIs(p, lo, lo, hi, hi, s);
  }

  /** The abort rule for a run of [lo, hi) that reports `err` after executing `count` actions: the first
      failure whose policy is to stop, to roll back, or left out ends it, at once; one that is to
      continue never does; and nothing else keeps an action from being executed. */
  ghost predicate AbortRule<S, D>(p: Pipeline<S, D>, lo: nat, hi: int, s: S, count: nat, err: Option<Abort>) {
    && hi <= |p.actions|
    && (err.Some? <==> exists i :: lo <= i < hi && ExecutionAt(p, lo, i, s).err.Some? && p.actions[i].onFailure in {Empty, Stop, Rollback})
    && (err.Some? ==>
          var k := err.value.index;
          && lo <= k < hi && count == k + 1 - lo
          && ExecutionAt(p, lo, k, s).err == Some(err.value.cause) && err.value.plugin == p.actions[k].plugin
          && p.actions[k].onFailure in {Empty, Stop, Rollback} && (err.value.rolledBack <==> p.actions[k].onFailure == Rollback)
          && forall i :: lo <= i < k && ExecutionAt(p, lo, i, s).err.Some? ==> p.actions[i].onFailure == Continue)
    && (err.None? ==> count == Max(hi - lo, 0))
  }

  lemma {:induction false} RunsByAbortRule<S, D>(p: Pipeline<S, D>, from: int, to: int, s: S)
    ensures var o := RunSpec(p, from, to, s);
            AbortRule(p, Max(from, 0), if to > |p.actions| then |p.actions| else to, s, |o.results|, o.err)
  {
    var lo := Max(from, 0);
    var hi := if to > |p.actions| then |p.actions| else to;
    if lo < hi {
      var k := FirstAbort(p, lo, lo, hi, s);
      forall i | lo <= i < k && ExecutionAt(p, lo, i, s).err.Some?
        ensures p.actions[i].onFailure == Continue
      {
        assert !AbortsAt(p, lo, i, s);
      }
      assert k < hi ==> AbortsAt(p, lo, k, s);
    }
  }

  /** RunRange: execute actions [from, to) against one target. */
  method RunRange<S, D>(p: Pipeline<S, D>, cluster: Cluster<S, D>, from: int, to: int)
      returns (results: seq<Result<D>>, err: Option<Abort>)
    modifies cluster
    ensures cluster.state == RunSpec(p, from, to, old(cluster.state)).state
    ensures results == RunSpec(p, from, to, old(cluster.state)).results
    ensures err == RunSpec(p, from, to, old(cluster.state)).err
    ensures (err.Some? && err.value.rolledBack) || cluster.reversals == old(cluster.reversals)
    ensures AbortRule(p, Max(from, 0), if to > |p.actions| then |p.actions| else to, old(cluster.state), |results|, err)
  {
    RunsByAbortRule(p, from, to, cluster.state);
    var lo, hi := from, to;
    if lo < 0 {
      lo := 0;
    }
    if hi > |p.actions| {
      hi := |p.actions|;
    }
    if lo >= hi {
      return [], None;
    }
    results, err := RunClamped(p, cluster, lo, hi);
  }

  /** Its loop. */
  method RunClamped<S, D>(p: Pipeline<S, D>, cluster: Cluster<S, D>, lo: nat, hi: nat)
      returns (results: seq<Result<D>>, err: Option<Abort>)
    requires lo < hi <= |p.actions|
    modifies cluster
    ensures cluster.state == RunSpec(p, lo, hi, old(cluster.state)).state
    ensures results == RunSpec(p, lo, hi, old(cluster.state)).results
    ensures err == RunSpec(p, lo, hi, old(cluster.state)).err
    ensures (err.Some? && err.value.rolledBack) || cluster.reversals == old(cluster.reversals)
  {
    results := [];
    ghost var s0 := cluster.state;
    var i := lo;
    while i < hi
      invariant lo <= i <= hi
      invariant cluster.state == StateBefore(p, lo, i, s0)
      invariant results == ResultsOf(p, lo, i, s0)
      invariant forall j :: lo <= j < i ==> !AbortsAt(p, lo, j, s0)
      invariant cluster.reversals == old(cluster.reversals)
    {
      var act := p.actions[i];
      var done := RunOne(p.registry, act, p.target, p.metricValue, cluster.state);
      cluster.state := done.state;
      results := results + [done.result];
      assert done == ExecutionAt(p, lo, i, s0);
      if done.err.Some? {
        match act.onFailure
        case Continue =>
        case Rollback =>
          AbortedRange(p, lo, hi, lo, hi, i, s0);
          results := RollbackResults(p.registry, cluster, results);
          return results, Some(Abort(i, act.plugin, true, done.err.value));
        case _ =>
          AbortedRange(p, lo, hi, lo, hi, i, s0);
          return results, Some(Abort(i, act.plugin, false, done.err.value));
      }
      i := i + 1;
    }
    CompletedRange(p, lo, hi, lo, hi, s0);
    return results, None;
  }

  /** GateIndex: the first action that holds for approval, or -1. */
  method GateIndex(actions: seq<Action>) returns (g: int)
    ensures g == GateOf(actions)
  {
    for i := 0 to |actions|
      invariant forall j :: 0 <= j < i ==> !actions[j].requiresApproval
    {
      if actions[i].requiresApproval {
        GateOfIsFirst(actions, i);
        return i;
      }
    }
    GateOfIsFirst(actions, -1);
    return -1;
  }

  function GateOf(actions: seq<Action>): (g: int)
    ensures -1 <= g < |actions|
    ensures g == -1 ==> forall j :: 0 <= j < |actions| ==> !actions[j].requiresApproval
    ensures g >= 0 ==> actions[g].requiresApproval && forall j :: 0 <= j < g ==> !actions[j].requiresApproval
  {
    if actions == [] then -1
    else
      var n := |actions| - 1;
      var g := GateOf(actions[..n]);
      assert forall j :: 0 <= j < n ==> actions[..n][j] == actions[j];
      if g >= 0 then g else if actions[n].requiresApproval then n else -1
  }

  lemma {:induction false} GateOfIsFirst(actions: seq<Action>, g: int)
    requires -1 <= g < |actions|
    requires forall j :: 0 <= j < (if g >= 0 then g else |actions|) ==> !actions[j].requiresApproval
    requires g >= 0 ==> actions[g].requiresApproval
    ensures GateOf(actions) == g
  {
  }
}
