/**
 What the executor's halves, failure policies and undo add up to.
 */
module UndoLaw {
  import opened Common
  import opened Executor

  /*
   The abort rule, the order of a rollback, how a pipeline split at a gate relates to the whole one,
   and when undoing brings the cluster back to where it was.
  */

  // ---------------------------------------------------------------------------------------
  // When a run aborts, and what it reports
  // ---------------------------------------------------------------------------------------

  /** The same execution, whatever rollback wrote into its details. */
  ghost predicate SameExecution<D>(a: Result<D>, b: Result<D>) {
    a.plugin == b.plugin && a.target == b.target && a.status == b.status && a.message == b.message
    && a.details.payload == b.details.payload
  }

  lemma {:induction false} UndoResultAt<S, D>(reg: Registry<S, D>, rs: seq<Result<D>>, k: nat, s: S, j: nat)
    requires k <= j < |rs|
    ensures UndoResults(reg, rs, k, s)[j - k] == UndoOne(reg, rs[j], StateUndone(reg, rs, j + 1, s)).1
    decreases j - k
  {
    var rest := UndoResults(reg, rs, k + 1, s);
    assert UndoResults(reg, rs, k, s) == [UndoOne(reg, rs[k], StateUndone(reg, rs, k + 1, s)).1] + rest;
    if k < j {
      UndoResultAt(reg, rs, k + 1, s, j);
      assert UndoResults(reg, rs, k, s)[j - k] == rest[j - (k + 1)];
    }
  }

  lemma UndoneResultAt<S, D>(reg: Registry<S, D>, rs: seq<Result<D>>, s: S, j: nat)
    requires j < |rs|
    ensures SameExecution(Undo(reg, rs, s).results[j], rs[j])
  {
    UndoResultAt(reg, rs, 0, s, j);
  }

  lemma {:induction false} ResultOfRun<S, D>(p: Pipeline<S, D>, lo: nat, hi: nat, k: nat, s: S, j: nat)
    requires lo <= k <= hi <= |p.actions|
    requires j < |RunUntil(p, lo, hi, k, s).results|
    ensures lo + j < hi
    ensures SameExecution(RunUntil(p, lo, hi, k, s).results[j], ExecutionAt(p, lo, lo + j, s).result)
    ensures RunUntil(p, lo, hi, k, s).results[j].target == p.target
  {
    if k < hi && ExecutionAt(p, lo, k, s).err.Some? && p.actions[k].onFailure == Rollback {
      UndoneResultAt(p.registry, ResultsOf(p, lo, k + 1, s), StateBefore(p, lo, k + 1, s), j);
    }
  }

  /** Every run of a range obeys the abort rule over the clamped range: an error is returned exactly when
      some action fails whose policy is to stop, to roll back or left out, and names the first. The
      results are those of the actions executed, in order, all for this target. */
  lemma {:induction false} AbortCharacterisation<S, D>(p: Pipeline<S, D>, from: int, to: int, s: S)
    ensures var o := RunSpec(p, from, to, s);
            var lo := Max(from, 0);
            && AbortRule(p, lo, if to > |p.actions| then |p.actions| else to, s, |o.results|, o.err)
            && (forall j :: 0 <= j < |o.results| ==>
                  SameExecution(o.results[j], ExecutionAt(p, lo, lo + j, s).result) && o.results[j].target == p.target)
  {
    RunsByAbortRule(p, from, to, s);
    forall j | 0 <= j < |RunSpec(p, from, to, s).results| {
      ResultsAreTheExecutions(p, from, to, s, j);
    }
  }

  lemma {:induction false} ResultsAreTheExecutions<S, D>(p: Pipeline<S, D>, from: int, to: int, s: S, j: nat)
    requires j < |RunSpec(p, from, to, s).results|
    ensures Max(from, 0) + j < |p.actions|
    ensures SameExecution(RunSpec(p, from, to, s).results[j], ExecutionAt(p, Max(from, 0), Max(from, 0) + j, s).result)
    ensures RunSpec(p, from, to, s).results[j].target == p.target
  {
    var lo := Max(from, 0);
    var hi := if to > |p.actions| then |p.actions| else to;
    ResultOfRun(p, lo, hi, FirstAbort(p, lo, lo, hi, s), s, j);
  }

  /** The positions rollback reverses: exactly the succeeded entries whose plugin is registered,
      each once, strictly descending. */
  function UndoOrder<S, D>(reg: Registry<S, D>, rs: seq<Result<D>>, k: nat): (order: seq<nat>)
    requires k <= |rs|
    ensures forall i :: i in order <==> k <= i < |rs| && Undoable(reg, rs[i])
    ensures forall a, b :: 0 <= a < b < |order| ==> order[a] > order[b]
    decreases |rs| - k
  {
    if k == |rs| then []
    else
      var later := UndoOrder(reg, rs, k + 1);
      assert forall a :: 0 <= a < |later| ==> later[a] in later;
      if Undoable(reg, rs[k]) then later + [k] else later
  }

  lemma {:induction false} RollbackExactlyOnceDescending<S, D>(reg: Registry<S, D>, rs: seq<Result<D>>, k: nat)
    requires k <= |rs|
    ensures |ReverseCalls(reg, rs, k)| == |UndoOrder(reg, rs, k)|
    ensures forall i :: 0 <= i < |UndoOrder(reg, rs, k)| ==>
              UndoOrder(reg, rs, k)[i] in UndoOrder(reg, rs, k) && ReverseCalls(reg, rs, k)[i] == rs[UndoOrder(reg, rs, k)[i]]
    decreases |rs| - k
  {
    if k < |rs| {
      RollbackExactlyOnceDescending(reg, rs, k + 1);
    }
  }

  /** After a rollback an entry says that it was reversed exactly if it had succeeded, its plugin is
      registered and undid it on the cluster as the later entries' undoing had left it; if the plugin
      failed to, the entry carries its error; nothing else about an entry changes. */
  lemma {:induction false} RollbackAnnotates<S, D>(reg: Registry<S, D>, rs: seq<Result<D>>, s: S, j: nat)
    requires j < |rs|
    ensures var was, now, later := rs[j], Undo(reg, rs, s).results[j], StateUndone(reg, rs, j + 1, s);
            && SameExecution(was, now)
            && if was.status == Succeeded && was.plugin in reg then
                 var v := reg[was.plugin].reverse(later, was);
                 && StateUndone(reg, rs, j, s) == v.state
                 && now.details.reversed == (v.err.None? || was.details.reversed)
                 && now.details.rollbackError == (if v.err.Some? then v.err else was.details.rollbackError)
               else now == was && StateUndone(reg, rs, j, s) == later
  {
    UndoResultAt(reg, rs, 0, s, j);
  }

  /** What one execution reports: an unregistered plugin fails without touching the cluster; a registered one is
      executed once, with the action's own parameters, and what it says about itself stands; where it
      says nothing, it succeeded unless it returned an error. */
  lemma ExecutionReports<S, D>(reg: Registry<S, D>, act: Action, target: Target, metricValue: string, s: S)
    ensures var e := RunOne(reg, act, target, metricValue, s);
            && e.result.target == target && e.result.status != Unset
            && !e.result.details.reversed && e.result.details.rollbackError == None
            && if act.plugin !in reg then
                 e.state == s && e.err.Some? && e.result.status == Failed && e.result.plugin == act.plugin && e.result.details.payload == None
               else
                 var raw := reg[act.plugin].execute(s, Input(target := target, params := act.params, metricValue := metricValue));
                 && e.state == raw.state && (e.err.Some? <==> raw.err.Some?) && e.result.details.payload == raw.payload
                 && (raw.status != Unset ==> e.result.status == raw.status)
                 && (raw.status == Unset ==> (e.result.status == Succeeded <==> raw.err.None?) && e.result.status in {Succeeded, Failed})
                 && (e.result.plugin == raw.plugin || (raw.plugin == "" && e.result.plugin == act.plugin))
                 && (e.result.message == Said(raw.message) || (raw.message == "" && raw.err.Some? && e.result.message == Said(raw.err.value)))
                 && (raw.message == "" && raw.err.Some? ==> e.err == Some(e.result.message))
  {
  }

  // ---------------------------------------------------------------------------------------
  // The split pipeline
  // ---------------------------------------------------------------------------------------

  lemma {:induction false} StateBeforeSplits<S, D>(p: Pipeline<S, D>, from: nat, g: nat, i: nat, s: S)
    requires from <= g <= i <= |p.actions|
    ensures StateBefore(p, from, i, s) == StateBefore(p, g, i, StateBefore(p, from, g, s))
    decreases i
  {
    if g < i {
      StateBeforeSplits(p, from, g, i - 1, s);
    }
  }

  lemma {:induction false} ResultsOfSplits<S, D>(p: Pipeline<S, D>, from: nat, g: nat, i: nat, s: S)
    requires from <= g <= i <= |p.actions|
    ensures ResultsOf(p, from, i, s) == ResultsOf(p, from, g, s) + ResultsOf(p, g, i, StateBefore(p, from, g, s))
  {
    var s' := StateBefore(p, from, g, s);
    var whole, second := ResultsOf(p, from, i, s), ResultsOf(p, g, i, s');
    forall j | 0 <= j < i - from
      ensures whole[j] == (ResultsOf(p, from, g, s) + second)[j]
    {
      if j >= g - from {
        StateBeforeSplits(p, from, g, from + j, s);
        assert second[j - (g - from)] == ExecutionAt(p, g, from + j, s').result;
      }
    }
  }

  lemma {:induction false} StateUndoneAppend<S, D>(reg: Registry<S, D>, a: seq<Result<D>>, b: seq<Result<D>>, k: nat, s: S)
    requires k <= |a| + |b|
    ensures k >= |a| ==> StateUndone(reg, a + b, k, s) == StateUndone(reg, b, k - |a|, s)
    ensures k <= |a| ==> StateUndone(reg, a + b, k, s) == StateUndone(reg, a, k, StateUndone(reg, b, 0, s))
    decreases |a| + |b| - k
  {
    if k < |a| + |b| {
      StateUndoneAppend(reg, a, b, k + 1, s);
    }
  }

  lemma {:induction false} UndoResultsAppend<S, D>(reg: Registry<S, D>, a: seq<Result<D>>, b: seq<Result<D>>, k: nat, s: S)
    requires k <= |a| + |b|
    ensures k >= |a| ==> UndoResults(reg, a + b, k, s) == UndoResults(reg, b, k - |a|, s)
    ensures k <= |a| ==> UndoResults(reg, a + b, k, s)
                         == UndoResults(reg, a, k, StateUndone(reg, b, 0, s)) + UndoResults(reg, b, 0, s)
    decreases |a| + |b| - k
  {
    if k < |a| + |b| {
      UndoResultsAppend(reg, a, b, k + 1, s);
      StateUndoneAppend(reg, a, b, k + 1, s);
    }
  }

  /** Undoing a concatenation is undoing its second part, then its first. */
  lemma UndoAppend<S, D>(reg: Registry<S, D>, a: seq<Result<D>>, b: seq<Result<D>>, s: S)
    ensures var second := Undo(reg, b, s);
            var first := Undo(reg, a, second.state);
            Undo(reg, a + b, s) == UndoOutcome(first.state, first.results + second.results)
  {
    StateUndoneAppend(reg, a, b, 0, s);
    UndoResultsAppend(reg, a, b, 0, s);
  }

  /** What the two halves of a pipeline amount to, seen as one run. An aborted first half is the
      whole run already. A held half that rolls back leaves the first half alone, so the whole
      run differs in having undone that one too. */
  function Merged<S, D>(reg: Registry<S, D>, first: RunOutcome<S, D>, second: RunOutcome<S, D>): RunOutcome<S, D> {
    if first.err.Some? then first
    else if second.err.Some? && second.err.value.rolledBack then
      var undone := Undo(reg, first.results, second.state);
      RunOutcome(undone.state, undone.results + second.results, second.err)
    else RunOutcome(second.state, first.results + second.results, second.err)
  }

  /** A pipeline run as [0, g) and then [g, n) against the run as a whole. */
  lemma SplitRefinesWhole<S, D>(p: Pipeline<S, D>, g: nat, s: S)
    requires g <= |p.actions|
    ensures var first := RunSpec(p, 0, g, s);
            var second := RunSpec(p, g, |p.actions|, first.state);
            RunSpec(p, 0, |p.actions|, s) == Merged(p.registry, first, second)
  {
    var n := |p.actions|;
    var first := RunSpec(p, 0, g, s);
    if g == 0 {
      assert [] + RunSpec(p, 0, n, s).results == RunSpec(p, 0, n, s).results;
    } else if first.err.Some? {
      FirstAbortIs(p, 0, 0, FirstAbort(p, 0, 0, g, s), n, s);
    } else if g == n {
      assert first.results + [] == first.results;
    } else {
      SplitInside(p, g, s);
    }
  }

  lemma {:induction false} SameExecutions<S, D>(p: Pipeline<S, D>, g: nat, j: nat, s: S)
    requires g <= j < |p.actions|
    ensures ExecutionAt(p, 0, j, s) == ExecutionAt(p, g, j, StateBefore(p, 0, g, s))
  {
    StateBeforeSplits(p, 0, g, j, s);
  }

  lemma {:induction false} SplitInside<S, D>(p: Pipeline<S, D>, g: nat, s: S)
    requires 0 < g < |p.actions|
    requires FirstAbort(p, 0, 0, g, s) == g
    ensures var first := RunOutcome(StateBefore(p, 0, g, s), ResultsOf(p, 0, g, s), None);
            RunSpec(p, 0, |p.actions|, s) == Merged(p.registry, first, RunSpec(p, g, |p.actions|, first.state))
  {
    var n, s' := |p.actions|, StateBefore(p, 0, g, s);
    var k := FirstAbort(p, g, g, n, s');
    forall j | g <= j < n
      ensures AbortsAt(p, 0, j, s) == AbortsAt(p, g, j, s')
    {
      SameExecutions(p, g, j, s);
    }
    FirstAbortIs(p, 0, 0, k, n, s);
    MergeUntil(p, g, k, s);
  }

  lemma {:induction false} MergeUntil<S, D>(p: Pipeline<S, D>, g: nat, k: nat, s: S)
    requires 0 < g <= k <= |p.actions| && g < |p.actions|
    ensures var first := RunOutcome(StateBefore(p, 0, g, s), ResultsOf(p, 0, g, s), None);
            RunUntil(p, 0, |p.actions|, k, s) == Merged(p.registry, first, RunUntil(p, g, |p.actions|, k, first.state))
  {
    var n, s' := |p.actions|, StateBefore(p, 0, g, s);
    if k < n {
      SameExecutions(p, g, k, s);
    }
    var m := if k < n && ExecutionAt(p, g, k, s').err.Some? then k + 1 else n;
    StateBeforeSplits(p, 0, g, m, s);
    ResultsOfSplits(p, 0, g, m, s);
    UndoAppend(p.registry, ResultsOf(p, 0, g, s), ResultsOf(p, g, m, s'), StateBefore(p, g, m, s'));
  }

  // ---------------------------------------------------------------------------------------
  // Undoing restores
  // ---------------------------------------------------------------------------------------

  /** A plugin whose failed or skipped Execute changes nothing and whose Reverse inverts it. */
  ghost predicate PluginLawful<S(!new), D(!new)>(name: string, plugin: Plugin<S, D>) {
    forall s: S, inp: Input ::
      var raw := plugin.execute(s, inp);
      var r := Normalise(name, inp.target, raw);
      && r.plugin == name
      && (r.status == Succeeded ==> plugin.reverse(raw.state, r) == Reversal(s, None))
      && (r.status != Succeeded ==> raw.state == s)
  }

  ghost predicate Lawful<S(!new), D(!new)>(reg: Registry<S, D>) {
    forall name :: name in reg ==> PluginLawful(name, reg[name])
  }

  lemma UndoInvertsOne<S(!new), D(!new)>(reg: Registry<S, D>, act: Action, target: Target, metricValue: string, s: S)
    requires Lawful(reg)
    ensures var e := RunOne(reg, act, target, metricValue, s);
            && UndoOne(reg, e.result, e.state).0 == s
            && UndoOne(reg, e.result, e.state).1 ==
                 (if e.result.status == Succeeded then e.result.(details := e.result.details.(reversed := true)) else e.result)
  {
    if act.plugin in reg {
      assert PluginLawful(act.plugin, reg[act.plugin]);
      var raw := reg[act.plugin].execute(s, Input(target, act.params, metricValue));
      assert raw == RawResult(raw.state, raw.plugin, raw.status, raw.message, raw.payload, raw.err);
    }
  }

  /** Undoing everything a range executed, from the state it left, ends where it began. */
  lemma {:induction false} UndoInvertsRange<S(!new), D(!new)>(p: Pipeline<S, D>, from: nat, i: nat, s: S)
    requires Lawful(p.registry)
    requires from <= i <= |p.actions|
    ensures StateUndone(p.registry, ResultsOf(p, from, i, s), 0, StateBefore(p, from, i, s)) == s
    decreases i
  {
    if from < i {
      var e := ExecutionAt(p, from, i - 1, s);
      UndoInvertsOne(p.registry, p.actions[i - 1], p.target, p.metricValue, StateBefore(p, from, i - 1, s));
      StateUndoneAppend(p.registry, ResultsOf(p, from, i - 1, s), [e.result], 0, e.state);
      assert StateUndone(p.registry, [e.result], 1, e.state) == e.state;
      UndoInvertsRange(p, from, i - 1, s);
    }
  }

  /** A rolled back half leaves the cluster as that half found it. */
  lemma RollbackRestores<S(!new), D(!new)>(p: Pipeline<S, D>, from: int, to: int, s: S)
    requires Lawful(p.registry)
    ensures var o := RunSpec(p, from, to, s);
            o.err.Some? && o.err.value.rolledBack ==> o.state == s
  {
    var o := RunSpec(p, from, to, s);
    if o.err.Some? {
      UndoInvertsRange(p, Max(from, 0), o.err.value.index + 1, s);
    }
  }

  /** No entry was reversed, or had a failed attempt at it, when the results were written. */
  predicate Unmarked<D>(rs: seq<Result<D>>) {
    forall i :: 0 <= i < |rs| ==> !rs[i].details.reversed && rs[i].details.rollbackError.None?
  }

  lemma {:induction false} UndoOfNothing<S, D>(reg: Registry<S, D>, rs: seq<Result<D>>, k: nat, s: S)
    requires k <= |rs|
    requires forall i :: k <= i < |rs| ==> !Undoable(reg, rs[i])
    ensures StateUndone(reg, rs, k, s) == s
    decreases |rs| - k
  {
    if k < |rs| {
      UndoOfNothing(reg, rs, k + 1, s);
    }
  }

  lemma {:induction false} RolledBackUndone<S, D>(reg: Registry<S, D>, done: seq<Result<D>>, after: S)
    requires Unmarked(Undo(reg, done, after).results)
    ensures var u := Undo(reg, done, after);
            StateUndone(reg, u.results, 0, u.state) == u.state
  {
    var u := Undo(reg, done, after);
    forall i | 0 <= i < |u.results|
      ensures !Undoable(reg, u.results[i])
    {
      UndoResultAt(reg, done, 0, after, i);
    }
    UndoOfNothing(reg, u.results, 0, u.state);
  }

  /** One target's half, undone from its results as they were recorded. */
  lemma {:induction false} RunUndone<S(!new), D(!new)>(p: Pipeline<S, D>, from: int, to: int, s: S)
    requires Lawful(p.registry)
    requires Unmarked(RunSpec(p, from, to, s).results)
    ensures var o := RunSpec(p, from, to, s);
            StateUndone(p.registry, o.results, 0, o.state) == s
  {
    var o := RunSpec(p, from, to, s);
    var lo := Max(from, 0);
    var hi := if to > |p.actions| then |p.actions| else to;
    if lo < hi {
      var m := if o.err.Some? then o.err.value.index + 1 else hi;
      UndoInvertsRange(p, lo, m, s);
      if o.err.Some? && o.err.value.rolledBack {
        RolledBackUndone(p.registry, ResultsOf(p, lo, m, s), StateBefore(p, lo, m, s));
      }
    }
  }

  // ---------------------------------------------------------------------------------------
  // One half of a trigger over all its targets
  // ---------------------------------------------------------------------------------------

  /** Both reconcilers loop over the targets, run the range for each, collect every result and
      remember the last error. */
  function RunTargets<S, D>(p: Pipeline<S, D>, targets: seq<Target>, from: int, to: int, s: S): RunOutcome<S, D> {
    if targets == [] then RunOutcome(s, [], None)
    else
      var n := |targets| - 1;
      var before := RunTargets(p, targets[..n], from, to, s);
      var o := RunSpec(p.(target := targets[n]), from, to, before.state);
      RunOutcome(o.state, before.results + o.results, if o.err.Some? then o.err else before.err)
  }

  /** The loop itself. */
  method RunEach<S, D>(p: Pipeline<S, D>, cluster: Cluster<S, D>, targets: seq<Target>, from: int, to: int)
      returns (results: seq<Result<D>>, err: Option<Abort>)
    modifies cluster
    ensures RunOutcome(cluster.state, results, err) == RunTargets(p, targets, from, to, old(cluster.state))
  {
    results, err := [], None;
    for i := 0 to |targets|
      invariant RunOutcome(cluster.state, results, err) == RunTargets(p, targets[..i], from, to, old(cluster.state))
    {
      assert targets[..i + 1][..i] == targets[..i];
      var res, failed := RunRange(p.(target := targets[i]), cluster, from, to);
      results := results + res;
      if failed.Some? {
        err := failed;
      }
    }
    assert targets[..|targets|] == targets;
  }

  /** The blast radius: no result of a half names a target outside the given list. */
  lemma {:induction false} TargetsConfined<S, D>(p: Pipeline<S, D>, targets: seq<Target>, from: int, to: int, s: S)
    ensures forall i :: 0 <= i < |RunTargets(p, targets, from, to, s).results| ==>
              RunTargets(p, targets, from, to, s).results[i].target in targets
  {
    if targets != [] {
      var n := |targets| - 1;
      TargetsConfined(p, targets[..n], from, to, s);
      var before := RunTargets(p, targets[..n], from, to, s);
      forall i | 0 <= i < |RunSpec(p.(target := targets[n]), from, to, before.state).results| {
        ResultsAreTheExecutions(p.(target := targets[n]), from, to, before.state, i);
      }
    }
  }

  lemma {:induction false} TargetsUndone<S(!new), D(!new)>(p: Pipeline<S, D>, targets: seq<Target>, from: int, to: int, s: S)
    requires Lawful(p.registry)
    requires Unmarked(RunTargets(p, targets, from, to, s).results)
    ensures var o := RunTargets(p, targets, from, to, s);
            StateUndone(p.registry, o.results, 0, o.state) == s
  {
    if targets != [] {
      var n := |targets| - 1;
      var before := RunTargets(p, targets[..n], from, to, s);
      var o := RunSpec(p.(target := targets[n]), from, to, before.state);
      var all := before.results + o.results;
      assert Unmarked(before.results) by {
        assert forall i :: 0 <= i < |before.results| ==> before.results[i] == all[i];
      }
      assert Unmarked(o.results) by {
        assert forall i :: 0 <= i < |o.results| ==> o.results[i] == all[|before.results| + i];
      }
      RunUndone(p.(target := targets[n]), from, to, before.state);
      StateUndoneAppend(p.registry, before.results, o.results, 0, o.state);
      TargetsUndone(p, targets[..n], from, to, s);
    }
  }
}
