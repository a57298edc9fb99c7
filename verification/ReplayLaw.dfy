/**
 Reverting a trigger of which a rollback has already undone a part.
 */
module ReplayLaw {
  import opened Common
  import opened Executor
  import opened UndoLaw

  /*
   A rollback leaves what it reversed at Succeeded, so a later revert hands the same records to
   Reverse again, in a state in which they are already undone. That does harm in general. It does
   none when Reverse overwrites rather than counts: once undone stays undone, and two states that
   one reversal makes equal stay so under whatever other reversals come in between.
  */

  /** Reverse does not look at what a rollback wrote into the details. */
  ghost predicate IgnoresMarks<S(!new), D(!new)>(plugin: Plugin<S, D>) {
    forall s: S, a: Result<D>, b: Result<D> :: SameExecution(a, b) ==> plugin.reverse(s, a).state == plugin.reverse(s, b).state
  }

  /** Reversing an execution in the state it started from changes nothing. */
  ghost predicate UndoneStays<S(!new), D(!new)>(name: string, plugin: Plugin<S, D>) {
    forall s: S, inp: Input ::
      var r := Normalise(name, inp.target, plugin.execute(s, inp));
      r.status == Succeeded ==> plugin.reverse(s, r).state == s
  }

  ghost predicate StaysMerged<S(!new), D(!new)>(plugin: Plugin<S, D>, other: Plugin<S, D>, r: Result<D>, q: Result<D>, x: S, y: S) {
    plugin.reverse(x, r).state == plugin.reverse(y, r).state ==>
      plugin.reverse(other.reverse(x, q).state, r).state == plugin.reverse(other.reverse(y, q).state, r).state
  }

  /** What a reversal by `plugin` makes equal, it makes equal after any reversal by `other`, too. */
  ghost predicate Overwrites<S(!new), D(!new)>(plugin: Plugin<S, D>, other: Plugin<S, D>) {
    forall r: Result<D>, q: Result<D>, x: S, y: S :: StaysMerged(plugin, other, r, q, x, y)
  }

  ghost predicate Replayable<S(!new), D(!new)>(reg: Registry<S, D>) {
    && (forall name :: name in reg ==> IgnoresMarks(reg[name]) && UndoneStays(name, reg[name]))
    && (forall name, other :: name in reg && other in reg ==> Overwrites(reg[name], reg[other]))
  }

  // ---------------------------------------------------------------------------------------
  // Undoing a range again
  // ---------------------------------------------------------------------------------------

  lemma {:induction false} MarksDoNotMatter<S(!new), D(!new)>(reg: Registry<S, D>, a: seq<Result<D>>, b: seq<Result<D>>, k: nat, s: S)
    requires Replayable(reg) && |a| == |b| && k <= |a|
    requires forall i :: 0 <= i < |a| ==> SameExecution(a[i], b[i])
    ensures StateUndone(reg, a, k, s) == StateUndone(reg, b, k, s)
    decreases |a| - k
  {
    if k < |a| {
      MarksDoNotMatter(reg, a, b, k + 1, s);
      assert SameExecution(a[k], b[k]);
      if Undoable(reg, a[k]) {
        assert IgnoresMarks(reg[a[k].plugin]);
      }
    }
  }

  lemma {:induction false} StaysEqual<S(!new), D(!new)>(reg: Registry<S, D>, r: Result<D>, rs: seq<Result<D>>, k: nat, x: S, y: S)
    requires Replayable(reg) && r.plugin in reg && k <= |rs|
    requires reg[r.plugin].reverse(x, r).state == reg[r.plugin].reverse(y, r).state
    ensures reg[r.plugin].reverse(StateUndone(reg, rs, k, x), r).state == reg[r.plugin].reverse(StateUndone(reg, rs, k, y), r).state
    decreases |rs| - k
  {
    if k < |rs| {
      StaysEqual(reg, r, rs, k + 1, x, y);
      if Undoable(reg, rs[k]) {
        assert Overwrites(reg[r.plugin], reg[rs[k].plugin]);
        assert StaysMerged(reg[r.plugin], reg[rs[k].plugin], r, rs[k], StateUndone(reg, rs, k + 1, x), StateUndone(reg, rs, k + 1, y));
      }
    }
  }

  /** What one action recorded, reversed where it started from. */
  lemma OneUndoneAgain<S(!new), D(!new)>(reg: Registry<S, D>, act: Action, target: Target, metricValue: string, s: S)
    requires Lawful(reg) && Replayable(reg)
    ensures var r := RunOne(reg, act, target, metricValue, s).result;
            UndoOne(reg, r, s).0 == s
  {
    if act.plugin in reg {
      assert PluginLawful(act.plugin, reg[act.plugin]) && UndoneStays(act.plugin, reg[act.plugin]);
      var raw := reg[act.plugin].execute(s, Input(target, act.params, metricValue));
      assert raw == RawResult(raw.state, raw.plugin, raw.status, raw.message, raw.payload, raw.err);
    }
  }

  /** Undoing a range in the state it started from changes nothing. */
  lemma {:induction false} RangeUndoneAgain<S(!new), D(!new)>(p: Pipeline<S, D>, from: nat, i: nat, s: S)
    requires Lawful(p.registry) && Replayable(p.registry)
    requires from <= i <= |p.actions|
    ensures StateUndone(p.registry, ResultsOf(p, from, i, s), 0, s) == s
    decreases i - from
  {
    if from < i {
      var e := RunOne(p.registry, p.actions[from], p.target, p.metricValue, s);
      FirstOfRange(p, from, i, s);
      RangeUndoneAgain(p, from + 1, i, e.state);
      FirstUndoneAgain(p.registry, p.actions[from], p.target, p.metricValue, ResultsOf(p, from + 1, i, e.state), s);
    }
  }

  lemma {:induction false} FirstOfRange<S, D>(p: Pipeline<S, D>, from: nat, i: nat, s: S)
    requires from < i <= |p.actions|
    ensures var e := RunOne(p.registry, p.actions[from], p.target, p.metricValue, s);
            var rest := ResultsOf(p, from + 1, i, e.state);
            StateUndone(p.registry, ResultsOf(p, from, i, s), 0, s) ==
            StateUndone(p.registry, [e.result], 0, StateUndone(p.registry, rest, 0, s))
  {
    var e := RunOne(p.registry, p.actions[from], p.target, p.metricValue, s);
    assert StateBefore(p, from, from, s) == s;
    assert ExecutionAt(p, from, from, s) == e;
    assert StateBefore(p, from, from + 1, s) == e.state;
    assert ResultsOf(p, from, from, s) == [];
    assert ResultsOf(p, from, from + 1, s) == [e.result];
    ResultsOfSplits(p, from, from + 1, i, s);
    StateUndoneAppend(p.registry, [e.result], ResultsOf(p, from + 1, i, e.state), 0, s);
  }

  lemma {:induction false} FirstUndoneAgain<S(!new), D(!new)>(reg: Registry<S, D>, act: Action, target: Target, metricValue: string,
                                              rest: seq<Result<D>>, s: S)
    requires Lawful(reg) && Replayable(reg)
    requires var e := RunOne(reg, act, target, metricValue, s);
             StateUndone(reg, rest, 0, e.state) == e.state
    ensures var e := RunOne(reg, act, target, metricValue, s);
            StateUndone(reg, [e.result], 0, StateUndone(reg, rest, 0, s)) == s
  {
    var e := RunOne(reg, act, target, metricValue, s);
    var before := StateUndone(reg, rest, 0, s);
    UndoInvertsOne(reg, act, target, metricValue, s);
    OneUndoneAgain(reg, act, target, metricValue, s);
    if Undoable(reg, e.result) {
      StaysEqual(reg, e.result, rest, 0, s, e.state);
    }
    assert StateUndone(reg, [e.result], 1, before) == before;
    assert StateUndone(reg, [e.result], 0, before) == UndoOne(reg, e.result, before).0;
  }

  // ---------------------------------------------------------------------------------------
  // A half of a trigger
  // ---------------------------------------------------------------------------------------

  /** One target's half, undone from its results, whether or not a rollback came first. */
  lemma {:induction false} RunUndoneAnyway<S(!new), D(!new)>(p: Pipeline<S, D>, from: int, to: int, s: S)
    requires Lawful(p.registry) && Replayable(p.registry)
    ensures var o := RunSpec(p, from, to, s);
            StateUndone(p.registry, o.results, 0, o.state) == s
  {
    var o := RunSpec(p, from, to, s);
    var lo := Max(from, 0);
    var hi := if to > |p.actions| then |p.actions| else to;
    if lo < hi {
      var m := if o.err.Some? then o.err.value.index + 1 else hi;
      UndoInvertsRange(p, lo, m, s);
      if o.err.Some? && o.err.value.rolledBack {
        RollbackUndoneAgain(p, lo, m, s);
      }
    }
  }

  lemma {:induction false} RollbackUndoneAgain<S(!new), D(!new)>(p: Pipeline<S, D>, lo: nat, m: nat, s: S)
    requires Lawful(p.registry) && Replayable(p.registry) && lo <= m <= |p.actions|
    ensures var u := Undo(p.registry, ResultsOf(p, lo, m, s), StateBefore(p, lo, m, s));
            StateUndone(p.registry, u.results, 0, u.state) == s
  {
    var done, after := ResultsOf(p, lo, m, s), StateBefore(p, lo, m, s);
    var u := Undo(p.registry, done, after);
    UndoInvertsRange(p, lo, m, s);
    forall i | 0 <= i < |done|
      ensures SameExecution(u.results[i], done[i])
    {
      UndoneResultAt(p.registry, done, after, i);
    }
    MarksDoNotMatter(p.registry, u.results, done, 0, s);
    RangeUndoneAgain(p, lo, m, s);
  }

  lemma {:induction false} TargetsUndoneAnyway<S(!new), D(!new)>(p: Pipeline<S, D>, targets: seq<Target>, from: int, to: int, s: S)
    requires Lawful(p.registry) && Replayable(p.registry)
    ensures var o := RunTargets(p, targets, from, to, s);
            StateUndone(p.registry, o.results, 0, o.state) == s
  {
    if targets != [] {
      var n := |targets| - 1;
      var before := RunTargets(p, targets[..n], from, to, s);
      var o := RunSpec(p.(target := targets[n]), from, to, before.state);
      RunUndoneAnyway(p.(target := targets[n]), from, to, before.state);
      TargetsUndoneAnyway(p, targets[..n], from, to, s);
      StateUndoneAppend(p.registry, before.results, o.results, 0, o.state);
    }
  }
}
