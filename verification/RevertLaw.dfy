/**
 Reverting a whole trigger: when every action's plugin can undo itself, one revert of the record
 undoes both halves.
 */
module RevertLaw {
  import opened Common
  import opened Executor
  import opened UndoLaw
  import opened ReplayLaw
  import opened AuditRecord

  /** Only plugins of the policy's own actions appear among the results of a run. */
  lemma {:induction false} ResultsNameTheActions<S(!new), D(!new)>(p: Pipeline<S, D>, lo: nat, k: nat, s: S)
    requires Lawful(p.registry) && lo <= k < |p.actions|
    ensures ExecutionAt(p, lo, k, s).result.plugin == p.actions[k].plugin
  {
    NamesItself(p.registry, p.actions[k], p.target, p.metricValue, StateBefore(p, lo, k, s));
  }

  lemma NamesItself<S(!new), D(!new)>(reg: Registry<S, D>, act: Action, target: Target, metricValue: string, s: S)
    requires Lawful(reg)
    ensures RunOne(reg, act, target, metricValue, s).result.plugin == act.plugin
  {
    if act.plugin in reg {
      assert PluginLawful(act.plugin, reg[act.plugin]);
      var raw := reg[act.plugin].execute(s, Input(target, act.params, metricValue));
      assert raw == RawResult(raw.state, raw.plugin, raw.status, raw.message, raw.payload, raw.err);
    }
  }

  ghost predicate NamesIn<D>(rs: seq<Result<D>>, names: set<string>) {
    forall i :: 0 <= i < |rs| ==> rs[i].plugin in names
  }

  lemma RunNames<S(!new), D(!new)>(p: Pipeline<S, D>, from: int, to: int, s: S, names: set<string>)
    requires Lawful(p.registry) && forall i :: 0 <= i < |p.actions| ==> p.actions[i].plugin in names
    ensures NamesIn(RunSpec(p, from, to, s).results, names)
  {
    var rs := RunSpec(p, from, to, s).results;
    forall j | 0 <= j < |rs|
      ensures rs[j].plugin in names
    {
      ResultsAreTheExecutions(p, from, to, s, j);
      ResultsNameTheActions(p, Max(from, 0), Max(from, 0) + j, s);
    }
  }

  lemma NamesAppend<D>(a: seq<Result<D>>, b: seq<Result<D>>, names: set<string>)
    requires NamesIn(a, names) && NamesIn(b, names)
    ensures NamesIn(a + b, names)
  {
  }

  lemma {:induction false} HalfNames<S(!new), D(!new)>(p: Pipeline<S, D>, targets: seq<Target>, from: int, to: int, s: S, names: set<string>)
    requires Lawful(p.registry) && forall i :: 0 <= i < |p.actions| ==> p.actions[i].plugin in names
    ensures NamesIn(RunTargets(p, targets, from, to, s).results, names)
  {
    if targets != [] {
      var n := |targets| - 1;
      HalfNames(p, targets[..n], from, to, s, names);
      var before := RunTargets(p, targets[..n], from, to, s);
      RunNames(p.(target := targets[n]), from, to, before.state, names);
      NamesAppend(before.results, RunSpec(p.(target := targets[n]), from, to, before.state).results, names);
    }
  }

  lemma {:induction false} NamedReversible<S, D>(reg: Registry<S, D>, rs: seq<Result<D>>)
    requires NamesIn(rs, ReversibleNames(reg))
    ensures AllReversible(ToRecords(ReversibleNames(reg), 0, rs))
  {
    var recs := ToRecords(ReversibleNames(reg), 0, rs);
    assert forall i :: 0 <= i < |recs| ==> recs[i] == ToRecord(ReversibleNames(reg), i, rs[i]);
  }

  /** Neither half of the trigger, split at g, left a mark of a rollback in its results. */
  ghost predicate NothingRolledBack<S, D>(p: Pipeline<S, D>, targets: seq<Target>, g: nat, s: S) {
    var first := RunTargets(p, targets, 0, g, s);
    Unmarked(first.results) && Unmarked(RunTargets(p, targets, g, |p.actions|, first.state).results)
  }

  /** The state after the trigger's one record was reverted. */
  ghost function AfterRevert<S, D>(p: Pipeline<S, D>, targets: seq<Target>, g: nat, s: S): S {
    var first := RunTargets(p, targets, 0, g, s);
    var held := RunTargets(p, targets, g, |p.actions|, first.state);
    StateReverted(p.registry, ToRecords(ReversibleNames(p.registry), 0, first.results + held.results), 0, held.state)
  }

  /** Both halves of a trigger, split anywhere and run over any targets, whose plugins meet the undo
      law and say they are reversible: one revert of the record restores the state before the
      trigger, if no failure has rolled a part of it back or the plugins bear being reversed again. */
  lemma ReversibleTriggerReverts<S(!new), D(!new)>(p: Pipeline<S, D>, targets: seq<Target>, g: nat, s: S)
    requires Lawful(p.registry) && g <= |p.actions|
    requires forall i :: 0 <= i < |p.actions| ==> p.actions[i].plugin in ReversibleNames(p.registry)
    requires NothingRolledBack(p, targets, g, s) || Replayable(p.registry)
    ensures AfterRevert(p, targets, g, s) == s
  {
    var first := RunTargets(p, targets, 0, g, s);
    var held := RunTargets(p, targets, g, |p.actions|, first.state);
    var names := ReversibleNames(p.registry);
    HalfNames(p, targets, 0, g, s, names);
    HalfNames(p, targets, g, |p.actions|, first.state, names);
    NamesAppend(first.results, held.results, names);
    NamedReversible(p.registry, first.results + held.results);
    RevertRestoresTrigger(p, targets, g, s);
  }

  // ---------------------------------------------------------------------------------------
  // What a single action needs
  // ---------------------------------------------------------------------------------------

  /** An action, and then one that fails and asks for a rollback, because nobody registered it. */
  function ThenBroken<S, D>(reg: Registry<S, D>, act: Action, broken: string, target: Target, metricValue: string): Pipeline<S, D> {
    Pipeline(reg, [act, Action(broken, "", Rollback, false)], target, metricValue)
  }

  lemma {:induction false} ThenBrokenRuns<S(!new), D(!new)>(reg: Registry<S, D>, act: Action, broken: string, target: Target, metricValue: string, s: S)
    requires broken !in reg && act.onFailure == Continue
    ensures var p := ThenBroken(reg, act, broken, target, metricValue);
            var e := RunOne(reg, act, target, metricValue, s);
            var failed := Result(broken, target, Failed, NotRegistered, Details(None, false, None));
            && ResultsOf(p, 0, 2, s) == [e.result, failed] && StateBefore(p, 0, 2, s) == e.state
            && FirstAbort(p, 0, 0, 2, s) == 1
  {
    var p := ThenBroken(reg, act, broken, target, metricValue);
    var e := RunOne(reg, act, target, metricValue, s);
    assert StateBefore(p, 0, 0, s) == s;
    assert ExecutionAt(p, 0, 0, s) == e;
    assert StateBefore(p, 0, 1, s) == e.state;
    assert ExecutionAt(p, 0, 1, s).state == e.state;
    assert ResultsOf(p, 0, 1, s) == [e.result];
    FirstAbortIs(p, 0, 0, 1, 2, s);
  }

  lemma ThenBrokenRollsBack<S(!new), D(!new)>(reg: Registry<S, D>, act: Action, broken: string, target: Target, metricValue: string, s: S)
    requires Lawful(reg) && broken !in reg && act.onFailure == Continue
    ensures var p := ThenBroken(reg, act, broken, target, metricValue);
            var e := RunOne(reg, act, target, metricValue, s);
            var o := RunSpec(p, 0, 2, s);
            && o.state == s && |o.results| == 2
            && SameExecution(o.results[0], e.result) && o.results[1].status == Failed
  {
    var p := ThenBroken(reg, act, broken, target, metricValue);
    var e := RunOne(reg, act, target, metricValue, s);
    ThenBrokenRuns(reg, act, broken, target, metricValue, s);
    var done := ResultsOf(p, 0, 2, s);
    assert RunSpec(p, 0, 2, s) == RunUntil(p, 0, 2, 1, s);
    UndoInvertsRange(p, 0, 2, s);
    UndoneResultAt(reg, done, e.state, 0);
    UndoneResultAt(reg, done, e.state, 1);
  }

  lemma {:induction false} OneTarget<S, D>(p: Pipeline<S, D>, s: S)
    requires |p.actions| == 2
    ensures RunTargets(p, [p.target], 0, 2, s) == RunSpec(p, 0, 2, s).(err := RunTargets(p, [p.target], 0, 2, s).err)
    ensures RunTargets(p, [p.target], 2, 2, s) == RunOutcome(s, [], None)
  {
    assert [p.target][..0] == [];
    assert p.(target := [p.target][0]) == p;
    assert RunTargets(p, [], 0, 2, s) == RunOutcome(s, [], None);
    assert RunTargets(p, [], 2, 2, s) == RunOutcome(s, [], None);
    assert [] + RunSpec(p, 0, 2, s).results == RunSpec(p, 0, 2, s).results;
  }

  lemma {:induction false} PairReverted<S, D>(reg: Registry<S, D>, rs: seq<Result<D>>, s: S)
    requires |rs| == 2 && rs[1].status == Failed && rs[0].plugin in ReversibleNames(reg)
    ensures StateReverted(reg, ToRecords(ReversibleNames(reg), 0, rs), 0, s) == UndoOne(reg, rs[0], s).0
  {
    var recs := ToRecords(ReversibleNames(reg), 0, rs);
    assert recs[0] == ToRecord(ReversibleNames(reg), 0, rs[0]) && recs[1] == ToRecord(ReversibleNames(reg), 1, rs[1]);
    RevertIsUndo(reg, 0, rs, 0, s);
    assert StateUndone(reg, rs, 2, s) == s;
    assert StateUndone(reg, rs, 1, s) == s;
  }

  lemma RevertOfPair<S(!new), D(!new)>(p: Pipeline<S, D>, s: S)
    requires |p.actions| == 2
    requires var o := RunSpec(p, 0, 2, s);
             o.state == s && |o.results| == 2 && o.results[1].status == Failed && o.results[0].plugin in ReversibleNames(p.registry)
    ensures AfterRevert(p, [p.target], 2, s) == UndoOne(p.registry, RunSpec(p, 0, 2, s).results[0], s).0
  {
    var rs := RunSpec(p, 0, 2, s).results;
    OneTarget(p, s);
    assert rs + [] == rs;
    PairReverted(p.registry, rs, s);
  }

  /** Reverting the rolled back pair is reversing the action's execution once more, in the state the
      rollback restored. */
  lemma RevertOfBroken<S(!new), D(!new)>(reg: Registry<S, D>, act: Action, broken: string, target: Target, metricValue: string, s: S)
    requires Lawful(reg) && broken !in reg && act.onFailure == Continue
    requires act.plugin in ReversibleNames(reg) && IgnoresMarks(reg[act.plugin])
    ensures var r := RunOne(reg, act, target, metricValue, s).result;
            AfterRevert(ThenBroken(reg, act, broken, target, metricValue), [target], 2, s) ==
            if r.status == Succeeded then reg[act.plugin].reverse(s, r).state else s
  {
    ThenBrokenRollsBack(reg, act, broken, target, metricValue, s);
    NamesItself(reg, act, target, metricValue, s);
    RevertOfPair(ThenBroken(reg, act, broken, target, metricValue), s);
  }

  ghost predicate RevertHarmless<S(!new), D(!new)>(reg: Registry<S, D>, act: Action, broken: string, target: Target, metricValue: string, s: S) {
    AfterRevert(ThenBroken(reg, act, broken, target, metricValue), [target], 2, s) == s
  }

  /** A plugin's single actions bear a revert after a rollback exactly when what it undid stays undone. */
  lemma SingleActionsBearRevertExactly<S(!new), D(!new)>(reg: Registry<S, D>, name: string, broken: string)
    requires Lawful(reg) && broken !in reg && name in ReversibleNames(reg) && IgnoresMarks(reg[name])
    ensures (forall params: string, target: Target, metricValue: string, s: S ::
               RevertHarmless(reg, Action(name, params, Continue, false), broken, target, metricValue, s))
            <==> UndoneStays(name, reg[name])
  {
    var harmless := forall params: string, target: Target, metricValue: string, s: S ::
      RevertHarmless(reg, Action(name, params, Continue, false), broken, target, metricValue, s);
    if harmless {
      forall s: S, inp: Input
        ensures var r := Normalise(name, inp.target, reg[name].execute(s, inp));
                r.status == Succeeded ==> reg[name].reverse(s, r).state == s
      {
        var act := Action(name, inp.params, Continue, false);
        assert inp == Input(inp.target, inp.params, inp.metricValue);
        assert RevertHarmless(reg, act, broken, inp.target, inp.metricValue, s);
        RevertOfBroken(reg, act, broken, inp.target, inp.metricValue, s);
      }
    }
    if UndoneStays(name, reg[name]) {
      forall params: string, target: Target, metricValue: string, s: S
        ensures RevertHarmless(reg, Action(name, params, Continue, false), broken, target, metricValue, s)
      {
        RevertOfBroken(reg, Action(name, params, Continue, false), broken, target, metricValue, s);
      }
    }
  }
}
