/**
 The persisted audit record (internal/controller/auditwriter.go): how executor results become
 indexed records and back, and how `revert` replays their undo over the whole record
 (internal/controller/actionaudit_controller.go).
 */
module AuditRecord {
  import opened Common
  import opened Executor
  import opened UndoLaw
  import opened ReplayLaw

  /** One entry of spec.actions. `details` is absent when the result's Details map was empty. */
  datatype ActionRecord<D> = ActionRecord(
    index: int, plugin: string, target: Target, status: Status, message: Message,
    reversible: bool, details: Option<Details<D>>)

  datatype RevertResult = RevertResult(index: int, plugin: string, status: Status, message: Message)

  function ReversibleNames<S, D>(reg: Registry<S, D>): set<string> {
    set name | name in reg && reg[name].reversible
  }

  function ToRecord<D>(reversible: set<string>, index: int, res: Result<D>): ActionRecord<D> {
    var empty := res.details.payload.None? && !res.details.reversed && res.details.rollbackError.None?;
    ActionRecord(index, res.plugin, res.target, res.status, res.message, res.plugin in reversible,
                 if empty then None else Some(res.details))
  }

  function RecordToResult<D>(rec: ActionRecord<D>): Result<D> {
    Result(rec.plugin, rec.target, rec.status, rec.message,
           if rec.details.Some? then rec.details.value else Details(None, false, None))
  }

  /** The records of a list of results, numbered from `offset`. */
  function ToRecords<D>(reversible: set<string>, offset: int, rs: seq<Result<D>>): (recs: seq<ActionRecord<D>>)
    ensures |recs| == |rs|
    ensures forall i :: 0 <= i < |rs| ==> recs[i] == ToRecord(reversible, offset + i, rs[i])
  {
    if rs == [] then []
    else ToRecords(reversible, offset, rs[..|rs| - 1]) + [ToRecord(reversible, offset + |rs| - 1, rs[|rs| - 1])]
  }

  /** The loop both reconcilers append records with. */
  method AppendRecords<D>(reversible: set<string>, actions: seq<ActionRecord<D>>, results: seq<Result<D>>)
      returns (appended: seq<ActionRecord<D>>)
    ensures appended == actions + ToRecords(reversible, |actions|, results)
  {
    appended := actions;
    for i := 0 to |results|
      invariant appended == actions + ToRecords(reversible, |actions|, results[..i])
    {
      appended := appended + [ToRecord(reversible, |actions| + i, results[i])];
      assert results[..i + 1][..i] == results[..i];
    }
    assert results[..|results|] == results;
  }

  // ---------------------------------------------------------------------------------------
  // Revert
  // ---------------------------------------------------------------------------------------

  /** Records revert acts on. Unlike rollback it also asks whether the plugin can undo itself. */
  predicate Revertible<S, D>(reg: Registry<S, D>, rec: ActionRecord<D>) {
    rec.status == Succeeded && rec.reversible && rec.plugin in reg
  }

  function RevertOne<S, D>(reg: Registry<S, D>, rec: ActionRecord<D>, s: S): (S, RevertResult) {
    var out := (status: Status, message: Message) => RevertResult(rec.index, rec.plugin, status, message);
    if rec.status != Succeeded then (s, out(Skipped, NotSucceeded))
    else if !rec.reversible then (s, out(Skipped, NotReversible))
    else if rec.plugin !in reg then (s, out(Failed, NotRegistered))
    else
      var v := reg[rec.plugin].reverse(s, RecordToResult(rec));
      if v.err.Some? then (v.state, out(Failed, Said(v.err.value))) else (v.state, out(Succeeded, UndoDone))
  }

  /** The state once the records from position k on have been reverted, last first. */
  function StateReverted<S, D>(reg: Registry<S, D>, recs: seq<ActionRecord<D>>, k: nat, s: S): S
    requires k <= |recs|
    decreases |recs| - k
  {
    if k == |recs| then s else RevertOne(reg, recs[k], StateReverted(reg, recs, k + 1, s)).0
  }

  /** One outcome per record from position k on, last record first. */
  function RevertResults<S, D>(reg: Registry<S, D>, recs: seq<ActionRecord<D>>, k: nat, s: S): seq<RevertResult>
    requires k <= |recs|
    decreases |recs| - k
  {
    if k == |recs| then []
    else RevertResults(reg, recs, k + 1, s) + [RevertOne(reg, recs[k], StateReverted(reg, recs, k + 1, s)).1]
  }

  /** reverseOne */
  method ReverseOne<S, D>(reg: Registry<S, D>, cluster: Cluster<S, D>, rec: ActionRecord<D>) returns (out: RevertResult)
    modifies cluster
    ensures (cluster.state, out) == RevertOne(reg, rec, old(cluster.state))
    ensures OutcomeSays(reg, rec, old(cluster.state), out)
    ensures cluster.reversals == old(cluster.reversals) + if Revertible(reg, rec) then [RecordToResult(rec)] else []
  {
    out := RevertResult(rec.index, rec.plugin, Skipped, NotSucceeded);
    if rec.status != Succeeded {
      return;
    }
    if !rec.reversible {
      return out.(message := NotReversible);
    }
    if rec.plugin !in reg {
      return out.(status := Failed, message := NotRegistered);
    }
    cluster.reversals := cluster.reversals + [RecordToResult(rec)];
    var v := reg[rec.plugin].reverse(cluster.state, RecordToResult(rec));
    cluster.state := v.state;
    if v.err.Some? {
      return out.(status := Failed, message := Said(v.err.value));
    }
    return out.(status := Succeeded, message := UndoDone);
  }

  /** revert: replay every record's undo, last first, one outcome per record. */
  method Revert<S, D>(reg: Registry<S, D>, cluster: Cluster<S, D>, recs: seq<ActionRecord<D>>)
      returns (results: seq<RevertResult>)
    modifies cluster
    ensures cluster.state == StateReverted(reg, recs, 0, old(cluster.state))
    ensures results == RevertResults(reg, recs, 0, old(cluster.state))
    ensures |results| == |recs|
    ensures forall i :: 0 <= i < |recs| ==>
              OutcomeSays(reg, recs[i], StateReverted(reg, recs, i + 1, old(cluster.state)), results[|recs| - 1 - i])
  {
    RevertReports(reg, recs, 0, cluster.state);
    results := [];
    var i := |recs|;
    while i > 0
      invariant 0 <= i <= |recs|
      invariant cluster.state == StateReverted(reg, recs, i, old(cluster.state))
      invariant results == RevertResults(reg, recs, i, old(cluster.state))
    {
      i := i - 1;
      var out := ReverseOne(reg, cluster, recs[i]);
      results := results + [out];
    }
  }

  /** A revert reports one outcome per record, last record first, under its index and plugin: Succeeded if and
      only if the record is one of a success, reversible and registered, and its plugin undid it on the
      cluster as the records behind it had left it; Skipped if there was nothing to undo. */
  lemma {:induction false} RevertReports<S, D>(reg: Registry<S, D>, recs: seq<ActionRecord<D>>, k: nat, s: S)
    requires k <= |recs|
    ensures var out := RevertResults(reg, recs, k, s);
            |out| == |recs| - k
            && forall i :: k <= i < |recs| ==> OutcomeSays(reg, recs[i], StateReverted(reg, recs, i + 1, s), out[|recs| - 1 - i])
    decreases |recs| - k
  {
    if k < |recs| {
      RevertReports(reg, recs, k + 1, s);
      var rest, out := RevertResults(reg, recs, k + 1, s), RevertResults(reg, recs, k, s);
      forall i | k <= i < |recs|
        ensures OutcomeSays(reg, recs[i], StateReverted(reg, recs, i + 1, s), out[|recs| - 1 - i])
      {
        if i > k {
          assert out[|recs| - 1 - i] == rest[|recs| - 1 - i];
        }
      }
    }
  }

  ghost predicate OutcomeSays<S, D>(reg: Registry<S, D>, rec: ActionRecord<D>, s: S, out: RevertResult) {
    && out.index == rec.index && out.plugin == rec.plugin
    && (out.status == Succeeded <==>
          rec.status == Succeeded && rec.reversible && rec.plugin in reg && reg[rec.plugin].reverse(s, RecordToResult(rec)).err.None?)
    && (out.status == Skipped <==> rec.status != Succeeded || !rec.reversible)
    && (out.status == Failed <==>
          rec.status == Succeeded && rec.reversible
          && (rec.plugin in reg ==> reg[rec.plugin].reverse(s, RecordToResult(rec)).err.Some?))
  }

  /** The undo goes through the records from the last to the first, and only those reach the cluster. */
  lemma {:induction false} RevertedInTurn<S, D>(reg: Registry<S, D>, recs: seq<ActionRecord<D>>, i: nat, s: S)
    requires i < |recs|
    ensures var later := StateReverted(reg, recs, i + 1, s);
            StateReverted(reg, recs, i, s) ==
            if recs[i].status == Succeeded && recs[i].reversible && recs[i].plugin in reg
            then reg[recs[i].plugin].reverse(later, RecordToResult(recs[i])).state else later
  {
  }

  /** Nothing a plugin's Reverse reads is lost by persisting a result. */
  lemma RecordRoundTrip<D>(reversible: set<string>, index: int, res: Result<D>)
    ensures RecordToResult(ToRecord(reversible, index, res)) == res
    ensures var rec := ToRecord(reversible, index, res);
            && rec.index == index && (rec.reversible <==> res.plugin in reversible)
            && (rec.details.None? <==> res.details == Details(None, false, None))
  {
  }

  /** Every success came from a plugin that can undo itself. */
  predicate AllReversible<D>(recs: seq<ActionRecord<D>>) {
    forall i :: 0 <= i < |recs| && recs[i].status == Succeeded ==> recs[i].reversible
  }

  /** Over records that all say they are reversible, revert makes the same undo as a rollback of
      the results they were written from. */
  lemma {:induction false} RevertIsUndo<S, D>(reg: Registry<S, D>, offset: int, rs: seq<Result<D>>, k: nat, s: S)
    requires k <= |rs|
    requires AllReversible(ToRecords(ReversibleNames(reg), offset, rs))
    ensures StateReverted(reg, ToRecords(ReversibleNames(reg), offset, rs), k, s) == StateUndone(reg, rs, k, s)
    decreases |rs| - k
  {
    if k < |rs| {
      RevertIsUndo(reg, offset, rs, k + 1, s);
      RecordRoundTrip(ReversibleNames(reg), offset + k, rs[k]);
      assert ToRecords(ReversibleNames(reg), offset, rs)[k] == ToRecord(ReversibleNames(reg), offset + k, rs[k]);
    }
  }

  /** Both halves of a gated trigger over all its targets, written to one record and reverted
      once: the cluster is back in the state before the trigger, if no rollback came before or the
      plugins bear being reversed again. */
  lemma {:induction false} RevertRestoresTrigger<S(!new), D(!new)>(p: Pipeline<S, D>, targets: seq<Target>, g: nat, s: S)
    requires Lawful(p.registry)
    requires g <= |p.actions|
    requires var first := RunTargets(p, targets, 0, g, s);
             var held := RunTargets(p, targets, g, |p.actions|, first.state);
             ((Unmarked(first.results) && Unmarked(held.results)) || Replayable(p.registry))
             && AllReversible(ToRecords(ReversibleNames(p.registry), 0, first.results + held.results))
    ensures var first := RunTargets(p, targets, 0, g, s);
            var held := RunTargets(p, targets, g, |p.actions|, first.state);
            StateReverted(p.registry, ToRecords(ReversibleNames(p.registry), 0, first.results + held.results), 0, held.state) == s
  {
    var first := RunTargets(p, targets, 0, g, s);
    var held := RunTargets(p, targets, g, |p.actions|, first.state);
    RevertIsUndo(p.registry, 0, first.results + held.results, 0, held.state);
    StateUndoneAppend(p.registry, first.results, held.results, 0, held.state);
    if Replayable(p.registry) {
      TargetsUndoneAnyway(p, targets, g, |p.actions|, first.state);
      TargetsUndoneAnyway(p, targets, 0, g, s);
    } else {
      TargetsUndone(p, targets, g, |p.actions|, first.state);
      TargetsUndone(p, targets, 0, g, s);
    }
  }

  // ---------------------------------------------------------------------------------------
  // Why an already rolled back record is excluded
  // ---------------------------------------------------------------------------------------

  const STEP: Plugin<int, string> := Plugin(
    (s: int, inp: Input) => RawResult(s + 1, "", Succeeded, "", Some("step"), None),
    (s: int, r: Result<string>) => Reversal(s - 1, None),
    true)

  const FAIL: Plugin<int, string> := Plugin(
    (s: int, inp: Input) => RawResult(s, "", Failed, "", None, Some("boom")),
    (s: int, r: Result<string>) => Reversal(s, None),
    true)

  const REGISTRY: Registry<int, string> := map["step" := STEP, "fail" := FAIL]

  function StepThenFail(target: Target): Pipeline<int, string> {
    Pipeline(REGISTRY, [Action("step", "", Stop, false), Action("fail", "", Rollback, false)], target, "")
  }

  function RolledBackResults(target: Target): seq<Result<string>> {
    [Result("step", target, Succeeded, Said(""), Details(Some("step"), true, None)),
     Result("fail", target, Failed, Said("boom"), Details(None, false, None))]
  }

  lemma StepThenFailRollsBack(target: Target)
    ensures RunSpec(StepThenFail(target), 0, 2, 0) ==
            RunOutcome(0, RolledBackResults(target), Some(Abort(1, "fail", true, Said("boom"))))
  {
    var p := StepThenFail(target);
    var done0 := Result("step", target, Succeeded, Said(""), Details(Some("step"), false, None));
    var done1 := Result("fail", target, Failed, Said("boom"), Details(None, false, None));
    assert ExecutionAt(p, 0, 0, 0) == Executed(1, done0, None);
    assert ExecutionAt(p, 0, 1, 0) == Executed(1, done1, Some(Said("boom")));
    FirstAbortIs(p, 0, 0, 1, 2, 0);
    var rs := [done0, done1];
    assert ResultsOf(p, 0, 2, 0) == rs by {
      assert ResultsOf(p, 0, 1, 0) == [done0];
    }
    assert StateUndone(REGISTRY, rs, 1, 1) == 1;
    assert UndoResults(REGISTRY, rs, 1, 1) == [done1];
    assert UndoResults(REGISTRY, rs, 0, 1) == RolledBackResults(target);
  }

  /** Rollback leaves the status of what it reversed at Succeeded, so a later revert of the same
      record reverses it a second time. */
  lemma {:induction false} RevertAfterRollbackReversesTwice(target: Target)
    ensures var o := RunSpec(StepThenFail(target), 0, 2, 0);
            var recs := ToRecords(ReversibleNames(REGISTRY), 0, o.results);
            Lawful(REGISTRY) && AllReversible(recs) && !Unmarked(o.results)
            && o.state == 0 && StateReverted(REGISTRY, recs, 0, o.state) == -1
  {
    StepThenFailRollsBack(target);
    var rs := RolledBackResults(target);
    var recs := ToRecords(ReversibleNames(REGISTRY), 0, rs);
    assert rs[0].details.reversed;
    assert StateReverted(REGISTRY, recs, 1, 0) == 0;
  }
}
