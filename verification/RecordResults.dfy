/**
 The results an audit record stands for, and what reverting it does.
 */
module RecordResults {
  import opened Common
  import opened Executor
  import opened UndoLaw
  import opened AuditRecord
  import opened RevertLaw
  import opened ApprovalApi
  import opened Protocol

  /** The results of the executions a record reports, in order; entries for actions that were not run
      report none. */
  function Reported(actions: seq<Record>): seq<Result<string>> {
    if actions == [] then []
    else
      var n := |actions| - 1;
      Reported(actions[..n]) + if actions[n].message.NotRun? then [] else [RecordToResult(actions[n])]
  }

  /** An entry says that its action was not run, or says rightly whether its plugin can undo itself. */
  predicate WellFlagged(rec: Record, reversible: set<string>) {
    if rec.message.NotRun? then rec.status == Skipped else rec.reversible == (rec.plugin in reversible)
  }

  predicate AllFlagged(actions: seq<Record>, reversible: set<string>) {
    forall i :: 0 <= i < |actions| ==> WellFlagged(actions[i], reversible)
  }

  /** The record stands for exactly these results. */
  predicate Reports(actions: seq<Record>, reversible: set<string>, rs: seq<Result<string>>) {
    Reported(actions) == rs && AllFlagged(actions, reversible)
  }

  /** No result claims that its action was not run. */
  predicate AllRan(rs: seq<Result<string>>) {
    forall i :: 0 <= i < |rs| ==> !rs[i].message.NotRun?
  }

  lemma {:induction false} ReportedAppend(a: seq<Record>, b: seq<Record>)
    ensures Reported(a + b) == Reported(a) + Reported(b)
  {
    if b == [] {
      assert a + b == a;
    } else {
      var n := |b| - 1;
      ReportedAppend(a, b[..n]);
      assert (a + b)[..|a + b| - 1] == a + b[..n];
    }
  }

  lemma {:induction false} ReportsAppend(a: seq<Record>, b: seq<Record>, reversible: set<string>, rs: seq<Result<string>>, qs: seq<Result<string>>)
    requires Reports(a, reversible, rs) && Reports(b, reversible, qs)
    ensures Reports(a + b, reversible, rs + qs)
  {
    ReportedAppend(a, b);
  }

  lemma {:induction false} RecordsReport(reversible: set<string>, offset: int, rs: seq<Result<string>>)
    requires AllRan(rs)
    ensures Reports(ToRecords(reversible, offset, rs), reversible, rs)
  {
    if rs != [] {
      var n := |rs| - 1;
      RecordsReport(reversible, offset, rs[..n]);
      var recs := ToRecords(reversible, offset, rs);
      assert recs[..n] == ToRecords(reversible, offset, rs[..n]);
      RecordRoundTrip(reversible, offset + n, rs[n]);
    }
  }

  lemma {:induction false} SkippedReportNothing(offset: nat, plugins: seq<string>, closing: Closing, reversible: set<string>)
    ensures Reports(SkippedRecords(offset, plugins, closing), reversible, [])
  {
    if plugins != [] {
      var n := |plugins| - 1;
      SkippedReportNothing(offset, plugins[..n], closing, reversible);
      var recs := SkippedRecords(offset, plugins, closing);
      assert recs[..n] == SkippedRecords(offset, plugins[..n], closing);
    }
  }

  // ---------------------------------------------------------------------------------------
  // Reverting a record
  // ---------------------------------------------------------------------------------------

  lemma {:induction false} RevertedAppend<S>(reg: Registry<S, string>, a: seq<Record>, b: seq<Record>, k: nat, s: S)
    requires k <= |a| + |b|
    ensures k >= |a| ==> StateReverted(reg, a + b, k, s) == StateReverted(reg, b, k - |a|, s)
    ensures k <= |a| ==> StateReverted(reg, a + b, k, s) == StateReverted(reg, a, k, StateReverted(reg, b, 0, s))
    decreases |a| + |b| - k
  {
    if k < |a| + |b| {
      RevertedAppend(reg, a, b, k + 1, s);
    }
  }

  lemma {:induction false} OneReverted<S>(reg: Registry<S, string>, rec: Record, s: S)
    requires WellFlagged(rec, ReversibleNames(reg)) && (rec.message.NotRun? || rec.plugin in ReversibleNames(reg))
    ensures StateReverted(reg, [rec], 0, s) == StateUndone(reg, Reported([rec]), 0, s)
  {
    assert StateReverted(reg, [rec], 1, s) == s;
    assert [rec][..0] == [] && Reported([]) == [];
    if rec.message.NotRun? {
      assert Reported([rec]) == [];
    } else {
      assert Reported([rec]) == [RecordToResult(rec)];
      assert StateUndone(reg, [RecordToResult(rec)], 1, s) == s;
    }
  }

  /** Reverting a record is undoing the results it reports. */
  lemma {:induction false} RevertUndoesReported<S>(reg: Registry<S, string>, actions: seq<Record>, s: S)
    requires AllFlagged(actions, ReversibleNames(reg)) && NamesIn(Reported(actions), ReversibleNames(reg))
    ensures StateReverted(reg, actions, 0, s) == StateUndone(reg, Reported(actions), 0, s)
    decreases |actions|
  {
    if actions != [] {
      var n := |actions| - 1;
      var init, last := actions[..n], [actions[n]];
      assert actions == init + last;
      ReportedAppend(init, last);
      assert last[..0] == [];
      if !actions[n].message.NotRun? {
        assert Reported(last) == [RecordToResult(actions[n])];
        assert Reported(actions)[|Reported(actions)| - 1] == RecordToResult(actions[n]);
      }
      assert NamesIn(Reported(init), ReversibleNames(reg)) by {
        assert forall i :: 0 <= i < |Reported(init)| ==> Reported(init)[i] == Reported(actions)[i];
      }
      OneReverted(reg, actions[n], s);
      RevertedAppend(reg, init, last, 0, s);
      StateUndoneAppend(reg, Reported(init), Reported(last), 0, s);
      RevertUndoesReported(reg, init, StateReverted(reg, last, 0, s));
    }
  }

  // ---------------------------------------------------------------------------------------
  // Results of a half
  // ---------------------------------------------------------------------------------------

  lemma {:induction false} RangeRan<S>(p: Pipeline<S, string>, from: int, to: int, s: S)
    ensures AllRan(RunSpec(p, from, to, s).results)
  {
    var rs := RunSpec(p, from, to, s).results;
    forall j | 0 <= j < |rs|
      ensures !rs[j].message.NotRun?
    {
      ResultsAreTheExecutions(p, from, to, s, j);
    }
  }

  lemma {:induction false} HalfRan<S>(p: Pipeline<S, string>, targets: seq<Target>, from: int, to: int, s: S)
    ensures AllRan(RunTargets(p, targets, from, to, s).results)
  {
    if targets != [] {
      var n := |targets| - 1;
      HalfRan(p, targets[..n], from, to, s);
      RangeRan(p.(target := targets[n]), from, to, RunTargets(p, targets[..n], from, to, s).state);
    }
  }
}
