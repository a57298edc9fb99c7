/**
 Why a lost release attempt is excluded from what a revert promises. A policy's only action waits for
 approval and adds one to the cluster. The first release attempt runs it, and the write of its
 result fails, so the record knows nothing of it. The second attempt runs it again and is recorded.
 Then the record is reverted: its plugins are lawful, no rollback has left a mark on it and nothing
 else touches the cluster, and still the first attempt's addition stays behind.
 */
module LostAttempt {
  import opened Common
  import opened Executor
  import opened UndoLaw
  import opened AuditRecord
  import opened RateLimiter
  import opened ApprovalApi
  import opened Protocol
  import opened RecordResults
  import opened RunReverts

  const ON := Target("", "", "", "n")

  const CONFIG := Config(0, 0, 60, 1, 1, DEFAULT_RETENTION, 60, 0, ["step"], "u", "n", ReversibleNames(REGISTRY))

  const PIPELINE: Pipeline<int, string> := Pipeline(REGISTRY, [Action("step", "", Stop, true)], ON, "")

  const RAN: Result<string> := Result("step", ON, Succeeded, Said(""), Details(Some("step"), false, None))

  const FRESH := Policy(0, None, None)

  const START := World(0, FRESH, map[], None, None, PIdle, map[], map[], [], map[], [], {}, 0)

  /** The story so far: after these steps from the trigger on, this world and this cluster. */
  ghost predicate Story(v: World, es: seq<Event>, w: World, c: int) {
    Unfolds(CONFIG, PIPELINE, v, es, 0, 0) && Run(CONFIG, v, es) == w && ClusterAfter(CONFIG, PIPELINE, v, es, 0) == c
  }

  lemma {:induction false} StoryGoesOn(v: World, es: seq<Event>, w: World, c: int, e: Event)
    requires es != [] && Story(v, es, w, c) && LeavesAlone(CONFIG, w, e, 0) && Faithful(CONFIG, PIPELINE, w, e, c)
    ensures Story(v, es + [e], Next(CONFIG, w, e), After(CONFIG, PIPELINE, w, e, c))
  {
    assert (es + [e])[..|es|] == es;
  }

  // ---------------------------------------------------------------------------------------
  // What the pipeline does
  // ---------------------------------------------------------------------------------------

  lemma {:induction false} StepRuns(value: string, s: int)
    ensures HeldRun(CONFIG, PIPELINE, value, [ON], s) == RunOutcome(s + 1, [RAN], None)
  {
    var p := PIPELINE.(metricValue := value);
    var q := p.(target := ON);
    assert ExecutionAt(q, 0, 0, s) == Executed(s + 1, RAN, None);
    FirstAbortIs(q, 0, 0, 1, 1, s);
    assert ResultsOf(q, 0, 1, s) == [RAN];
    assert RunSpec(q, 0, 1, s) == RunOutcome(s + 1, [RAN], None);
    assert RunTargets(p, [], 0, 1, s) == RunOutcome(s, [], None);
    assert [ON][..0] == [];
  }

  lemma {:induction false} NothingRuns(value: string, s: int)
    ensures FirstRun(CONFIG, PIPELINE, value, [ON], s) == RunOutcome(s, [], None)
  {
    var p := PIPELINE.(metricValue := value);
    assert RunTargets(p, [], 0, 0, s) == RunOutcome(s, [], None);
    assert [ON][..0] == [];
  }

  // ---------------------------------------------------------------------------------------
  // The trigger and its approval
  // ---------------------------------------------------------------------------------------

  const CROSSED := PolicyEvaluate(true, Value(true, ""), Some([]), [])

  const OPENED := Gate(0, ["step"], [ON], 60, Undecided, "", None, "")

  const DECIDED := OPENED.(decision := Approve, decidedBy := "ann", decidedAt := Some(0))

  const APPROVED := Audit(AuditSpec("u", 0, "", [], true, Some(DECIDED)), AuditStatus(Pending, None, false))

  const ASKS := ClientUpdate(0, 1, Approve, "", None, "", true, "ann")

  /** The gate is approved, a revert is asked for, and no reconcile of the record is in flight. */
  predicate Waiting(w: World, lost: nat) {
    && w.now == 0 && w.policy == FRESH
    && 0 in w.audits && w.audits[0] == Stored(2, 0, APPROVED) && 0 !in w.apcs
    && 0 in w.ledger && w.ledger[0].runs == lost && w.ledger[0].lostRuns == lost && w.ledger[0].last == APPROVED
  }

  lemma Fired(v: World)
    requires v == START.(ppc := PEvaluate(FRESH, 0))
    ensures Next(CONFIG, v, CROSSED) ==
            v.(cache := Some(Entry(0, 0)), window := Some(0), ppc := PCreate(FRESH, 0, "", [], [ON]), marks := [Triggered(0)])
  {
    assert RecentIds(v.audits, -HOUR) == {};
  }

  lemma {:induction false} TellFired(v: World)
    requires v == START.(ppc := PEvaluate(FRESH, 0))
    ensures Story(v, [CROSSED], Next(CONFIG, v, CROSSED), 0)
  {
    Fired(v);
    NothingRuns("", 0);
    var es := [CROSSED];
    assert es[..0] == [];
    assert Run(CONFIG, v, es[..0]) == v && ClusterAfter(CONFIG, PIPELINE, v, es[..0], 0) == 0;
  }

  lemma Marked(w: World)
    requires w.ppc == PCreate(FRESH, 0, "", [], [ON]) && w.audits == map[] && w.ledger == map[] && w.apcs == map[] && w.now == 0
    ensures var w1 := Next(CONFIG, w, PolicyCreate(true, 0));
            var w2 := Next(CONFIG, w1, PolicyMark(true));
            && w2.now == 0 && w2.policy == w.policy && w2.apcs == map[] && 0 in w2.audits && 0 in w2.ledger
            && w2.audits[0] == Stored(1, 0, Audit(AuditSpec("u", 0, "", [], false, Some(OPENED)), AuditStatus(Pending, None, false)))
            && w2.ledger[0].runs == 0 && w2.ledger[0].lostRuns == 0
  {
  }

  lemma Approving(w: World)
    requires w.now == 0 && w.policy == FRESH && w.apcs == map[] && 0 in w.audits && 0 in w.ledger
    requires w.audits[0] == Stored(1, 0, Audit(AuditSpec("u", 0, "", [], false, Some(OPENED)), AuditStatus(Pending, None, false)))
    requires w.ledger[0].runs == 0 && w.ledger[0].lostRuns == 0
    ensures Waiting(Next(CONFIG, w, ASKS), 0)
  {
  }

  lemma {:induction false} TellApproved(v: World) returns (es: seq<Event>, w: World)
    requires v == START.(ppc := PEvaluate(FRESH, 0))
    ensures es != [] && es[0] == CROSSED && Story(v, es, w, 0) && Waiting(w, 0)
  {
    TellFired(v);
    Fired(v);
    es, w := [CROSSED], Next(CONFIG, v, CROSSED);
    Marked(w);
    StoryGoesOn(v, es, w, 0, PolicyCreate(true, 0));
    es, w := es + [PolicyCreate(true, 0)], Next(CONFIG, w, PolicyCreate(true, 0));
    StoryGoesOn(v, es, w, 0, PolicyMark(true));
    es, w := es + [PolicyMark(true)], Next(CONFIG, w, PolicyMark(true));
    Approving(w);
    StoryGoesOn(v, es, w, 0, ASKS);
    es, w := es + [ASKS], Next(CONFIG, w, ASKS);
  }

  // ---------------------------------------------------------------------------------------
  // Release attempts
  // ---------------------------------------------------------------------------------------

  const RELEASED := APPROVED.spec.(actions := ToRecords(ReversibleNames(REGISTRY), 0, [RAN]))

  const RUNS := AuditRelease(0, Found, [RAN])

  /** The held half ran again, and its result is about to be written. */
  predicate Writing(w: World, lost: nat) {
    && w.now == 0 && w.policy == FRESH
    && 0 in w.audits && w.audits[0] == Stored(2, 0, APPROVED)
    && 0 in w.apcs && w.apcs[0] == ASpec(Stored(2, 0, APPROVED), RELEASED, Approved, Some(FRESH))
    && 0 in w.ledger && w.ledger[0].runs == lost + 1 && w.ledger[0].lostRuns == lost && w.ledger[0].last == APPROVED
  }

  /** The gate is approved, and the reconcile that read it is about to release. */
  predicate AtRelease(w: World, lost: nat) {
    && w.now == 0 && w.policy == FRESH
    && 0 in w.audits && w.audits[0] == Stored(2, 0, APPROVED)
    && 0 in w.apcs && w.apcs[0] == ARelease(Stored(2, 0, APPROVED))
    && 0 in w.ledger && w.ledger[0].runs == lost && w.ledger[0].lostRuns == lost && w.ledger[0].last == APPROVED
  }

  lemma Approaches(w: World, lost: nat)
    requires Waiting(w, lost)
    ensures var w1 := Next(CONFIG, w, AuditRead(0));
            var w2 := Next(CONFIG, w1, AuditDecide(0, true, true));
            !Undoes(CONFIG, w1, AuditDecide(0, true, true)) && AtRelease(w2, lost)
  {
  }

  lemma Attempted(w: World, lost: nat)
    requires AtRelease(w, lost)
    ensures Releases(CONFIG, w, RUNS) && Writing(Next(CONFIG, w, RUNS), lost)
  {
    assert [] + RELEASED.actions == RELEASED.actions;
  }

  lemma {:induction false} TellAttempt(v: World, es: seq<Event>, w: World, c: int, lost: nat) returns (fs: seq<Event>, x: World)
    requires es != [] && Story(v, es, w, c) && Waiting(w, lost)
    ensures fs != [] && fs[0] == es[0] && Story(v, fs, x, c + 1) && Writing(x, lost)
  {
    Approaches(w, lost);
    StepRuns("", c);
    StoryGoesOn(v, es, w, c, AuditRead(0));
    fs, x := es + [AuditRead(0)], Next(CONFIG, w, AuditRead(0));
    StoryGoesOn(v, fs, x, c, AuditDecide(0, true, true));
    fs, x := fs + [AuditDecide(0, true, true)], Next(CONFIG, x, AuditDecide(0, true, true));
    Attempted(x, lost);
    StoryGoesOn(v, fs, x, c, RUNS);
    fs, x := fs + [RUNS], Next(CONFIG, x, RUNS);
  }

  lemma WriteFails(w: World)
    requires Writing(w, 0)
    ensures Waiting(Next(CONFIG, w, AuditWriteSpec(0, false)), 1)
  {
  }

  // ---------------------------------------------------------------------------------------
  // The record and its revert
  // ---------------------------------------------------------------------------------------

  const RECORDED := Audit(RELEASED, AuditStatus(Approved, Some(0), false))

  /** The gate is resolved, one attempt was lost, and the record holds the other. */
  predicate Resolved(w: World) {
    && w.now == 0 && 0 in w.audits && w.audits[0] == Stored(4, 0, RECORDED)
    && 0 in w.ledger && w.ledger[0].runs == 2 && w.ledger[0].lostRuns == 1
  }

  /** The write lands: the record holds the second attempt. */
  lemma SpecWritten(w: World)
    requires Writing(w, 1)
    ensures var x := Next(CONFIG, w, AuditWriteSpec(0, true));
            var landed := Stored(3, 0, Audit(RELEASED, APPROVED.status));
            && x.now == 0 && 0 in x.audits && x.audits[0] == landed
            && 0 in x.apcs && x.apcs[0] == AStatus(landed, Approved, 0, Some(FRESH), true)
            && 0 in x.ledger && x.ledger[0].runs == 2 && x.ledger[0].lostRuns == 1
  {
  }

  lemma StatusWritten(w: World)
    requires var landed := Stored(3, 0, Audit(RELEASED, APPROVED.status));
             && w.now == 0 && 0 in w.audits && w.audits[0] == landed
             && 0 in w.apcs && w.apcs[0] == AStatus(landed, Approved, 0, Some(FRESH), true)
             && 0 in w.ledger && w.ledger[0].runs == 2 && w.ledger[0].lostRuns == 1
    ensures var x := Next(CONFIG, w, AuditWriteStatus(0, 0, true));
            Resolved(x) && 0 in x.apcs && x.apcs[0] == ACool(FRESH, 0)
  {
  }

  lemma ReadAgain(w: World)
    requires Resolved(w) && 0 in w.apcs && w.apcs[0] == ACool(FRESH, 0)
    ensures var w2 := Next(CONFIG, Next(CONFIG, w, AuditCooldown(0, false)), AuditRead(0));
            Resolved(w2) && 0 in w2.apcs && w2.apcs[0] == ADecide(Stored(4, 0, RECORDED))
  {
  }

  lemma {:induction false} TellRecorded(v: World, es: seq<Event>, w: World) returns (fs: seq<Event>, x: World)
    requires es != [] && Story(v, es, w, 2) && Writing(w, 1)
    ensures fs != [] && Story(v, fs, x, 2) && Resolved(x) && 0 in x.apcs && x.apcs[0] == ADecide(Stored(4, 0, RECORDED))
  {
    SpecWritten(w);
    StoryGoesOn(v, es, w, 2, AuditWriteSpec(0, true));
    fs, x := es + [AuditWriteSpec(0, true)], Next(CONFIG, w, AuditWriteSpec(0, true));
    StatusWritten(x);
    StoryGoesOn(v, fs, x, 2, AuditWriteStatus(0, 0, true));
    fs, x := fs + [AuditWriteStatus(0, 0, true)], Next(CONFIG, x, AuditWriteStatus(0, 0, true));
    ReadAgain(x);
    StoryGoesOn(v, fs, x, 2, AuditCooldown(0, false));
    fs, x := fs + [AuditCooldown(0, false)], Next(CONFIG, x, AuditCooldown(0, false));
    StoryGoesOn(v, fs, x, 2, AuditRead(0));
    fs, x := fs + [AuditRead(0)], Next(CONFIG, x, AuditRead(0));
  }

  lemma {:induction false} RecordUndone(s: int)
    ensures StateReverted(REGISTRY, RELEASED.actions, 0, s) == s - 1
    ensures Unmarked(Reported(RELEASED.actions))
  {
    RecordRoundTrip(ReversibleNames(REGISTRY), 0, RAN);
    var recs := RELEASED.actions;
    assert recs == [ToRecord(ReversibleNames(REGISTRY), 0, RAN)];
    assert StateReverted(REGISTRY, recs, 1, s) == s;
    assert recs[..0] == [];
    assert Reported(recs) == [RAN];
  }

  lemma UndoDue(w: World)
    requires Resolved(w) && 0 in w.apcs && w.apcs[0] == ADecide(Stored(4, 0, RECORDED))
    ensures Undoes(CONFIG, w, AuditDecide(0, true, true))
  {
  }

  lemma Operable()
    ensures Operates(CONFIG, PIPELINE)
  {
  }

  lemma {:induction false} TellAll(v: World) returns (es: seq<Event>, x: World)
    requires v == START.(ppc := PEvaluate(FRESH, 0))
    ensures Story(v, es, x, 2) && Resolved(x) && 0 in x.apcs && x.apcs[0] == ADecide(Stored(4, 0, RECORDED))
  {
    es, x := TellApproved(v);
    es, x := TellAttempt(v, es, x, 0, 0);
    WriteFails(x);
    StoryGoesOn(v, es, x, 1, AuditWriteSpec(0, false));
    es, x := es + [AuditWriteSpec(0, false)], Next(CONFIG, x, AuditWriteSpec(0, false));
    es, x := TellAttempt(v, es, x, 1, 1);
    es, x := TellRecorded(v, es, x);
  }

  /** Lawful plugins, no mark of a rollback, nothing else on the cluster, but one lost attempt: the revert
      leaves behind what that attempt did. */
  lemma {:induction false} LostAttemptOutlivesRevert() returns (w: World, before: seq<Event>, es: seq<Event>, undo: Event)
    ensures Operates(CONFIG, PIPELINE) && Init(w)
    ensures var v := Run(CONFIG, w, before);
            Undoes(CONFIG, Run(CONFIG, v, es), undo) && Unfolds(CONFIG, PIPELINE, v, es, undo.id, 0)
    ensures var v := Run(CONFIG, Run(CONFIG, w, before), es);
            && undo.id in v.ledger && v.ledger[undo.id].lostRuns == 1
            && Unmarked(Reported(v.apcs[undo.id].base.audit.spec.actions))
    ensures var v := Run(CONFIG, w, before);
            After(CONFIG, PIPELINE, Run(CONFIG, v, es), undo, ClusterAfter(CONFIG, PIPELINE, v, es, 0)) == 1
  {
    Operable();
    w, before, undo := START, [PolicyRead], AuditDecide(0, true, true);
    assert Run(CONFIG, w, before) == START.(ppc := PEvaluate(FRESH, 0)) by {
      assert before[..0] == [];
      assert Run(CONFIG, w, before[..0]) == w;
    }
    var x;
    es, x := TellAll(Run(CONFIG, w, before));
    UndoDue(x);
    RecordUndone(2);
  }
}
