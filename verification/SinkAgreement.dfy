/**
 The sink's table against the record.
 */
module SinkAgreement {
  import opened Common
  import opened Executor
  import opened AuditRecord
  import opened ApprovalApi
  import opened Protocol
  import opened GateInvariant
  import opened GateSafety
  import opened RecordHistory

  /*
   Sources: internal/controller/auditwriter.go and the insert of
   internal/audit/sink/postgres/pgxwriter.go. Whatever batches are dropped, repeated or reordered,
   every row is the record's entry at that index, and one batch written after a release completes
   the table for good.
  */

  /** A batch is a prefix of its record as it stands by now. */
  ghost predicate BatchSound(w: World, b: Batch) {
    b.id in w.ledger && b.events <= w.ledger[b.id].last.spec.actions
  }

  ghost predicate RowSound(w: World, key: (Id, int)) {
    key in w.table ==>
      key.0 in w.ledger
      && 0 <= key.1 < |w.ledger[key.0].last.spec.actions|
      && w.table[key] == w.ledger[key.0].last.spec.actions[key.1]
  }

  ghost predicate SinkSound(w: World) {
    (forall k :: 0 <= k < |w.batches| ==> BatchSound(w, w.batches[k]))
    && (forall key: (Id, int) :: RowSound(w, key))
  }

  /** Inserting part of a record's rows adds exactly those that were missing. */
  lemma {:induction false} InsertExact(table: map<(Id, int), Record>, id: Id, events: seq<Record>, actions: seq<Record>)
    requires events <= actions
    requires forall i :: 0 <= i < |actions| ==> actions[i].index == i
    ensures forall key :: key in InsertRows(table, id, events) <==> key in table || (key.0 == id && 0 <= key.1 < |events|)
    ensures forall key :: key in table ==> InsertRows(table, id, events)[key] == table[key]
    ensures forall key :: key in InsertRows(table, id, events) && key !in table ==> InsertRows(table, id, events)[key] == actions[key.1]
  {
    if events != [] {
      InsertExact(table, id, events[..|events| - 1], actions);
    }
  }

  /** Batches go out only with the content the record has right then. */
  ghost predicate EmitsCurrent(w: World, w': World, id: Id) {
    w'.table == w.table
    && (w'.batches == w.batches || (id in w'.ledger && w'.batches == w.batches + [Batch(id, w'.ledger[id].last.spec.actions)]))
  }

  lemma CreateEmits(cfg: Config, w: World, ok: bool, id: Id)
    ensures EmitsCurrent(w, PolicyCreateStep(cfg, w, ok, id), id)
  {
  }

  lemma MarkEmits(cfg: Config, w: World, ok: bool)
    requires Safe(cfg, w) && w.ppc.PMark?
    ensures EmitsCurrent(w, PolicyMarkStep(w, ok), w.ppc.id)
  {
    assert Safe1(cfg, w, w.ppc.id);
  }

  lemma WriteStatusEmits(cfg: Config, w: World, id: Id, d: int, ok: bool)
    requires Safe(cfg, w)
    ensures EmitsCurrent(w, AuditWriteStatusStep(w, id, d, ok), id)
  {
    assert Safe1(cfg, w, id);
  }

  lemma EvaluationEmitsNothing(cfg: Config, w: World, listOk: bool, sample: Sample, matched: Option<seq<Target>>,
                               results: seq<Result<string>>)
    ensures SparesSink(w, PolicyEvaluateStep(cfg, w, listOk, sample, matched, results))
  {
  }

  lemma OtherStepsEmitNothing(cfg: Config, w: World, e: Event)
    requires e.PolicyRead? || e.PolicyCheckGate? || e.PolicyFinish? || e.Tick? || e.Restart? || e.TouchPolicy?
    ensures SparesSink(w, Next(cfg, w, e))
  {
  }

  lemma StepEmits(cfg: Config, w: World, e: Event) returns (id: Id)
    requires Safe(cfg, w) && !e.SinkWrite?
    ensures EmitsCurrent(w, Next(cfg, w, e), id)
  {
    id := 0;
    if e.PolicyCreate? {
      CreateEmits(cfg, w, e.ok, e.id);
      id := e.id;
    } else if e.PolicyMark? {
      if w.ppc.PMark? {
        MarkEmits(cfg, w, e.ok);
        id := w.ppc.id;
      }
    } else if e.AuditWriteStatus? {
      WriteStatusEmits(cfg, w, e.id, e.d, e.ok);
      id := e.id;
    } else if ByAuditReconciler(e) || e.ClientUpdate? {
      AuditSideSpares(cfg, w, e);
    } else if e.PolicyEvaluate? {
      EvaluationEmitsNothing(cfg, w, e.listOk, e.sample, e.matched, e.results);
    } else {
      OtherStepsEmitNothing(cfg, w, e);
    }
  }

  lemma WriteSound(cfg: Config, w: World, batch: nat, rows: nat)
    requires Safe(cfg, w) && SinkSound(w)
    ensures SinkSound(SinkStep(w, batch, rows))
  {
    if batch < |w.batches| && rows <= |w.batches[batch].events| {
      var b := w.batches[batch];
      assert BatchSound(w, b) && Safe1(cfg, w, b.id);
      InsertExact(w.table, b.id, b.events[..rows], w.ledger[b.id].last.spec.actions);
      var w' := SinkStep(w, batch, rows);
      forall key: (Id, int)
        ensures RowSound(w', key)
      {
        assert RowSound(w, key);
      }
      assert forall k :: 0 <= k < |w'.batches| ==> BatchSound(w, w.batches[k]) && BatchSound(w', w'.batches[k]);
    }
  }

  lemma StepKeepsSink(cfg: Config, w: World, e: Event)
    requires Safe(cfg, w) && SinkSound(w)
    ensures SinkSound(Next(cfg, w, e))
  {
    var w' := Next(cfg, w, e);
    if e.SinkWrite? {
      WriteSound(cfg, w, e.batch, e.rows);
    } else {
      var emitted := StepEmits(cfg, w, e);
      forall id | id in w.ledger {
        StepKeepsRecord(cfg, w, e, id);
      }
      forall k | 0 <= k < |w'.batches|
        ensures BatchSound(w', w'.batches[k])
      {
        if k < |w.batches| {
          assert BatchSound(w, w.batches[k]);
        }
      }
      forall key: (Id, int)
        ensures RowSound(w', key)
      {
        assert RowSound(w, key);
      }
    }
  }

  lemma {:induction false} RunKeepsSink(cfg: Config, w: World, es: seq<Event>)
    requires ValidConfig(cfg) && Init(w)
    ensures SinkSound(Run(cfg, w, es))
  {
    if es != [] {
      RunKeepsSink(cfg, w, es[..|es| - 1]);
      RunKeepsSafe(cfg, w, es[..|es| - 1]);
      StepKeepsSink(cfg, Run(cfg, w, es[..|es| - 1]), es[|es| - 1]);
    }
  }

  // ---------------------------------------------------------------------------------------
  // When the sink is handed a record
  // ---------------------------------------------------------------------------------------

  /** The record this step hands over: an ungated trigger's when it is created, a gated one's when it is marked
      Pending, if anything ran in front of the gate, and an approved one's when its phase is
      written, if the held half reported anything. */
  function HandsOver(cfg: Config, w: World, e: Event): Option<Id> {
    match e
    case PolicyCreate(ok, id) => if w.ppc.PCreate? && cfg.gate < 0 && ok && id !in w.ledger then Some(id) else None
    case PolicyMark(ok) =>
      if w.ppc.PMark? && Lands(w, w.ppc.id, w.ppc.version, ok) && w.audits[w.ppc.id].audit.spec.actions != [] then Some(w.ppc.id) else None
    case AuditWriteStatus(id, d, ok) =>
      if id in w.apcs && w.apcs[id].AStatus? && w.apcs[id].since <= d <= w.now && Lands(w, id, w.apcs[id].base.version, ok)
         && w.apcs[id].phase == Approved && w.apcs[id].ran
      then Some(id) else None
    case _ => None
  }

  lemma CreateHandsOver(cfg: Config, w: World, e: Event)
    requires Safe(cfg, w) && e.PolicyCreate?
    ensures var w', given := Next(cfg, w, e), HandsOver(cfg, w, e);
            if given.None? then w'.batches == w.batches
            else given.value in w'.ledger && w'.batches == w.batches + [Batch(given.value, w'.ledger[given.value].last.spec.actions)]
                 && w'.ledger[given.value].last.spec.actions == ToRecords(cfg.reversible, 0, w.ppc.results)
  {
    assert Safe1(cfg, w, e.id);
  }

  lemma MarkHandsOver(cfg: Config, w: World, e: Event)
    requires Safe(cfg, w) && e.PolicyMark?
    ensures var w', given := Next(cfg, w, e), HandsOver(cfg, w, e);
            if given.None? then w'.batches == w.batches
            else given.value in w'.ledger && w'.batches == w.batches + [Batch(given.value, w'.ledger[given.value].last.spec.actions)]
  {
    if w.ppc.PMark? {
      assert Safe1(cfg, w, w.ppc.id);
    }
  }

  lemma StatusHandsOver(cfg: Config, w: World, e: Event)
    requires Safe(cfg, w) && e.AuditWriteStatus?
    ensures var w', given := Next(cfg, w, e), HandsOver(cfg, w, e);
            if given.None? then w'.batches == w.batches
            else given.value in w'.ledger && w'.batches == w.batches + [Batch(given.value, w'.ledger[given.value].last.spec.actions)]
  {
    assert Safe1(cfg, w, e.id);
  }

  lemma OthersHandOverNothing(cfg: Config, w: World, e: Event)
    requires Safe(cfg, w) && !e.PolicyCreate? && !e.PolicyMark? && !e.AuditWriteStatus?
    ensures Next(cfg, w, e).batches == w.batches
  {
    if ByAuditReconciler(e) || e.ClientUpdate? {
      AuditSideSpares(cfg, w, e);
    } else if e.PolicyEvaluate? {
      EvaluationEmitsNothing(cfg, w, e.listOk, e.sample, e.matched, e.results);
    } else if !e.SinkWrite? {
      OtherStepsEmitNothing(cfg, w, e);
    }
  }

  /** In every run the sink is handed a record in exactly these steps, and then it is handed the whole of it. */
  lemma {:induction false} HandedOverExactly(cfg: Config, w: World, es: seq<Event>, e: Event)
    requires ValidConfig(cfg) && Init(w)
    ensures var v, given := Run(cfg, w, es), HandsOver(cfg, Run(cfg, w, es), e);
            var v' := Next(cfg, v, e);
            if given.None? then v'.batches == v.batches
            else given.value in v'.ledger && v'.batches == v.batches + [Batch(given.value, v'.ledger[given.value].last.spec.actions)]
  {
    var v := Run(cfg, w, es);
    RunKeepsSafe(cfg, w, es);
    if e.PolicyCreate? {
      CreateHandsOver(cfg, v, e);
    } else if e.PolicyMark? {
      MarkHandsOver(cfg, v, e);
    } else if e.AuditWriteStatus? {
      StatusHandsOver(cfg, v, e);
    } else {
      OthersHandOverNothing(cfg, v, e);
    }
  }

  /** In every reachable state each row of the table is the record's entry at that index. */
  lemma {:induction false} RowsAgreeWithRecord(cfg: Config, w: World, es: seq<Event>, id: Id, i: int)
    requires ValidConfig(cfg) && Init(w)
    requires (id, i) in Run(cfg, w, es).table
    ensures var w' := Run(cfg, w, es);
            id in w'.ledger && 0 <= i < |w'.ledger[id].last.spec.actions|
            && w'.table[(id, i)] == w'.ledger[id].last.spec.actions[i]
  {
    RunKeepsSink(cfg, w, es);
    assert RowSound(Run(cfg, w, es), (id, i));
  }

  lemma StatusWriteHandsOver(cfg: Config, w: World, id: Id, d: int, ok: bool)
    requires Safe(cfg, w)
    requires id in w.apcs && w.apcs[id].AStatus? && w.apcs[id].phase == Approved && w.apcs[id].ran
    requires w.apcs[id].since <= d <= w.now && Lands(w, id, w.apcs[id].base.version, ok)
    ensures var w' := AuditWriteStatusStep(w, id, d, ok);
            id in w'.ledger && w'.batches == w.batches + [Batch(id, w'.ledger[id].last.spec.actions)]
    ensures WholeForGood(AuditWriteStatusStep(w, id, d, ok), |w.batches|)
  {
    assert Safe1(cfg, w, id);
  }

  /** In every reachable state: the write that ends an approved gate whose held half recorded anything hands
      the sink the whole record, both halves. */
  lemma {:induction false} ReleaseHandsOverWholeRecord(cfg: Config, w: World, es: seq<Event>, id: Id, d: int)
    requires ValidConfig(cfg) && Init(w)
    requires var v := Run(cfg, w, es);
             && id in v.apcs && v.apcs[id].AStatus? && v.apcs[id].phase == Approved && v.apcs[id].ran
             && v.apcs[id].since <= d <= v.now && Lands(v, id, v.apcs[id].base.version, true)
    ensures var v := Run(cfg, w, es);
            var v' := Next(cfg, v, AuditWriteStatus(id, d, true));
            && id in v'.ledger && v'.batches == v.batches + [Batch(id, v'.ledger[id].last.spec.actions)]
            && WholeForGood(v', |v.batches|)
  {
    RunKeepsSafe(cfg, w, es);
    StatusWriteHandsOver(cfg, Run(cfg, w, es), id, d, true);
  }

  /** Once such a batch is written, the table holds the record, whatever became of earlier batches. */
  lemma {:induction false} OneWholeBatchCompletesTheTable(cfg: Config, w: World, es: seq<Event>, batch: nat)
    requires ValidConfig(cfg) && Init(w)
    requires var w' := Run(cfg, w, es);
             batch < |w'.batches| && w'.batches[batch].id in w'.ledger
             && w'.batches[batch].events == w'.ledger[w'.batches[batch].id].last.spec.actions
    ensures var w' := Run(cfg, w, es);
            var b := w'.batches[batch];
            var w'' := SinkStep(w', batch, |b.events|);
            forall i :: 0 <= i < |b.events| ==> (b.id, i) in w''.table && w''.table[(b.id, i)] == b.events[i]
  {
    var w' := Run(cfg, w, es);
    var b := w'.batches[batch];
    RunKeepsSafe(cfg, w, es);
    RunKeepsSink(cfg, w, es);
    assert Safe1(cfg, w', b.id);
    assert b.events[..|b.events|] == b.events;
    InsertExact(w'.table, b.id, b.events, b.events);
    forall i | 0 <= i < |b.events|
      ensures (b.id, i) in SinkStep(w', batch, |b.events|).table && SinkStep(w', batch, |b.events|).table[(b.id, i)] == b.events[i]
    {
      assert RowSound(w', (b.id, i));
    }
  }

  // ---------------------------------------------------------------------------------------
  // For good
  // ---------------------------------------------------------------------------------------

  /** The batch holds its record as it is by now, and the record's gate is resolved. */
  ghost predicate WholeForGood(w: World, k: nat) {
    && k < |w.batches| && w.batches[k].id in w.ledger
    && w.batches[k].events == w.ledger[w.batches[k].id].last.spec.actions
    && Ended(w.ledger[w.batches[k].id].last.status.phase)
  }

  ghost predicate SinkGrows(w: World, w': World) {
    && (forall key :: key in w.table ==> key in w'.table)
    && |w.batches| <= |w'.batches| && w'.batches[..|w.batches|] == w.batches
  }

  lemma StepGrowsSink(cfg: Config, w: World, e: Event)
    requires Safe(cfg, w) && SinkSound(w)
    ensures SinkGrows(w, Next(cfg, w, e))
  {
    if e.SinkWrite? {
      if e.batch < |w.batches| && e.rows <= |w.batches[e.batch].events| {
        var b := w.batches[e.batch];
        assert BatchSound(w, b) && Safe1(cfg, w, b.id);
        InsertExact(w.table, b.id, b.events[..e.rows], w.ledger[b.id].last.spec.actions);
      }
    } else {
      var id := StepEmits(cfg, w, e);
    }
  }

  lemma {:induction false} LaterSinkGrows(cfg: Config, w: World, es: seq<Event>, more: seq<Event>)
    requires ValidConfig(cfg) && Init(w)
    ensures SinkGrows(Run(cfg, w, es), Run(cfg, w, es + more))
    decreases |more|
  {
    if more == [] {
      assert es + more == es;
    } else {
      var n := |more| - 1;
      var before := es + more[..n];
      LaterSinkGrows(cfg, w, es, more[..n]);
      RunKeepsSafe(cfg, w, before);
      RunKeepsSink(cfg, w, before);
      StepGrowsSink(cfg, Run(cfg, w, before), more[n]);
      assert (es + more)[..|es + more| - 1] == before;
    }
  }

  /** The batch of a release, whole when it is handed over, is whole in every later state. */
  lemma {:induction false} WholeBatchStaysWhole(cfg: Config, w: World, es: seq<Event>, more: seq<Event>, k: nat)
    requires ValidConfig(cfg) && Init(w) && WholeForGood(Run(cfg, w, es), k)
    ensures WholeForGood(Run(cfg, w, es + more), k) && Run(cfg, w, es + more).batches[k] == Run(cfg, w, es).batches[k]
  {
    LaterSinkGrows(cfg, w, es, more);
    assert Run(cfg, w, es + more).batches[k] == Run(cfg, w, es + more).batches[..|Run(cfg, w, es).batches|][k];
    ResolvedRecordIsFrozen(cfg, w, es, more, Run(cfg, w, es).batches[k].id);
  }

  /** Whenever it is written, the table holds the whole record from then on, in every later state. */
  lemma {:induction false} WholeBatchCompletesForGood(cfg: Config, w: World, es: seq<Event>, more: seq<Event>, k: nat)
    requires ValidConfig(cfg) && Init(w) && WholeForGood(Run(cfg, w, es), k)
    ensures var b := Run(cfg, w, es).batches[k];
            var w' := Run(cfg, w, es + [SinkWrite(k, |b.events|)] + more);
            && b.id in w'.ledger && w'.ledger[b.id].last.spec.actions == b.events
            && forall i :: 0 <= i < |b.events| ==> (b.id, i) in w'.table && w'.table[(b.id, i)] == b.events[i]
  {
    var b := Run(cfg, w, es).batches[k];
    var write := SinkWrite(k, |b.events|);
    var written := es + [write];
    assert written[..|written| - 1] == es;
    OneWholeBatchCompletesTheTable(cfg, w, es, k);
    ResolvedRecordIsFrozen(cfg, w, es, [write] + more, b.id);
    assert es + ([write] + more) == written + more;
    LaterSinkGrows(cfg, w, written, more);
    forall i | 0 <= i < |b.events|
      ensures (b.id, i) in Run(cfg, w, written + more).table && Run(cfg, w, written + more).table[(b.id, i)] == b.events[i]
    {
      assert (b.id, i) in Run(cfg, w, written).table;
      RowsAgreeWithRecord(cfg, w, written + more, b.id, i);
    }
  }
}
