/**
 What an audit record holds at the end of a run: the half that ran at once, and what reconciles
 added to it since.
 */
module RecordHistory {
  import opened Common
  import opened ApprovalApi
  import opened Executor
  import opened Protocol
  import opened GateInvariant
  import opened GateSafety

  /** What one resolution attempt meant to add to the record: the results of the held half if it ran,
      otherwise the held actions as skipped. */
  datatype Piece = Piece(ran: bool, records: seq<Record>, written: bool)

  /** `first` is what the record held when it was created, `spilled` how many executions of the held
      half went down with the write that would have recorded them. */
  datatype History = History(first: seq<Record>, pieces: seq<Piece>, spilled: nat)

  function Written(pieces: seq<Piece>): seq<Record> {
    if pieces == [] then []
    else Written(pieces[..|pieces| - 1]) + if pieces[|pieces| - 1].written then pieces[|pieces| - 1].records else []
  }

  function Ran(pieces: seq<Piece>): nat {
    if pieces == [] then 0 else Ran(pieces[..|pieces| - 1]) + if pieces[|pieces| - 1].ran then 1 else 0
  }

  function Missing(pieces: seq<Piece>): nat {
    if pieces == [] then 0
    else Missing(pieces[..|pieces| - 1]) + if pieces[|pieces| - 1].ran && !pieces[|pieces| - 1].written then 1 else 0
  }

  /** What the write this reconcile is at would add. */
  function Added(pc: AuditPc): seq<Record>
    requires pc.ASpec?
  {
    if |pc.base.audit.spec.actions| <= |pc.spec.actions| then pc.spec.actions[|pc.base.audit.spec.actions|..] else []
  }

  /** The held half ran, and its results are about to be written. */
  predicate Recording(w: World, id: Id) {
    id in w.apcs && w.apcs[id].ASpec? && w.apcs[id].phase == Approved
  }

  predicate SpecLands(w: World, e: Event, id: Id) {
    e.AuditWriteSpec? && e.id == id && id in w.apcs && w.apcs[id].ASpec? && Lands(w, id, w.apcs[id].base.version, e.ok)
  }

  /** The history after one more step. */
  function Extended(cfg: Config, w: World, e: Event, id: Id, h: History): History {
    var w' := Next(cfg, w, e);
    if id !in w.ledger then
      if id in w'.ledger then History(w'.ledger[id].last.spec.actions, [], 0) else h
    else if !Recording(w, id) && Recording(w', id) then
      h.(pieces := h.pieces + [Piece(true, Added(w'.apcs[id]), false)])
    else if SpecLands(w, e, id) then
      if !Recording(w, id) then h.(pieces := h.pieces + [Piece(false, Added(w.apcs[id]), true)])
      else if h.pieces == [] then h
      else h.(pieces := h.pieces[..|h.pieces| - 1] + [h.pieces[|h.pieces| - 1].(written := true)])
    else if Recording(w, id) && !Recording(w', id) then h.(spilled := h.spilled + 1)
    else h
  }

  function HistoryOf(cfg: Config, w: World, es: seq<Event>, id: Id): History {
    if es == [] then History([], [], 0)
    else Extended(cfg, Run(cfg, w, es[..|es| - 1]), es[|es| - 1], id, HistoryOf(cfg, w, es[..|es| - 1], id))
  }

  // ---------------------------------------------------------------------------------------
  // The invariant
  // ---------------------------------------------------------------------------------------

  predicate AllSkipped(records: seq<Record>) {
    forall i :: 0 <= i < |records| ==> records[i].status == Skipped
  }

  predicate Resolving(pc: AuditPc) {
    pc.ARelease? || pc.ASpec? || pc.AStatus? || (pc.ADecide? && pc.base.audit.status.phase == Pending)
  }

  /** The reconcile in flight: it resolves only what is Pending and reverts only what was not, and it
      would add nothing but skipped actions unless the held half ran. */
  predicate InFlight(pc: AuditPc, phase: Phase) {
    && (Resolving(pc) ==> phase == Pending)
    && (pc.AReverted? ==> pc.base.audit.status.phase != Pending)
    && (pc.ASpec? && pc.phase != Approved ==> AllSkipped(Added(pc)))
  }

  ghost predicate PiecesFit(h: History, l: Ledger, recording: bool) {
    && l.last.spec.actions == h.first + Written(h.pieces)
    && Ran(h.pieces) == l.runs
    && Missing(h.pieces) == h.spilled + (if recording then 1 else 0)
    && (forall k :: 0 <= k < |h.pieces| && !h.pieces[k].ran ==> h.pieces[k].written && AllSkipped(h.pieces[k].records))
  }

  ghost predicate Told(w: World, id: Id, h: History) {
    id in w.ledger ==>
      && PiecesFit(h, w.ledger[id], Recording(w, id))
      && (id in w.apcs ==> InFlight(w.apcs[id], w.ledger[id].last.status.phase))
      && (Recording(w, id) ==> h.pieces != [] && h.pieces[|h.pieces| - 1] == Piece(true, Added(w.apcs[id]), false))
  }

  // ---------------------------------------------------------------------------------------
  // Lists of pieces
  // ---------------------------------------------------------------------------------------

  lemma {:induction false} OnePieceMore(pieces: seq<Piece>, p: Piece)
    ensures Written(pieces + [p]) == Written(pieces) + if p.written then p.records else []
    ensures Ran(pieces + [p]) == Ran(pieces) + if p.ran then 1 else 0
    ensures Missing(pieces + [p]) == Missing(pieces) + if p.ran && !p.written then 1 else 0
  {
    assert (pieces + [p])[..|pieces + [p]| - 1] == pieces;
  }

  lemma {:induction false} LastPiece(pieces: seq<Piece>)
    requires pieces != []
    ensures var rest, p := pieces[..|pieces| - 1], pieces[|pieces| - 1];
            && pieces == rest + [p]
            && Written(pieces) == Written(rest) + (if p.written then p.records else [])
            && Ran(pieces) == Ran(rest) + (if p.ran then 1 else 0)
            && Missing(pieces) == Missing(rest) + (if p.ran && !p.written then 1 else 0)
  {
  }

  // ---------------------------------------------------------------------------------------
  // Every step keeps it
  // ---------------------------------------------------------------------------------------

  /** The record's actions and runs stay, and so does what is to be written, unless it is given up. */
  ghost predicate AddsNothing(w: World, w': World, id: Id)
    requires id in w.ledger
  {
    && id in w'.ledger && w'.ledger[id].last.spec.actions == w.ledger[id].last.spec.actions && w'.ledger[id].runs == w.ledger[id].runs
    && (Recording(w', id) ==> Recording(w, id) && w'.apcs[id] == w.apcs[id])
  }

  lemma NothingAddedIsTold(cfg: Config, w: World, e: Event, id: Id, h: History)
    requires Told(w, id, h) && id in w.ledger && !SpecLands(w, e, id) && AddsNothing(w, Next(cfg, w, e), id)
    requires var w' := Next(cfg, w, e);
             id in w'.apcs ==> InFlight(w'.apcs[id], w'.ledger[id].last.status.phase)
    ensures Told(Next(cfg, w, e), id, Extended(cfg, w, e, id, h))
  {
  }

  lemma ClientAddsNothing(cfg: Config, w: World, e: Event)
    requires Safe(cfg, w) && e.ClientUpdate? && e.id in w.ledger
    ensures var w' := Next(cfg, w, e);
            AddsNothing(w, w', e.id) && w'.apcs == w.apcs && w'.ledger[e.id].last.status == w.ledger[e.id].last.status
  {
    assert Safe1(cfg, w, e.id);
  }

  lemma MarkAddsNothing(cfg: Config, w: World, ok: bool, id: Id)
    requires Safe(cfg, w) && w.ppc.PMark? && w.ppc.id == id && id in w.ledger
    ensures var w' := PolicyMarkStep(w, ok);
            AddsNothing(w, w', id) && w'.apcs == w.apcs && w'.ledger[id].last.status.phase in {NoPhase, Pending}
            && w.ledger[id].last.status.phase == NoPhase
  {
    assert Safe1(cfg, w, id);
  }

  lemma ReadAddsNothing(cfg: Config, w: World, id: Id)
    requires Safe(cfg, w) && id in w.ledger
    ensures var w' := AuditReadStep(w, id);
            AddsNothing(w, w', id) && w'.ledger == w.ledger
            && (id in w'.apcs && id !in w.apcs ==>
                  w'.apcs[id].ADecide? && w'.apcs[id].base.audit.status.phase == w.ledger[id].last.status.phase)
            && (id in w.apcs ==> w' == w)
  {
    assert Safe1(cfg, w, id);
  }

  lemma ClosingSkips(now: int, base: Stored, phase: Phase, closing: Closing)
    requires phase != Approved
    ensures var pc := CloseGate(now, base, phase, closing);
            Resolving(pc) && !pc.ARelease? && !pc.ADecide? && (pc.ASpec? ==> pc.phase != Approved && AllSkipped(Added(pc)))
  {
    var spec := base.audit.spec;
    if spec.gate.Some? {
      var skipped := SkippedRecords(|spec.actions|, spec.gate.value.pendingPlugins, closing);
      assert (spec.actions + skipped)[|spec.actions|..] == skipped;
    }
  }

  lemma ResolveSkips(now: int, base: Stored)
    requires ResolveGate(now, base).Some?
    ensures var pc := ResolveGate(now, base).value;
            !pc.AReverted? && (pc.ASpec? ==> pc.phase != Approved && AllSkipped(Added(pc)))
  {
    ClosingSkips(now, base, Denied, GateMissing);
    ClosingSkips(now, base, Expired, NotInTime);
    if base.audit.spec.gate.Some? {
      ClosingSkips(now, base, Denied, DeniedByHuman(DecidedByOrUnknown(base.audit.spec.gate.value)));
    }
  }

  lemma DecideAddsNothing(cfg: Config, w: World, id: Id, policyOk: bool, deleteOk: bool)
    requires id in w.ledger && (id in w.apcs ==> InFlight(w.apcs[id], w.ledger[id].last.status.phase))
    ensures var w' := AuditDecideStep(cfg, w, id, policyOk, deleteOk);
            AddsNothing(w, w', id) && (id in w'.apcs ==> InFlight(w'.apcs[id], w'.ledger[id].last.status.phase))
  {
    if id in w.apcs && w.apcs[id].ADecide? && ResolveGate(w.now, w.apcs[id].base).Some? {
      ResolveSkips(w.now, w.apcs[id].base);
    }
  }

  /** Either the held half ran, or nothing is added and nothing but skipped actions would be. */
  lemma ReleaseOutcome(cfg: Config, w: World, id: Id, answer: PolicyAnswer, results: seq<Result<string>>)
    requires id in w.ledger && (id in w.apcs ==> InFlight(w.apcs[id], w.ledger[id].last.status.phase))
    ensures var w' := AuditReleaseStep(cfg, w, id, answer, results);
            && id in w'.ledger && w'.ledger[id].last == w.ledger[id].last
            && (id in w'.apcs ==> InFlight(w'.apcs[id], w'.ledger[id].last.status.phase))
            && (AddsNothing(w, w', id) || (!Recording(w, id) && Recording(w', id) && w'.ledger[id].runs == w.ledger[id].runs + 1))
  {
    if id in w.apcs && w.apcs[id].ARelease? {
      ClosingSkips(w.now, w.apcs[id].base, Denied, PolicyGone);
      ClosingSkips(w.now, w.apcs[id].base, Denied, PolicyReplaced);
    }
  }

  lemma ReleaseTold(cfg: Config, w: World, e: Event, id: Id, h: History)
    requires Told(w, id, h) && id in w.ledger && e.AuditRelease? && e.id == id
    ensures Told(Next(cfg, w, e), id, Extended(cfg, w, e, id, h))
  {
    ReleaseOutcome(cfg, w, id, e.answer, e.results);
    var w' := Next(cfg, w, e);
    if AddsNothing(w, w', id) {
      NothingAddedIsTold(cfg, w, e, id, h);
    } else {
      OnePieceMore(h.pieces, Piece(true, Added(w'.apcs[id]), false));
    }
  }

  lemma WriteSpecLands(cfg: Config, w: World, id: Id, ok: bool)
    requires Safe(cfg, w) && id in w.ledger && id in w.apcs && w.apcs[id].ASpec? && Lands(w, id, w.apcs[id].base.version, ok)
    ensures var w' := AuditWriteSpecStep(w, id, ok);
            var pc := w.apcs[id];
            && id in w'.ledger && w'.ledger[id].last.spec.actions == w.ledger[id].last.spec.actions + Added(pc)
            && w'.ledger[id].runs == w.ledger[id].runs && w'.ledger[id].last.status == w.ledger[id].last.status
            && id in w'.apcs && w'.apcs[id].AStatus?
  {
    assert Safe1(cfg, w, id);
    StepAdmitsOwnUpdate(cfg, w, id, ok);
  }

  lemma WriteSpecFails(cfg: Config, w: World, id: Id, ok: bool)
    requires Safe(cfg, w) && id in w.ledger
    requires !(id in w.apcs && w.apcs[id].ASpec? && Lands(w, id, w.apcs[id].base.version, ok))
    ensures var w' := AuditWriteSpecStep(w, id, ok);
            AddsNothing(w, w', id) && (id in w'.apcs ==> id in w.apcs && w'.apcs[id] == w.apcs[id])
            && w'.ledger[id].last == w.ledger[id].last
  {
    assert Safe1(cfg, w, id);
  }

  lemma PieceFilled(h: History, l: Ledger, l': Ledger, records: seq<Record>)
    requires PiecesFit(h, l, true) && h.pieces != [] && h.pieces[|h.pieces| - 1] == Piece(true, records, false)
    requires l'.last.spec.actions == l.last.spec.actions + records && l'.runs == l.runs
    ensures PiecesFit(h.(pieces := h.pieces[..|h.pieces| - 1] + [Piece(true, records, true)]), l', false)
  {
    LastPiece(h.pieces);
    OnePieceMore(h.pieces[..|h.pieces| - 1], Piece(true, records, true));
  }

  lemma PieceSkipped(h: History, l: Ledger, l': Ledger, records: seq<Record>)
    requires PiecesFit(h, l, false) && AllSkipped(records)
    requires l'.last.spec.actions == l.last.spec.actions + records && l'.runs == l.runs
    ensures PiecesFit(h.(pieces := h.pieces + [Piece(false, records, true)]), l', false)
  {
    OnePieceMore(h.pieces, Piece(false, records, true));
  }

  lemma LandedTold(cfg: Config, w: World, e: Event, id: Id, h: History)
    requires Safe(cfg, w) && Told(w, id, h) && id in w.ledger && SpecLands(w, e, id)
    ensures Told(Next(cfg, w, e), id, Extended(cfg, w, e, id, h))
  {
    WriteSpecLands(cfg, w, id, e.ok);
    if Recording(w, id) {
      PieceFilled(h, w.ledger[id], Next(cfg, w, e).ledger[id], Added(w.apcs[id]));
    } else {
      PieceSkipped(h, w.ledger[id], Next(cfg, w, e).ledger[id], Added(w.apcs[id]));
    }
  }

  lemma WriteSpecTold(cfg: Config, w: World, e: Event, id: Id, h: History)
    requires Safe(cfg, w) && Told(w, id, h) && id in w.ledger && e.AuditWriteSpec? && e.id == id
    ensures Told(Next(cfg, w, e), id, Extended(cfg, w, e, id, h))
  {
    if SpecLands(w, e, id) {
      LandedTold(cfg, w, e, id, h);
    } else {
      WriteSpecFails(cfg, w, id, e.ok);
      NothingAddedIsTold(cfg, w, e, id, h);
    }
  }

  lemma WriteStatusAddsNothing(cfg: Config, w: World, id: Id, d: int, ok: bool)
    requires Safe(cfg, w) && id in w.ledger && (id in w.apcs ==> InFlight(w.apcs[id], w.ledger[id].last.status.phase))
    ensures var w' := AuditWriteStatusStep(w, id, d, ok);
            AddsNothing(w, w', id) && (id in w'.apcs ==> InFlight(w'.apcs[id], w'.ledger[id].last.status.phase))
  {
    assert Safe1(cfg, w, id);
  }

  lemma TailAddsNothing(cfg: Config, w: World, e: Event, id: Id)
    requires id in w.ledger && (id in w.apcs ==> InFlight(w.apcs[id], w.ledger[id].last.status.phase))
    requires (e.AuditReadPolicy? || e.AuditCooldown?) && e.id == id
    ensures var w' := Next(cfg, w, e);
            AddsNothing(w, w', id) && (id in w'.apcs ==> InFlight(w'.apcs[id], w'.ledger[id].last.status.phase))
  {
  }

  lemma WriteRevertedAddsNothing(cfg: Config, w: World, id: Id, ok: bool)
    requires Safe(cfg, w) && id in w.ledger && (id in w.apcs ==> InFlight(w.apcs[id], w.ledger[id].last.status.phase))
    ensures var w' := AuditWriteRevertedStep(w, id, ok);
            AddsNothing(w, w', id) && (id in w'.apcs ==> InFlight(w'.apcs[id], w'.ledger[id].last.status.phase))
  {
    assert Safe1(cfg, w, id);
  }

  lemma RestartTold(cfg: Config, w: World, id: Id, h: History)
    requires Told(w, id, h) && id in w.ledger
    ensures Told(Crash(w), id, Extended(cfg, w, Restart, id, h))
  {
    assert AddsNothing(w, Crash(w), id);
  }

  lemma CreateTold(cfg: Config, w: World, e: Event, id: Id, h: History)
    requires Safe(cfg, w) && Told(w, id, h) && e.PolicyCreate? && e.id == id
    ensures Told(Next(cfg, w, e), id, Extended(cfg, w, e, id, h))
  {
    assert Safe1(cfg, w, id);
    var w' := Next(cfg, w, e);
    if id in w'.ledger && id !in w.ledger {
      assert w'.ledger[id].last.spec.actions + [] == w'.ledger[id].last.spec.actions;
    }
  }

  lemma SubjectTold(cfg: Config, w: World, e: Event, id: Id, h: History)
    requires Safe(cfg, w) && Told(w, id, h) && Subject(w, e) == Some(id) && id in w.ledger
    ensures Told(Next(cfg, w, e), id, Extended(cfg, w, e, id, h))
  {
    match e
    case PolicyCreate(_, _) => CreateTold(cfg, w, e, id, h);
    case AuditRelease(_, _, _) => ReleaseTold(cfg, w, e, id, h);
    case AuditWriteSpec(_, _) => WriteSpecTold(cfg, w, e, id, h);
    case ClientUpdate(_, _, _, _, _, _, _, _) =>
      ClientAddsNothing(cfg, w, e);
      NothingAddedIsTold(cfg, w, e, id, h);
    case PolicyMark(ok) =>
      MarkAddsNothing(cfg, w, ok, id);
      NothingAddedIsTold(cfg, w, e, id, h);
    case AuditRead(_) =>
      ReadAddsNothing(cfg, w, id);
      NothingAddedIsTold(cfg, w, e, id, h);
    case AuditDecide(_, policyOk, deleteOk) =>
      DecideAddsNothing(cfg, w, id, policyOk, deleteOk);
      NothingAddedIsTold(cfg, w, e, id, h);
    case AuditWriteStatus(_, d, ok) =>
      WriteStatusAddsNothing(cfg, w, id, d, ok);
      NothingAddedIsTold(cfg, w, e, id, h);
    case AuditWriteReverted(_, ok) =>
      WriteRevertedAddsNothing(cfg, w, id, ok);
      NothingAddedIsTold(cfg, w, e, id, h);
    case _ =>
      TailAddsNothing(cfg, w, e, id);
      NothingAddedIsTold(cfg, w, e, id, h);
  }

  lemma OtherTold(cfg: Config, w: World, e: Event, id: Id, h: History)
    requires Told(w, id, h) && Untouched(w, Next(cfg, w, e), id) && !SpecLands(w, e, id)
    ensures Told(Next(cfg, w, e), id, Extended(cfg, w, e, id, h))
  {
  }

  lemma StepTold(cfg: Config, w: World, e: Event, id: Id, h: History)
    requires Safe(cfg, w) && Told(w, id, h)
    ensures Told(Next(cfg, w, e), id, Extended(cfg, w, e, id, h))
  {
    if e.Restart? {
      if id in w.ledger {
        RestartTold(cfg, w, id, h);
      }
    } else if Subject(w, e) != Some(id) {
      OthersUntouched(cfg, w, e, id);
      OtherTold(cfg, w, e, id, h);
    } else if id in w.ledger {
      SubjectTold(cfg, w, e, id, h);
    } else if e.PolicyCreate? {
      CreateTold(cfg, w, e, id, h);
    } else {
      StaysUnknown(cfg, w, e, id);
    }
  }

  lemma StaysUnknown(cfg: Config, w: World, e: Event, id: Id)
    requires Safe(cfg, w) && id !in w.ledger && !e.PolicyCreate?
    ensures id !in Next(cfg, w, e).ledger
  {
    assert Safe1(cfg, w, id);
    if ByAuditReconciler(e) || e.ClientUpdate? {
      AuditSideSpares(cfg, w, e);
    }
  }

  lemma {:induction false} RunTold(cfg: Config, w: World, es: seq<Event>, id: Id)
    requires ValidConfig(cfg) && Init(w)
    ensures Told(Run(cfg, w, es), id, HistoryOf(cfg, w, es, id))
  {
    if es != [] {
      var init := es[..|es| - 1];
      RunTold(cfg, w, init, id);
      RunKeepsSafe(cfg, w, init);
      StepTold(cfg, Run(cfg, w, init), es[|es| - 1], id, HistoryOf(cfg, w, init, id));
    }
  }

  // ---------------------------------------------------------------------------------------
  // What it means
  // ---------------------------------------------------------------------------------------

  /** In every reachable state the record is what it was created with, followed by what reconciles wrote
      to it, in order: results of the held half, or skipped actions. What a revert cannot see are
      exactly the executions whose write was lost, and one whose write is still due. */
  lemma {:induction false} RecordHoldsWhatWasWritten(cfg: Config, w: World, es: seq<Event>, id: Id)
    requires ValidConfig(cfg) && Init(w) && id in Run(cfg, w, es).ledger
    ensures var w' := Run(cfg, w, es);
            var h := HistoryOf(cfg, w, es, id);
            && w'.ledger[id].last.spec.actions == h.first + Written(h.pieces)
            && Ran(h.pieces) == w'.ledger[id].runs
            && Missing(h.pieces) == h.spilled + (if Recording(w', id) then 1 else 0)
            && (forall k :: 0 <= k < |h.pieces| && !h.pieces[k].ran ==> AllSkipped(h.pieces[k].records))
  {
    RunTold(cfg, w, es, id);
  }

  /** A gate is reverted only after it is resolved: a reconcile that replays the undo read a record that
      was not Pending. */
  lemma {:induction false} RevertWaitsForTheGate(cfg: Config, w: World, es: seq<Event>, id: Id)
    requires ValidConfig(cfg) && Init(w) && id in Run(cfg, w, es).ledger && id in Run(cfg, w, es).apcs
    ensures Run(cfg, w, es).apcs[id].AReverted? ==> Run(cfg, w, es).apcs[id].base.audit.status.phase != Pending
  {
    RunTold(cfg, w, es, id);
  }

  // ---------------------------------------------------------------------------------------
  // An approved gate none of whose attempts was lost
  // ---------------------------------------------------------------------------------------

  lemma RecordingStays(cfg: Config, w: World, e: Event, id: Id)
    requires Recording(w, id) && Subject(w, e) == Some(id) && !e.AuditWriteSpec?
    ensures Recording(Next(cfg, w, e), id)
  {
  }

  /** Results about to be written are only ever lost with a lost attempt. */
  lemma SpilledIsLost(cfg: Config, w: World, e: Event, id: Id)
    requires id in w.ledger && Recording(w, id) && !Recording(Next(cfg, w, e), id) && !SpecLands(w, e, id)
    ensures LosesRelease(w, e, id)
  {
    if !e.Restart? {
      if Subject(w, e) != Some(id) {
        OthersUntouched(cfg, w, e, id);
      } else if !e.AuditWriteSpec? {
        RecordingStays(cfg, w, e, id);
      }
    }
  }

  lemma {:induction false} RunSpillsOnlyLost(cfg: Config, w: World, es: seq<Event>, id: Id)
    requires ValidConfig(cfg) && Init(w) && id in Run(cfg, w, es).ledger
    ensures HistoryOf(cfg, w, es, id).spilled <= Run(cfg, w, es).ledger[id].lostRuns
  {
    if es != [] {
      var init, e := es[..|es| - 1], es[|es| - 1];
      var before := Run(cfg, w, init);
      if id in before.ledger {
        RunSpillsOnlyLost(cfg, w, init, id);
        RunKeepsSafe(cfg, w, init);
        StepLosesByFailure(cfg, before, e, id);
        if Recording(before, id) && !Recording(Next(cfg, before, e), id) && !SpecLands(before, e, id) {
          SpilledIsLost(cfg, before, e, id);
        }
      }
    }
  }

  lemma {:induction false} OnlyRan(pieces: seq<Piece>) returns (k: nat)
    requires Ran(pieces) == 1 && Missing(pieces) == 0
    ensures k < |pieces| && pieces[k].ran && pieces[k].written
    ensures forall j :: 0 <= j < |pieces| && j != k ==> !pieces[j].ran
  {
    var n := |pieces| - 1;
    LastPiece(pieces);
    if pieces[n].ran {
      k := n;
      NoneRan(pieces[..n]);
    } else {
      k := OnlyRan(pieces[..n]);
    }
  }

  lemma {:induction false} NoneRan(pieces: seq<Piece>)
    requires Ran(pieces) == 0
    ensures forall j :: 0 <= j < |pieces| ==> !pieces[j].ran
  {
    if pieces != [] {
      LastPiece(pieces);
      NoneRan(pieces[..|pieces| - 1]);
    }
  }

  /** The record of an approved gate none of whose release attempts was lost holds the half that ran at
      once and exactly one run of the held half; anything else in it says that it did not run. */
  lemma {:induction false} ApprovedHoldsBothHalvesOnce(cfg: Config, w: World, es: seq<Event>, id: Id) returns (k: nat)
    requires ValidConfig(cfg) && Init(w) && id in Run(cfg, w, es).ledger
    requires var l := Run(cfg, w, es).ledger[id];
             l.last.status.phase == Approved && l.lostRuns == 0
    ensures var h := HistoryOf(cfg, w, es, id);
            && Run(cfg, w, es).ledger[id].last.spec.actions == h.first + Written(h.pieces)
            && k < |h.pieces| && h.pieces[k].ran && h.pieces[k].written
            && forall j :: 0 <= j < |h.pieces| && j != k ==> !h.pieces[j].ran && AllSkipped(h.pieces[j].records)
  {
    RunTold(cfg, w, es, id);
    RunSpillsOnlyLost(cfg, w, es, id);
    HeldHalfAccounting(cfg, w, es, id);
    k := OnlyRan(HistoryOf(cfg, w, es, id).pieces);
  }

  // ---------------------------------------------------------------------------------------
  // A resolved gate
  // ---------------------------------------------------------------------------------------

  predicate Ended(phase: Phase) {
    phase in {Approved, Denied, Expired}
  }

  lemma StepFreezes(cfg: Config, w: World, e: Event, id: Id, h: History)
    requires Safe(cfg, w) && Told(w, id, h) && id in w.ledger && Ended(w.ledger[id].last.status.phase)
    ensures id in Next(cfg, w, e).ledger
    ensures Next(cfg, w, e).ledger[id].last.spec.actions == w.ledger[id].last.spec.actions
    ensures Next(cfg, w, e).ledger[id].last.status.phase == w.ledger[id].last.status.phase
  {
    StepKeepsRecord(cfg, w, e, id);
    StepTold(cfg, w, e, id, h);
    assert !Recording(w, id) && !SpecLands(w, e, id) && !Recording(Next(cfg, w, e), id);
  }

  lemma {:induction false} FrozenOneMore(cfg: Config, w: World, es: seq<Event>, e: Event, id: Id)
    requires ValidConfig(cfg) && Init(w) && id in Run(cfg, w, es).ledger && Ended(Run(cfg, w, es).ledger[id].last.status.phase)
    ensures var was, now := Run(cfg, w, es), Next(cfg, Run(cfg, w, es), e);
            id in now.ledger && now.ledger[id].last.spec.actions == was.ledger[id].last.spec.actions
            && now.ledger[id].last.status.phase == was.ledger[id].last.status.phase
  {
    RunTold(cfg, w, es, id);
    RunKeepsSafe(cfg, w, es);
    StepFreezes(cfg, Run(cfg, w, es), e, id, HistoryOf(cfg, w, es, id));
  }

  /** Once a gate is resolved its record's actions never change again. */
  lemma {:induction false} ResolvedRecordIsFrozen(cfg: Config, w: World, es: seq<Event>, more: seq<Event>, id: Id)
    requires ValidConfig(cfg) && Init(w) && id in Run(cfg, w, es).ledger && Ended(Run(cfg, w, es).ledger[id].last.status.phase)
    ensures id in Run(cfg, w, es + more).ledger
    ensures Run(cfg, w, es + more).ledger[id].last.spec.actions == Run(cfg, w, es).ledger[id].last.spec.actions
    ensures Run(cfg, w, es + more).ledger[id].last.status.phase == Run(cfg, w, es).ledger[id].last.status.phase
    decreases |more|
  {
    if more == [] {
      assert es + more == es;
    } else {
      var n := |more| - 1;
      ResolvedRecordIsFrozen(cfg, w, es, more[..n], id);
      FrozenOneMore(cfg, w, es + more[..n], more[n], id);
      assert (es + more)[..|es + more| - 1] == es + more[..n];
    }
  }
}
