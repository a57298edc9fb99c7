/**
 How a gate ends when nothing disturbs the reconcile that ends it.
 */
module GateEnds {
  import opened Common
  import opened Executor
  import opened AuditRecord
  import opened ApprovalApi
  import opened ApprovalWebhook
  import opened Protocol
  import opened GateInvariant
  import opened GateSafety

  /*
   The invariants say what never happens to a gate. Here is what does happen: from every reachable state
   in which a record is Pending, the reconcile that reads it, whose calls all succeed with nobody
   between them, waits, or ends the gate the way its verdict and its expiry say, with every held action
   on the record and the cooldown started.
  */

  /** The reconcile of the stored record stands here. */
  predicate Stands(w: World, id: Id, stored: Stored, pc: AuditPc) {
    && id in w.audits && w.audits[id] == stored && id in w.apcs && w.apcs[id] == pc
    && id in w.ledger && w.ledger[id].last == stored.audit
  }

  /** What the steps of a resolution leave alone. */
  predicate Rest(w: World, w': World, id: Id) {
    && w'.now == w.now && w'.policy == w.policy && w'.marks == w.marks
    && id in w.ledger && id in w'.ledger && w'.ledger[id].lostRuns == w.ledger[id].lostRuns
  }

  // ---------------------------------------------------------------------------------------
  // The decision
  // ---------------------------------------------------------------------------------------

  ghost predicate PendingAt(cfg: Config, w: World, id: Id) {
    && Safe(cfg, w) && id in w.audits && id !in w.apcs && w.audits[id].audit.status.phase == Pending
    && w.now < w.audits[id].created + cfg.retention
  }

  lemma ReadAndDecide(cfg: Config, w: World, id: Id)
    requires PendingAt(cfg, w, id)
    ensures var w' := Next(cfg, Next(cfg, w, AuditRead(id)), AuditDecide(id, true, true));
            var next := ResolveGate(w.now, w.audits[id]);
            && (next.None? ==> w' == w)
            && (next.Some? ==> w' == w.(apcs := w.apcs[id := next.value]) && Stands(w', id, w.audits[id], next.value))
    ensures w.audits[id].audit.spec.gate.Some? && w.audits[id].audit.spec.gate.value.pendingPlugins == HeldPlugins(cfg) != []
  {
    assert Safe1(cfg, w, id);
  }

  /** What becomes of a Pending gate at this time. */
  lemma VerdictDecides(now: int, base: Stored)
    requires base.audit.spec.gate.Some? && base.audit.spec.gate.value.pendingPlugins != []
    ensures var gate, next := base.audit.spec.gate.value, ResolveGate(now, base);
            && (next.None? <==> gate.decision !in {Approve, Deny} && now < gate.expiresAt)
            && (gate.decision == Approve ==> next == Some(ARelease(base)))
            && (gate.decision == Deny ==> next.Some? && next.value.ASpec? && next.value.phase == Denied)
            && (gate.decision !in {Approve, Deny} && gate.expiresAt <= now ==> next.Some? && next.value.ASpec? && next.value.phase == Expired)
            && (next.Some? && next.value.ASpec? ==>
                  next.value.base == base && next.value.policy == None
                  && next.value.spec == base.audit.spec.(actions := base.audit.spec.actions + next.value.spec.actions[|base.audit.spec.actions|..])
                  && AllNotRun(next.value.spec.actions, |base.audit.spec.actions|, gate.pendingPlugins, Why(gate)))
  {
    var gate, actions := base.audit.spec.gate.value, base.audit.spec.actions;
    var skipped := SkippedRecords(|actions|, gate.pendingPlugins, Why(gate));
    assert (actions + skipped)[|actions|..] == skipped;
  }

  /** What a closed gate's records say. */
  function Why(gate: Gate): Closing {
    if gate.decision == Deny then DeniedByHuman(if gate.decidedBy == "" then "unknown" else gate.decidedBy) else NotInTime
  }

  /** From position n on the actions are these plugins, one each, in order, none of which was run. */
  predicate AllNotRun(actions: seq<Record>, n: nat, plugins: seq<string>, closing: Closing) {
    && |actions| == n + |plugins|
    && forall i :: 0 <= i < |plugins| ==>
         && actions[n + i].plugin == plugins[i] && actions[n + i].index == n + i && actions[n + i].status == Skipped
         && actions[n + i].message == NotRun(closing) && !actions[n + i].reversible && actions[n + i].details == None
  }

  // ---------------------------------------------------------------------------------------
  // The writes
  // ---------------------------------------------------------------------------------------

  lemma SpecLanded(cfg: Config, w: World, id: Id, base: Stored, pc: AuditPc)
    requires Safe(cfg, w) && Stands(w, id, base, pc) && pc.ASpec? && pc.base == base
    ensures var w' := Next(cfg, w, AuditWriteSpec(id, true));
            var stored := Stored(base.version + 1, base.created, base.audit.(spec := pc.spec));
            && Stands(w', id, stored, AStatus(stored, pc.phase, w.now, pc.policy, |pc.spec.actions| > |base.audit.spec.actions|))
            && Rest(w, w', id) && w'.ledger[id].runs == w.ledger[id].runs && w'.batches == w.batches
  {
    StepAdmitsOwnUpdate(cfg, w, id, true);
  }

  lemma StatusLanded(cfg: Config, w: World, id: Id, base: Stored, pc: AuditPc)
    requires Stands(w, id, base, pc) && pc.AStatus? && pc.base == base && pc.since <= w.now
    ensures var w' := Next(cfg, w, AuditWriteStatus(id, w.now, true));
            var resumedAt := if pc.phase == Approved then Some(w.now) else base.audit.status.resumedAt;
            var stored := Stored(base.version + 1, base.created, base.audit.(status := base.audit.status.(phase := pc.phase, resumedAt := resumedAt)));
            && Stands(w', id, stored, if pc.policy.Some? then ACool(pc.policy.value, w.now) else AReadPolicy(w.now))
            && Rest(w, w', id) && w'.ledger[id].runs == w.ledger[id].runs
            && w'.batches == w.batches + if pc.policy.Some? && pc.ran then [Batch(id, base.audit.spec.actions)] else []
  {
  }

  lemma PolicyFound(cfg: Config, w: World, id: Id, base: Stored, d: int)
    requires Stands(w, id, base, AReadPolicy(d))
    ensures var w' := Next(cfg, w, AuditReadPolicy(id, true));
            Stands(w', id, base, ACool(w.policy, d)) && Rest(w, w', id) && w'.ledger[id].runs == w.ledger[id].runs && w'.batches == w.batches
  {
  }

  /** The record is as it says, the cooldown has started, and the reconcile is over. */
  predicate Ended(w: World, w': World, id: Id, audit: Audit) {
    && id !in w'.apcs && id in w'.audits && w'.audits[id].audit == audit && id in w'.ledger && w'.ledger[id].last == audit
    && w'.policy == Policy(w.policy.version + 1, Some(w.now), None) && w'.marks == w.marks + [CooldownStarted(w.now)]
  }

  lemma CooledDown(cfg: Config, w: World, id: Id, base: Stored)
    requires Stands(w, id, base, ACool(w.policy, w.now))
    ensures var w' := Next(cfg, w, AuditCooldown(id, true));
            Ended(w, w', id, base.audit) && w'.batches == w.batches && w'.ledger[id] == w.ledger[id]
  {
  }

  function Closed(w: World, id: Id): seq<Event> {
    [AuditWriteSpec(id, true), AuditWriteStatus(id, w.now, true), AuditReadPolicy(id, true), AuditCooldown(id, true)]
  }

  function Released(w: World, id: Id): seq<Event> {
    [AuditWriteSpec(id, true), AuditWriteStatus(id, w.now, true), AuditCooldown(id, true)]
  }

  lemma {:induction false} RunFirst(cfg: Config, w: World, e: Event, rest: seq<Event>)
    ensures Run(cfg, w, [e] + rest) == Run(cfg, Next(cfg, w, e), rest)
  {
    RunConcat(cfg, w, [e], rest);
    assert Run(cfg, w, [e]) == Next(cfg, w, e) by {
      assert [e][..0] == [];
      assert Run(cfg, w, []) == w;
    }
  }

  lemma {:induction false} Closes(cfg: Config, w: World, id: Id, base: Stored, pc: AuditPc)
    requires Safe(cfg, w) && Stands(w, id, base, pc) && pc.ASpec? && pc.base == base && pc.phase != Approved && pc.policy == None
    ensures var w' := Run(cfg, w, Closed(w, id));
            && Ended(w, w', id, Audit(pc.spec, base.audit.status.(phase := pc.phase)))
            && w'.batches == w.batches && w'.ledger[id].runs == w.ledger[id].runs && w'.ledger[id].lostRuns == w.ledger[id].lostRuns
  {
    SpecLanded(cfg, w, id, base, pc);
    var w1 := Next(cfg, w, AuditWriteSpec(id, true));
    StatusLanded(cfg, w1, id, w1.audits[id], w1.apcs[id]);
    var w2 := Next(cfg, w1, AuditWriteStatus(id, w.now, true));
    PolicyFound(cfg, w2, id, w2.audits[id], w.now);
    var w3 := Next(cfg, w2, AuditReadPolicy(id, true));
    CooledDown(cfg, w3, id, w3.audits[id]);
    assert Run(cfg, w, Closed(w, id)) == Next(cfg, w3, AuditCooldown(id, true)) by {
      FourSteps(cfg, w, Closed(w, id));
    }
  }

  lemma {:induction false} FourSteps(cfg: Config, w: World, es: seq<Event>)
    requires |es| == 4
    ensures Run(cfg, w, es) == Next(cfg, Next(cfg, Next(cfg, Next(cfg, w, es[0]), es[1]), es[2]), es[3])
  {
    assert es[..3] == [es[0], es[1], es[2]];
    ThreeSteps(cfg, w, es[..3]);
  }

  lemma {:induction false} ThreeSteps(cfg: Config, w: World, es: seq<Event>)
    requires |es| == 3
    ensures Run(cfg, w, es) == Next(cfg, Next(cfg, Next(cfg, w, es[0]), es[1]), es[2])
  {
    assert es == [es[0]] + ([es[1]] + ([es[2]] + []));
    RunFirst(cfg, w, es[0], [es[1]] + ([es[2]] + []));
    RunFirst(cfg, Next(cfg, w, es[0]), es[1], [es[2]] + []);
    RunFirst(cfg, Next(cfg, Next(cfg, w, es[0]), es[1]), es[2], []);
  }

  // ---------------------------------------------------------------------------------------
  // The three ends, and waiting
  // ---------------------------------------------------------------------------------------

  function Begun(id: Id): seq<Event> {
    [AuditRead(id), AuditDecide(id, true, true)]
  }

  lemma {:induction false} TwoSteps(cfg: Config, w: World, id: Id)
    ensures Run(cfg, w, Begun(id)) == Next(cfg, Next(cfg, w, AuditRead(id)), AuditDecide(id, true, true))
  {
    assert Begun(id) == [AuditRead(id)] + ([AuditDecide(id, true, true)] + []);
    RunFirst(cfg, w, AuditRead(id), [AuditDecide(id, true, true)] + []);
    RunFirst(cfg, Next(cfg, w, AuditRead(id)), AuditDecide(id, true, true), []);
  }

  lemma {:induction false} DecidedAs(cfg: Config, w: World, id: Id)
    requires PendingAt(cfg, w, id)
    ensures var base := w.audits[id];
            var next, w' := ResolveGate(w.now, base), Run(cfg, w, Begun(id));
            && base.audit.spec.gate.Some? && base.audit.spec.gate.value.pendingPlugins == HeldPlugins(cfg) != [] && Safe(cfg, w')
            && (next.None? ==> w' == w)
            && (next.Some? ==> w' == w.(apcs := w.apcs[id := next.value]) && Stands(w', id, base, next.value))
  {
    TwoSteps(cfg, w, id);
    ReadAndDecide(cfg, w, id);
    StepKeepsSafe(cfg, w, AuditRead(id));
    StepKeepsSafe(cfg, Next(cfg, w, AuditRead(id)), AuditDecide(id, true, true));
  }

  /** A reconcile changes nothing as long as nobody has decided and the gate has not expired. */
  lemma {:induction false} OpenGateWaits(cfg: Config, w: World, es: seq<Event>, id: Id)
    requires ValidConfig(cfg) && Init(w) && PendingAt(cfg, Run(cfg, w, es), id)
    ensures var v := Run(cfg, w, es);
            var gate := v.audits[id].audit.spec.gate;
            gate.Some? && (gate.value.decision !in {Approve, Deny} && v.now < gate.value.expiresAt ==> Run(cfg, v, Begun(id)) == v)
  {
    var v := Run(cfg, w, es);
    DecidedAs(cfg, v, id);
    VerdictDecides(v.now, v.audits[id]);
  }

  /** Nobody approved, and either somebody refused or it is too late. */
  predicate Refused(w: World, gate: Gate) {
    gate.decision == Deny || (gate.decision != Approve && gate.expiresAt <= w.now)
  }

  ghost predicate EndsRefused(cfg: Config, v: World, v': World, id: Id)
    requires id in v.audits && v.audits[id].audit.spec.gate.Some?
  {
    var was, gate := v.audits[id].audit, v.audits[id].audit.spec.gate.value;
    && id in v'.audits
    && var now := v'.audits[id].audit;
       && now.status == was.status.(phase := if gate.decision == Deny then Denied else Expired)
       && now.spec == was.spec.(actions := now.spec.actions) && was.spec.actions <= now.spec.actions
       && AllNotRun(now.spec.actions, |was.spec.actions|, HeldPlugins(cfg), Why(gate))
       && Ended(v, v', id, now) && v'.batches == v.batches
       && id in v.ledger && v'.ledger[id].runs == v.ledger[id].runs && v'.ledger[id].lostRuns == v.ledger[id].lostRuns
  }

  /** What closing wrote is what a refused gate ends with. */
  lemma WrittenAsRefused(cfg: Config, v: World, w2: World, v': World, id: Id, pc: AuditPc)
    requires id in v.audits && v.audits[id].audit.spec.gate.Some? && id in v.ledger && pc.ASpec?
    requires var was, gate := v.audits[id].audit, v.audits[id].audit.spec.gate.value;
             && pc.spec == was.spec.(actions := pc.spec.actions) && was.spec.actions <= pc.spec.actions
             && pc.phase == (if gate.decision == Deny then Denied else Expired)
             && AllNotRun(pc.spec.actions, |was.spec.actions|, HeldPlugins(cfg), Why(gate))
             && Ended(w2, v', id, Audit(pc.spec, was.status.(phase := pc.phase)))
    requires w2 == v.(apcs := w2.apcs)
    requires v'.batches == v.batches && v'.ledger[id].runs == v.ledger[id].runs && v'.ledger[id].lostRuns == v.ledger[id].lostRuns
    ensures EndsRefused(cfg, v, v', id)
  {
  }

  lemma {:induction false} EndRefused(cfg: Config, v: World, id: Id)
    requires PendingAt(cfg, v, id) && v.audits[id].audit.spec.gate.Some? && Refused(v, v.audits[id].audit.spec.gate.value)
    ensures EndsRefused(cfg, v, Run(cfg, Run(cfg, v, Begun(id)), Closed(v, id)), id)
  {
    DecidedAs(cfg, v, id);
    VerdictDecides(v.now, v.audits[id]);
    var w2 := Run(cfg, v, Begun(id));
    var pc := w2.apcs[id];
    assert Closed(w2, id) == Closed(v, id);
    Closes(cfg, w2, id, v.audits[id], pc);
    WrittenAsRefused(cfg, v, w2, Run(cfg, w2, Closed(v, id)), id, pc);
  }

  /** A denied gate ends Denied, and an undecided one ends Expired from the moment of its expiry on: all its
      actions are on the record as not run, with the reason, the held half has not run, and the
      cooldown starts. */
  lemma {:induction false} RefusedGateEnds(cfg: Config, w: World, es: seq<Event>, id: Id)
    requires ValidConfig(cfg) && Init(w) && PendingAt(cfg, Run(cfg, w, es), id)
    ensures var v := Run(cfg, w, es);
            var gate := v.audits[id].audit.spec.gate;
            gate.Some? && (Refused(v, gate.value) ==> EndsRefused(cfg, v, Run(cfg, Run(cfg, v, Begun(id)), Closed(v, id)), id))
  {
    var v := Run(cfg, w, es);
    assert Safe1(cfg, v, id);
    if Refused(v, v.audits[id].audit.spec.gate.value) {
      EndRefused(cfg, v, id);
    }
  }

  lemma ReleaseStarts(cfg: Config, w: World, id: Id, base: Stored, results: seq<Result<string>>)
    requires Stands(w, id, base, ARelease(base)) && base.audit.spec.gate.Some?
    requires Confined(results, EffectiveTargets(base.audit.spec.gate.value.targets, cfg.namespace))
    ensures var w' := Next(cfg, w, AuditRelease(id, Found, results));
            var spec := base.audit.spec;
            var released := spec.(actions := spec.actions + ToRecords(cfg.reversible, |spec.actions|, results));
            && Stands(w', id, base, ASpec(base, released, Approved, Some(w.policy)))
            && Rest(w, w', id) && w'.ledger[id].runs == w.ledger[id].runs + 1 && w'.batches == w.batches
  {
  }

  lemma {:induction false} Releases(cfg: Config, w: World, id: Id, base: Stored, pc: AuditPc)
    requires Safe(cfg, w) && Stands(w, id, base, pc) && pc.ASpec? && pc.base == base && pc.phase == Approved && pc.policy == Some(w.policy)
    ensures var w' := Run(cfg, w, Released(w, id));
            && Ended(w, w', id, Audit(pc.spec, base.audit.status.(phase := Approved, resumedAt := Some(w.now))))
            && w'.batches == w.batches + (if |pc.spec.actions| > |base.audit.spec.actions| then [Batch(id, pc.spec.actions)] else [])
            && w'.ledger[id].runs == w.ledger[id].runs && w'.ledger[id].lostRuns == w.ledger[id].lostRuns
  {
    SpecLanded(cfg, w, id, base, pc);
    var w1 := Next(cfg, w, AuditWriteSpec(id, true));
    StatusLanded(cfg, w1, id, w1.audits[id], w1.apcs[id]);
    var w2 := Next(cfg, w1, AuditWriteStatus(id, w.now, true));
    CooledDown(cfg, w2, id, w2.audits[id]);
    assert Run(cfg, w, Released(w, id)) == Next(cfg, w2, AuditCooldown(id, true)) by {
      ThreeSteps(cfg, w, Released(w, id));
    }
  }

  ghost predicate EndsApproved(cfg: Config, v: World, v': World, id: Id, results: seq<Result<string>>)
    requires id in v.audits
  {
    var was := v.audits[id].audit;
    && id in v'.audits
    && var now := v'.audits[id].audit;
       && now.status == was.status.(phase := Approved, resumedAt := Some(v.now))
       && now.spec == was.spec.(actions := was.spec.actions + ToRecords(cfg.reversible, |was.spec.actions|, results))
       && Ended(v, v', id, now) && v'.batches == v.batches + (if results == [] then [] else [Batch(id, now.spec.actions)])
       && id in v.ledger && v'.ledger[id].runs == v.ledger[id].runs + 1 && v'.ledger[id].lostRuns == v.ledger[id].lostRuns
  }

  lemma {:induction false} EndApproved(cfg: Config, v: World, id: Id, results: seq<Result<string>>)
    requires PendingAt(cfg, v, id) && v.audits[id].audit.spec.gate.Some? && v.audits[id].audit.spec.gate.value.decision == Approve
    requires Confined(results, EffectiveTargets(v.audits[id].audit.spec.gate.value.targets, cfg.namespace))
    ensures EndsApproved(cfg, v, Run(cfg, Next(cfg, Run(cfg, v, Begun(id)), AuditRelease(id, Found, results)), Released(v, id)), id, results)
  {
    DecidedAs(cfg, v, id);
    VerdictDecides(v.now, v.audits[id]);
    var w2 := Run(cfg, v, Begun(id));
    ReleaseStarts(cfg, w2, id, v.audits[id], results);
    StepKeepsSafe(cfg, w2, AuditRelease(id, Found, results));
    var w3 := Next(cfg, w2, AuditRelease(id, Found, results));
    assert Released(w3, id) == Released(v, id);
    Releases(cfg, w3, id, v.audits[id], w3.apcs[id]);
  }

  /** An approved gate ends Approved: the results of the held half, and nothing else, are added to the record
      in order, the sink is handed the whole of it, and the cooldown starts. */
  lemma {:induction false} ApprovedGateEnds(cfg: Config, w: World, es: seq<Event>, id: Id, results: seq<Result<string>>)
    requires ValidConfig(cfg) && Init(w) && PendingAt(cfg, Run(cfg, w, es), id)
    ensures var v := Run(cfg, w, es);
            var gate := v.audits[id].audit.spec.gate;
            && gate.Some?
            && (gate.value.decision == Approve && Confined(results, EffectiveTargets(gate.value.targets, cfg.namespace)) ==>
                  var released := Next(cfg, Run(cfg, v, Begun(id)), AuditRelease(id, Found, results));
                  EndsApproved(cfg, v, Run(cfg, released, Released(v, id)), id, results))
  {
    var v := Run(cfg, w, es);
    assert Safe1(cfg, v, id);
    var gate := v.audits[id].audit.spec.gate.value;
    if gate.decision == Approve && Confined(results, EffectiveTargets(gate.targets, cfg.namespace)) {
      EndApproved(cfg, v, id, results);
    }
  }
}
