/**
 Why an orderly run asks for two things.
 */
module Counterexamples {
  import opened Common
  import opened RateLimiter
  import opened ApprovalApi
  import opened Protocol
  import opened GateInvariant
  import opened OneGate
  import opened Scenarios

  /*
   For every gated policy that can trigger, whatever its evaluations yield, there is a run that keeps
   one of the two rules throughout and still leaves a gate open behind the policy's back. When a
   single status write is lost, the one that would record the reference to a new gate, a second gate
   opens. When the policy triggers in the tail of a resolution, the new gate's reference is wiped. So
   neither rule of `OneGate.Orderly` follows from the other or can be dropped.
  */

  // ---------------------------------------------------------------------------------------
  // A lost reference opens a second gate
  // ---------------------------------------------------------------------------------------

  /** From rest to a gate whose reference is not written yet. */
  function ToOpening(cfg: Config, id: Id, h: Half): seq<Event>
    requires 0 <= cfg.duration
  {
    Sustain(cfg, h) + MarkGate(id)
  }

  /** An hour later, and again. */
  function PauseToOpening(cfg: Config, id: Id, h: Half): seq<Event>
    requires 0 <= cfg.duration
  {
    Pause() + ToOpening(cfg, id, h)
  }

  lemma {:induction false} MarksGate(cfg: Config, w: World, id: Id)
    requires w.ppc.PCreate? && w.ppc.t == w.now && id !in w.audits && id !in w.ledger && cfg.gate >= 0
    ensures var w' := Run(cfg, w, MarkGate(id));
            PendingGate(w', id) && Opening(w'.ppc) && forall other :: other in w.audits ==> other in w'.audits && w'.audits[other] == w.audits[other]
  {
    CreatesUndecided(cfg, w, id);
    assert MarkGate(id) == [PolicyCreate(true, id)] + [PolicyMark(true)];
    RunFirst(cfg, w, PolicyCreate(true, id), [PolicyMark(true)]);
    RunLast(cfg, Next(cfg, w, PolicyCreate(true, id)), PolicyMark(true));
  }

  lemma {:induction false} ReachesOpening(cfg: Config, w: World, id: Id, h: Half)
    requires w.ppc == PIdle && w.policy.pendingGateRef == None && w.window == None && Ready(cfg, w, w.policy, w.now) && 0 < cfg.duration
    requires id !in w.audits && id !in w.ledger && cfg.gate >= 0 && Plausible(cfg, h)
    ensures var w' := Run(cfg, w, ToOpening(cfg, id, h));
            PendingGate(w', id) && Opening(w'.ppc) && forall other :: other in w.audits ==> other in w'.audits && w'.audits[other] == w.audits[other]
  {
    SustainedFires(cfg, w, h);
    var w1 := Fired(cfg, Opened(cfg, w), cfg.duration, h);
    MarksGate(cfg, w1, id);
    Joined(cfg, w, Sustain(cfg, h), w1, MarkGate(id), Run(cfg, w1, MarkGate(id)));
  }

  lemma ToOpeningTouchesNoTail(cfg: Config, w: World, id: Id, h: Half, rule: Rule)
    requires 0 <= cfg.duration && w.apcs == map[] && (rule == EvaluationsOutsideTails || rule == TriggersOutsideTails)
    ensures Throughout(cfg, w, ToOpening(cfg, id, h), rule)
  {
    var es := ToOpening(cfg, id, h);
    assert forall i :: 0 <= i < |es| ==> !ByAuditReconciler(es[i]);
    NoTails(cfg, w, es, rule);
  }

  lemma ToOpeningIsOrderly(cfg: Config, w: World, id: Id, h: Half)
    requires 0 <= cfg.duration && w.apcs == map[] && !Opening(w.ppc)
    ensures OrderlyRun(cfg, w, ToOpening(cfg, id, h))
  {
    ToOpeningTouchesNoTail(cfg, w, id, h, TriggersOutsideTails);
    NothingToRefer(cfg, w, Sustain(cfg, h));
    UnruledThroughout(cfg, Run(cfg, w, Sustain(cfg, h)), MarkGate(id), ReferencesLand);
    ThroughoutConcat(cfg, w, Sustain(cfg, h), MarkGate(id), ReferencesLand);
  }

  lemma PauseKeeps(cfg: Config, w: World, rule: Rule)
    requires w.ppc == PIdle
    ensures Throughout(cfg, w, Pause(), rule)
  {
    ThroughoutOne(cfg, w, Tick(HOUR), rule);
    ThroughoutOne(cfg, Next(cfg, w, Tick(HOUR)), Restart, rule);
    RunLast(cfg, w, Tick(HOUR));
    ThroughoutConcat(cfg, w, [Tick(HOUR)], [Restart], rule);
    assert Pause() == [Tick(HOUR)] + [Restart];
  }

  lemma {:induction false} FirstReferenceLost(cfg: Config, h: Half)
    requires Gated(cfg) && Plausible(cfg, h)
    ensures var w := Run(cfg, Start(), ToOpening(cfg, 0, h));
            Opening(w.ppc) && Next(cfg, w, PolicyFinish(false)) == Run(cfg, Start(), GateCycle(cfg, 0, false, h))
  {
    assert RecentIds(Start().audits, Start().now - HOUR) == {};
    ReachesOpening(cfg, Start(), 0, h);
    RunConcat(cfg, Start(), ToOpening(cfg, 0, h), [PolicyFinish(false)]);
    RunLast(cfg, Run(cfg, Start(), ToOpening(cfg, 0, h)), PolicyFinish(false));
    assert ToOpening(cfg, 0, h) + [PolicyFinish(false)] == GateCycle(cfg, 0, false, h);
  }

  lemma {:induction false} PausesThenOpens(cfg: Config, w: World, h: Half)
    requires Gated(cfg) && FirstOpen(cfg, w, cfg.duration, None) && Plausible(cfg, h)
    ensures var w' := Run(cfg, w, PauseToOpening(cfg, 1, h));
            PendingGate(w', 0) && PendingGate(w', 1)
  {
    var w1 := w.(now := w.now + HOUR, window := None, cache := None);
    Pauses(cfg, w);
    Aged(cfg, w1, w1.now);
    ReachesOpening(cfg, w1, 1, h);
    Joined(cfg, w, Pause(), w1, ToOpening(cfg, 1, h), Run(cfg, w1, ToOpening(cfg, 1, h)));
  }

  lemma {:induction false} PauseToOpeningIsOrderly(cfg: Config, w: World, h: Half)
    requires 0 <= cfg.duration && w.ppc == PIdle && w.apcs == map[]
    ensures OrderlyRun(cfg, w, PauseToOpening(cfg, 1, h))
  {
    Pauses(cfg, w);
    PauseKeeps(cfg, w, ReferencesLand);
    PauseKeeps(cfg, w, TriggersOutsideTails);
    ToOpeningIsOrderly(cfg, Run(cfg, w, Pause()), 1, h);
    ThroughoutConcat(cfg, w, Pause(), ToOpening(cfg, 1, h), ReferencesLand);
    ThroughoutConcat(cfg, w, Pause(), ToOpening(cfg, 1, h), TriggersOutsideTails);
  }

  lemma LostReferenceTouchesNoTail(cfg: Config, first: Half, second: Half)
    requires 0 <= cfg.duration
    ensures Throughout(cfg, Start(), ToOpening(cfg, 0, first) + [PolicyFinish(false)] + PauseToOpening(cfg, 1, second), EvaluationsOutsideTails)
  {
    var before, after := ToOpening(cfg, 0, first), PauseToOpening(cfg, 1, second);
    assert forall i :: 0 <= i < |before| ==> !ByAuditReconciler(before[i]);
    assert forall i :: 0 <= i < |after| ==> !ByAuditReconciler(after[i]);
    NoTails(cfg, Start(), before + [PolicyFinish(false)] + after, EvaluationsOutsideTails);
  }

  /** A run with one single disorder, the loss of the write that records the reference to the first
      gate, ends with two gates open. No evaluation ever falls into a tail in it. */
  lemma LostReferenceOpensSecondGate(cfg: Config, first: Half, second: Half) returns (before: seq<Event>, after: seq<Event>)
    requires Gated(cfg) && Plausible(cfg, first) && Plausible(cfg, second)
    ensures Init(Start()) && OrderlyRun(cfg, Start(), before) && Opening(Run(cfg, Start(), before).ppc)
    ensures var w := Next(cfg, Run(cfg, Start(), before), PolicyFinish(false));
            OrderlyRun(cfg, w, after) && PendingGate(Run(cfg, w, after), 0) && PendingGate(Run(cfg, w, after), 1)
    ensures Throughout(cfg, Start(), before + [PolicyFinish(false)] + after, EvaluationsOutsideTails)
  {
    before, after := ToOpening(cfg, 0, first), PauseToOpening(cfg, 1, second);
    FirstReferenceLost(cfg, first);
    FirstGate(cfg, false, first);
    ToOpeningIsOrderly(cfg, Start(), 0, first);
    PausesThenOpens(cfg, Run(cfg, Start(), GateCycle(cfg, 0, false, first)), second);
    PauseToOpeningIsOrderly(cfg, Run(cfg, Start(), GateCycle(cfg, 0, false, first)), second);
    LostReferenceTouchesNoTail(cfg, first, second);
  }

  // ---------------------------------------------------------------------------------------
  // A trigger in a resolution's tail loses its reference
  // ---------------------------------------------------------------------------------------

  /** The first gate was refused; startCooldown is still to come. */
  ghost predicate InTailOfFirst(w: World) {
    && w.ppc == PIdle && w.apcs == map[0 := AReadPolicy(w.now)] && w.window == None && w.cache == None
    && w.policy.lastTriggeredAt == None && w.policy.pendingGateRef == Some(0)
    && w.audits.Keys == {0} && w.ledger.Keys == {0} && w.audits[0].audit.status.phase == Denied
    && w.audits[0].audit.spec.triggeredAt + HOUR <= w.now
  }

  lemma {:induction false} FirstGateRefused(cfg: Config, w: World)
    requires FirstDenied(cfg, w)
    ensures InTailOfFirst(Run(cfg, w, Refuse(0, w.now, 0)))
    ensures Throughout(cfg, w, Refuse(0, w.now, 0), ReferencesLand)
  {
    Refuses(cfg, w, 0, cfg.duration, 0);
    RefusalUnruled(ReferencesLand, 0, w.now, 0);
    UnruledThroughout(cfg, w, Refuse(0, w.now, 0), ReferencesLand);
  }

  /** A reconcile that finds the gate closed opens the window again. */
  function Reopen(h: Half): seq<Event> {
    [PolicyRead] + LookLate(h)
  }

  /** At rest with an open window, in the tail. */
  ghost predicate Reopened(cfg: Config, w: World, t: int) {
    && w.ppc == PIdle && w.now == t && w.window == Some(t) && w.apcs == map[0 := AReadPolicy(t)] && w.policy.pendingGateRef == None
    && w.audits.Keys == {0} && w.ledger.Keys == {0} && Ready(cfg, w, w.policy, t + cfg.duration)
  }

  lemma {:induction false} Reopens(cfg: Config, w: World, h: Half)
    requires Gated(cfg) && InTailOfFirst(w)
    ensures Reopened(cfg, Run(cfg, w, Reopen(h)), w.now)
  {
    var w1 := w.(ppc := PCheckGate(w.policy, w.now));
    assert Next(cfg, w, PolicyRead) == w1;
    LooksLate(cfg, w1, w.now, h);
    RoomWhileLooking(cfg, w1, w.now, Looked(cfg, w1, w.now).policy, w.now + cfg.duration);
    RunFirst(cfg, w, PolicyRead, LookLate(h));
  }

  /** In the tail: the window opens, the policy triggers. */
  function TriggerInTail(cfg: Config, h: Half): seq<Event>
    requires 0 <= cfg.duration
  {
    Reopen(h) + FireAfter(cfg.duration, h)
  }

  /** About to create a second record, while the tail of the first one is still to come. */
  ghost predicate Refiring(w: World) {
    && w.ppc.PCreate? && w.ppc.t == w.now && w.ppc.snap == w.policy
    && (exists d :: w.apcs == map[0 := AReadPolicy(d)]) && 1 !in w.audits && 1 !in w.ledger
  }

  lemma {:induction false} FiresReopened(cfg: Config, w: World, t: int, h: Half)
    requires Gated(cfg) && Plausible(cfg, h) && Reopened(cfg, w, t)
    ensures Refiring(Run(cfg, w, FireAfter(cfg.duration, h)))
  {
    FiresLater(cfg, w, cfg.duration, h);
    assert Fired(cfg, w, cfg.duration, h).apcs == map[0 := AReadPolicy(t)];
  }

  lemma {:induction false} TriggersInTail(cfg: Config, w: World, h: Half)
    requires Gated(cfg) && Plausible(cfg, h) && InTailOfFirst(w)
    ensures Refiring(Run(cfg, w, TriggerInTail(cfg, h)))
  {
    Reopens(cfg, w, h);
    FiresReopened(cfg, Run(cfg, w, Reopen(h)), w.now, h);
    RunConcat(cfg, w, Reopen(h), FireAfter(cfg.duration, h));
  }

  /** A second gate opens and is referred to, and startCooldown of the first one wipes the reference. */
  function OpenThenCool(): seq<Event> {
    OpenGate(1, true) + CoolDown(0)
  }

  ghost predicate Unreferred(w: World) {
    PendingGate(w, 1) && w.policy.pendingGateRef == None && w.ppc == PIdle
  }

  lemma {:induction false} OpensAndLosesReference(cfg: Config, w: World)
    requires Refiring(w) && cfg.gate >= 0
    ensures Unreferred(Run(cfg, w, OpenThenCool()))
    ensures Throughout(cfg, w, OpenThenCool(), ReferencesLand)
  {
    var d :| w.apcs == map[0 := AReadPolicy(d)];
    OpenGateRefers(cfg, w, 1);
    UnruledThroughout(cfg, Run(cfg, w, OpenGate(1, true)), CoolDown(0), ReferencesLand);
    ThroughoutConcat(cfg, w, OpenGate(1, true), CoolDown(0), ReferencesLand);
    OpensGate(cfg, w, 1, true);
    var w1 := Run(cfg, w, OpenGate(1, true));
    CoolsDown(cfg, w1, 0, d);
    Joined(cfg, w, OpenGate(1, true), w1, CoolDown(0), Run(cfg, w1, CoolDown(0)));
  }

  function Retrigger(cfg: Config, h: Half): seq<Event>
    requires 0 <= cfg.duration
  {
    TriggerInTail(cfg, h) + OpenThenCool()
  }

  lemma {:induction false} RetriggersInTail(cfg: Config, w: World, h: Half)
    requires Gated(cfg) && Plausible(cfg, h) && InTailOfFirst(w)
    ensures Unreferred(Run(cfg, w, Retrigger(cfg, h)))
    ensures Throughout(cfg, w, Retrigger(cfg, h), ReferencesLand)
  {
    TriggersInTail(cfg, w, h);
    var w1 := Run(cfg, w, TriggerInTail(cfg, h));
    OpensAndLosesReference(cfg, w1);
    RunConcat(cfg, w, TriggerInTail(cfg, h), OpenThenCool());
    NothingToRefer(cfg, w, TriggerInTail(cfg, h));
    ThroughoutConcat(cfg, w, TriggerInTail(cfg, h), OpenThenCool(), ReferencesLand);
  }

  /** From the denial of the first gate to the second one, whose reference is wiped. */
  function RefuseAndRetrigger(cfg: Config, t: int, h: Half): seq<Event>
    requires 0 <= cfg.duration
  {
    Refuse(0, t, 0) + Retrigger(cfg, h)
  }

  lemma {:induction false} RefusesAndRetriggers(cfg: Config, w: World, h: Half)
    requires Gated(cfg) && Plausible(cfg, h) && FirstDenied(cfg, w)
    ensures Unreferred(Run(cfg, w, RefuseAndRetrigger(cfg, w.now, h)))
    ensures Throughout(cfg, w, RefuseAndRetrigger(cfg, w.now, h), ReferencesLand)
  {
    FirstGateRefused(cfg, w);
    RetriggersInTail(cfg, Run(cfg, w, Refuse(0, w.now, 0)), h);
    RunConcat(cfg, w, Refuse(0, w.now, 0), Retrigger(cfg, h));
    ThroughoutConcat(cfg, w, Refuse(0, w.now, 0), Retrigger(cfg, h), ReferencesLand);
  }

  /** A run in which every reference lands, but the policy triggers between the write that ends the first
      gate and its startCooldown: it then refers to nothing while the second gate is open. */
  lemma TailTriggerLosesReference(cfg: Config, first: Half, second: Half) returns (es: seq<Event>)
    requires Gated(cfg) && Plausible(cfg, first) && Plausible(cfg, second)
    ensures Init(Start()) && Throughout(cfg, Start(), es, ReferencesLand)
    ensures var w := Run(cfg, Start(), es);
            PendingGate(w, 1) && w.policy.pendingGateRef == None && w.ppc == PIdle
  {
    var more := RefuseAndRetrigger(cfg, cfg.duration + HOUR, second);
    es := DenyFirst(cfg, first) + more;
    DeniesFirst(cfg, first);
    var w := Run(cfg, Start(), DenyFirst(cfg, first));
    RefusesAndRetriggers(cfg, w, second);
    RunConcat(cfg, Start(), DenyFirst(cfg, first), more);
    DenyFirstKeeps(cfg, first, ReferencesLand);
    ThroughoutConcat(cfg, Start(), DenyFirst(cfg, first), more, ReferencesLand);
  }
}
