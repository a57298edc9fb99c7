/**
 Pieces of runs, for whole families of configurations, each with the state it leads to:
   Sustain    a policy at rest whose metric stays crossed for its duration triggers;
   OpenGate   the record of the trigger is created and marked Pending;
   Spend      from rest to a record whose closing status write is lost;
   DenyFirst  the first gate, denied by a human, an hour later;
   Refuse     the audit reconciler ends the denied gate;
   CoolDown   startCooldown reads and writes the policy.
 And which rules a piece of a run keeps to. The limits of the theorems are put together from them.
 */
module Scenarios {
  import opened Common
  import opened Executor
  import opened RateLimiter
  import opened ApprovalApi
  import opened ApprovalWebhook
  import opened Protocol
  import opened GateInvariant
  import opened TriggerSpacing
  import opened OneGate

  function Start(): World {
    World(0, Policy(0, None, None), map[], None, None, PIdle, map[], map[], [], map[], [], {}, 0)
  }

  lemma {:induction false} RunLast(cfg: Config, w: World, e: Event)
    ensures Run(cfg, w, [e]) == Next(cfg, w, e)
  {
    assert [e][..0] == [];
    assert Run(cfg, w, []) == w;
  }

  lemma {:induction false} RunFirst(cfg: Config, w: World, e: Event, rest: seq<Event>)
    ensures Run(cfg, w, [e] + rest) == Run(cfg, Next(cfg, w, e), rest)
  {
    RunConcat(cfg, w, [e], rest);
    RunLast(cfg, w, e);
  }

  lemma {:induction false} Joined(cfg: Config, w: World, a: seq<Event>, x: World, b: seq<Event>, y: World)
    requires Run(cfg, w, a) == x && Run(cfg, x, b) == y
    ensures Run(cfg, w, a + b) == y
  {
    RunConcat(cfg, w, a, b);
  }

  lemma {:induction false} RunOf3(cfg: Config, w: World, a: Event, b: Event, c: Event)
    ensures Run(cfg, w, [a, b, c]) == Next(cfg, Next(cfg, Next(cfg, w, a), b), c)
  {
    assert [a, b, c] == [a] + ([b] + [c]);
    RunFirst(cfg, w, a, [b] + [c]);
    RunFirst(cfg, Next(cfg, w, a), b, [c]);
    RunLast(cfg, Next(cfg, Next(cfg, w, a), b), c);
  }

  /** What an evaluation that finds the metric crossed meets: how the value is written, the objects that
      match, and the results of the half that runs at once, if it comes to that. */
  datatype Half = Half(value: string, matched: seq<Target>, results: seq<Result<string>>)

  predicate Plausible(cfg: Config, h: Half) {
    |h.matched| <= cfg.maxResources && Confined(h.results, EffectiveTargets(h.matched, cfg.namespace))
  }

  const NOTHING_MATCHED := Half("", [], [])

  function Crossed(h: Half): Event {
    PolicyEvaluate(true, Value(true, h.value), Some(h.matched), h.results)
  }

  // ---------------------------------------------------------------------------------------
  // From rest to a trigger
  // ---------------------------------------------------------------------------------------

  /** A reconcile that read `snap` may evaluate and trigger at t: no cooldown, room under the cap. */
  ghost predicate Ready(cfg: Config, w: World, snap: Policy, t: int) {
    && (snap.lastTriggeredAt.Some? ==> t - snap.lastTriggeredAt.value >= cfg.cooldown)
    && RecentCount(w.audits, t - HOUR) < cfg.maxPerHour
    && (w.cache.Some? ==> w.cache.value.count < cfg.maxPerHour)
  }

  lemma ReadAt(cfg: Config, w: World)
    requires w.ppc == PIdle && w.policy.pendingGateRef == None
    ensures Next(cfg, w, PolicyRead) == w.(ppc := PEvaluate(w.policy, w.now))
  {
  }

  function Counted(cfg: Config, w: World, t: int): Option<Entry> {
    CountStep(w.cache, t, cfg.pollInterval, Some(RecentCount(w.audits, t - HOUR))).entry
  }

  lemma OpenWindow(cfg: Config, w: World, snap: Policy, t: int, h: Half)
    requires w.ppc == PEvaluate(snap, t) && Ready(cfg, w, snap, t) && w.window == None && 0 < cfg.duration
    ensures Next(cfg, w, Crossed(h)) == w.(cache := Counted(cfg, w, t), window := Some(t), ppc := PFinish(snap, false, None))
  {
  }

  lemma Fire(cfg: Config, w: World, snap: Policy, t: int, h: Half)
    requires Plausible(cfg, h)
    requires w.ppc == PEvaluate(snap, t) && Ready(cfg, w, snap, t) && w.window.Some? && t - w.window.value >= cfg.duration
    ensures Next(cfg, w, Crossed(h)) ==
            w.(cache := Counted(cfg, w, t), ppc := PCreate(snap, t, h.value, h.results, EffectiveTargets(h.matched, cfg.namespace)),
               marks := w.marks + [Triggered(t)])
  {
  }

  lemma FinishQuietly(cfg: Config, w: World)
    requires w.ppc == PFinish(w.policy, false, None)
    ensures Next(cfg, w, PolicyFinish(true)) == w.(policy := w.policy.(version := w.policy.version + 1), ppc := PIdle)
  {
  }

  /** The cached count after an evaluation is one that was there or a fresh one. */
  function MostCounted(w: World, t: int): nat {
    var listed := RecentCount(w.audits, t - HOUR);
    if w.cache.Some? && w.cache.value.count > listed then w.cache.value.count else listed
  }

  lemma StillReady(cfg: Config, w: World, w': World, snap: Policy, t: int, snap': Policy, t': int)
    requires Ready(cfg, w, snap, t) && t <= t'
    requires w'.audits == w.audits && w'.cache == Counted(cfg, w, t)
    requires snap'.lastTriggeredAt.Some? ==> t' - snap'.lastTriggeredAt.value >= cfg.cooldown
    ensures Ready(cfg, w', snap', t') && w'.cache.Some? && w'.cache.value.count <= MostCounted(w, t)
  {
    SubsetSize(RecentIds(w.audits, t' - HOUR), RecentIds(w.audits, t - HOUR));
  }

  /** One reconcile sees the metric crossed and opens the window. */
  function Open(h: Half): seq<Event> {
    [PolicyRead, Crossed(h), PolicyFinish(true)]
  }

  function Opened(cfg: Config, w: World): World {
    w.(policy := w.policy.(version := w.policy.version + 1), window := Some(w.now), cache := Counted(cfg, w, w.now))
  }

  lemma {:induction false} Opens(cfg: Config, w: World, h: Half)
    requires w.ppc == PIdle && w.policy.pendingGateRef == None && w.window == None && Ready(cfg, w, w.policy, w.now) && 0 < cfg.duration
    ensures Run(cfg, w, Open(h)) == Opened(cfg, w)
  {
    ReadAt(cfg, w);
    var w1 := Next(cfg, w, PolicyRead);
    OpenWindow(cfg, w1, w.policy, w.now, h);
    var w2 := Next(cfg, w1, Crossed(h));
    FinishQuietly(cfg, w2);
    RunOf3(cfg, w, PolicyRead, Crossed(h), PolicyFinish(true));
  }

  /** A later one finds it still crossed. */
  function FireAfter(delay: nat, h: Half): seq<Event> {
    [Tick(delay), PolicyRead, Crossed(h)]
  }

  /** With the window open for its duration, a reconcile at rest fires. */
  lemma ReadsAndFires(cfg: Config, w: World, t: int, h: Half)
    requires Plausible(cfg, h)
    requires w.ppc == PIdle && w.policy.pendingGateRef == None && w.window.Some? && w.now == t && t - w.window.value >= cfg.duration
    requires Ready(cfg, w, w.policy, t)
    ensures Next(cfg, Next(cfg, w, PolicyRead), Crossed(h)) == Fired(cfg, w, 0, h)
  {
    ReadAt(cfg, w);
    Fire(cfg, Next(cfg, w, PolicyRead), w.policy, t, h);
  }

  lemma {:induction false} FiresLater(cfg: Config, w: World, delay: nat, h: Half)
    requires Plausible(cfg, h)
    requires w.ppc == PIdle && w.policy.pendingGateRef == None && w.window.Some? && w.now + delay - w.window.value >= cfg.duration
    requires Ready(cfg, w, w.policy, w.now + delay)
    ensures Run(cfg, w, FireAfter(delay, h)) == Fired(cfg, w, delay, h)
  {
    var w1 := w.(now := w.now + delay);
    assert Next(cfg, w, Tick(delay)) == w1;
    var last := Next(cfg, Next(cfg, w1, PolicyRead), Crossed(h));
    assert last == Fired(cfg, w, delay, h) by {
      ReadsAndFires(cfg, w1, w1.now, h);
    }
    assert Run(cfg, w, FireAfter(delay, h)) == last by {
      RunOf3(cfg, w, Tick(delay), PolicyRead, Crossed(h));
    }
  }

  lemma {:induction false} MarksLater(cfg: Config, w: World, delay: nat, h: Half)
    requires Plausible(cfg, h)
    requires w.ppc == PIdle && w.policy.pendingGateRef == None && w.window.Some? && w.now + delay - w.window.value >= cfg.duration
    requires Ready(cfg, w, w.policy, w.now + delay)
    ensures Run(cfg, w, FireAfter(delay, h)).marks == w.marks + [Triggered(w.now + delay)]
  {
    FiresLater(cfg, w, delay, h);
  }

  function Fired(cfg: Config, w: World, delay: nat, h: Half): World {
    w.(now := w.now + delay, cache := Counted(cfg, w, w.now + delay),
       ppc := PCreate(w.policy, w.now + delay, h.value, h.results, EffectiveTargets(h.matched, cfg.namespace)),
       marks := w.marks + [Triggered(w.now + delay)])
  }

  /** A policy at rest whose metric stays crossed for its duration triggers. */
  function Sustain(cfg: Config, h: Half): seq<Event>
    requires 0 <= cfg.duration
  {
    Open(h) + FireAfter(cfg.duration, h)
  }

  lemma ReadyOnceOpened(cfg: Config, w: World, h: Half)
    requires Ready(cfg, w, w.policy, w.now) && 0 < cfg.duration
    ensures var w1 := Opened(cfg, w);
            Ready(cfg, w1, w1.policy, w.now + cfg.duration)
    ensures var cache := Fired(cfg, Opened(cfg, w), cfg.duration, h).cache;
            cache.Some? && cache.value.count <= MostCounted(w, w.now)
  {
    var w1 := Opened(cfg, w);
    StillReady(cfg, w, w1, w.policy, w.now, w1.policy, w.now + cfg.duration);
    SubsetSize(RecentIds(w.audits, w.now + cfg.duration - HOUR), RecentIds(w.audits, w.now - HOUR));
  }

  lemma {:induction false} SustainedFires(cfg: Config, w: World, h: Half)
    requires Plausible(cfg, h)
    requires w.ppc == PIdle && w.policy.pendingGateRef == None && w.window == None && Ready(cfg, w, w.policy, w.now) && 0 < cfg.duration
    ensures Run(cfg, w, Sustain(cfg, h)) == Fired(cfg, Opened(cfg, w), cfg.duration, h)
  {
    ReadyOnceOpened(cfg, w, h);
    Opens(cfg, w, h);
    var w1 := Opened(cfg, w);
    FiresLater(cfg, w1, cfg.duration, h);
    Joined(cfg, w, Open(h), w1, FireAfter(cfg.duration, h), Fired(cfg, w1, cfg.duration, h));
  }

  // ---------------------------------------------------------------------------------------
  // A gate opens
  // ---------------------------------------------------------------------------------------

  /** The record is created and marked Pending, and the write of its reference lands or is lost. */
  function OpenGate(id: Id, landed: bool): seq<Event> {
    [PolicyCreate(true, id), PolicyMark(true), PolicyFinish(landed)]
  }

  /** The reference is still to be written. */
  function MarkGate(id: Id): seq<Event> {
    [PolicyCreate(true, id), PolicyMark(true)]
  }

  /** The record of a gate opened at t, as it stands once marked. */
  ghost predicate OpenSince(cfg: Config, w: World, id: Id, t: int) {
    && id in w.audits && id in w.ledger
    && w.audits[id].version == 1 && w.audits[id].created == t
    && w.audits[id].audit.status.phase == Pending
    && w.audits[id].audit.spec.gate.Some?
    && w.audits[id].audit.spec.gate.value.decision == Undecided
    && w.audits[id].audit.spec.gate.value.expiresAt == t + cfg.approvalTimeout
    && w.audits[id].audit.spec.triggeredAt == t
  }

  lemma CreatesFreshRecord(cfg: Config, w: World, id: Id)
    requires w.ppc.PCreate? && w.ppc.t == w.now && id !in w.audits && id !in w.ledger && cfg.gate >= 0
    ensures var w' := Next(cfg, w, PolicyCreate(true, id));
            && id in w'.audits && w'.audits[id].version == 0 && w'.audits[id].created == w.now
            && w'.audits[id].audit == NewAudit(cfg, w.now, w.ppc.value, w.ppc.results, w.ppc.targets)
            && w' == w.(audits := w.audits[id := w'.audits[id]], ledger := w'.ledger, ppc := PMark(w.ppc.snap, w.now, id, 0))
            && id in w'.ledger && w'.ledger == w.ledger[id := w'.ledger[id]] && w'.ledger[id].last.spec.triggeredAt == w.ppc.t
  {
  }

  lemma MarksFreshRecord(cfg: Config, w: World, id: Id)
    requires w.ppc.PMark? && w.ppc.id == id && w.ppc.version == 0 && id in w.audits && id in w.ledger && w.audits[id].version == 0
    requires w.audits[id].audit.spec.triggeredAt == w.ledger[id].last.spec.triggeredAt
    ensures var w' := Next(cfg, w, PolicyMark(true));
            && w'.policy == w.policy && w'.now == w.now && w'.apcs == w.apcs && w'.window == None && w'.marks == w.marks
            && w'.cache == Bump(w.cache, w.ppc.t) && w'.skipped == w.skipped
            && id in w'.ledger && w'.ledger == w.ledger[id := w'.ledger[id]]
            && w'.ledger[id].last.spec.triggeredAt == w.ledger[id].last.spec.triggeredAt
            && w'.ppc == PFinish(w.ppc.snap.(pendingGateRef := Some(id)), true, Some(id))
            && id in w'.audits && w'.audits == w.audits[id := w'.audits[id]] && w'.audits[id].version == 1
            && w'.audits[id].created == w.audits[id].created
            && w'.audits[id].audit == w.audits[id].audit.(status := w.audits[id].audit.status.(phase := Pending))
  {
  }

  lemma CreatesUndecided(cfg: Config, w: World, id: Id)
    requires w.ppc.PCreate? && w.ppc.t == w.now && id !in w.audits && id !in w.ledger && cfg.gate >= 0
    ensures var w' := Next(cfg, Next(cfg, w, PolicyCreate(true, id)), PolicyMark(true));
            && OpenSince(cfg, w', id, w.now)
            && w'.policy == w.policy && w'.now == w.now && w'.apcs == w.apcs && w'.window == None
            && w'.cache == Bump(w.cache, w.now) && w'.audits.Keys == w.audits.Keys + {id} && w'.ledger.Keys == w.ledger.Keys + {id}
            && w'.ppc == PFinish(w.ppc.snap.(pendingGateRef := Some(id)), true, Some(id))
            && w'.marks == w.marks && forall other :: other in w.audits ==> w'.audits[other] == w.audits[other]
  {
    CreatesFreshRecord(cfg, w, id);
    MarksFreshRecord(cfg, Next(cfg, w, PolicyCreate(true, id)), id);
  }

  lemma {:induction false} OpensGate(cfg: Config, w: World, id: Id, landed: bool)
    requires w.ppc.PCreate? && w.ppc.t == w.now && w.ppc.snap == w.policy && id !in w.audits && id !in w.ledger && cfg.gate >= 0
    ensures var w' := Run(cfg, w, OpenGate(id, landed));
            && OpenSince(cfg, w', id, w.now)
            && w'.policy == (if landed then w.policy.(version := w.policy.version + 1, pendingGateRef := Some(id)) else w.policy)
            && w'.ppc == PIdle && w'.now == w.now && w'.apcs == w.apcs && w'.window == None && w'.cache == Bump(w.cache, w.now)
            && w'.audits.Keys == w.audits.Keys + {id} && w'.ledger.Keys == w.ledger.Keys + {id} && w'.marks == w.marks
            && forall other :: other in w.audits ==> w'.audits[other] == w.audits[other]
  {
    RunOf3(cfg, w, PolicyCreate(true, id), PolicyMark(true), PolicyFinish(landed));
    CreatesUndecided(cfg, w, id);
  }

  /** A record is created, with or without a gate, and the status write that closes its reconcile is
      lost. */
  function LoseRecord(cfg: Config, id: Id): seq<Event> {
    if cfg.gate >= 0 then OpenGate(id, false) else [PolicyCreate(true, id), PolicyFinish(false)]
  }

  /** One record more, counted, and nothing else to show for it. */
  ghost predicate JustRecorded(w: World, w': World, id: Id) {
    && w'.policy == w.policy && w'.ppc == PIdle && w'.now == w.now && w'.apcs == w.apcs && w'.window == None
    && w'.cache == Bump(w.cache, w.now) && w'.skipped == w.skipped
    && id in w'.audits && w'.audits == w.audits[id := w'.audits[id]] && w'.audits[id].created == w.now
    && id in w'.ledger && w'.ledger == w.ledger[id := w'.ledger[id]] && w'.ledger[id].last.spec.triggeredAt == w.now
  }

  lemma {:induction false} LosesUngated(cfg: Config, w: World, id: Id)
    requires w.ppc.PCreate? && w.ppc.t == w.now && id !in w.audits && id !in w.ledger && cfg.gate < 0
    ensures JustRecorded(w, Run(cfg, w, LoseRecord(cfg, id)), id)
  {
    assert LoseRecord(cfg, id) == [PolicyCreate(true, id)] + [PolicyFinish(false)];
    RunFirst(cfg, w, PolicyCreate(true, id), [PolicyFinish(false)]);
    RunLast(cfg, Next(cfg, w, PolicyCreate(true, id)), PolicyFinish(false));
  }

  lemma {:induction false} LosesGated(cfg: Config, w: World, id: Id)
    requires w.ppc.PCreate? && w.ppc.t == w.now && id !in w.audits && id !in w.ledger && cfg.gate >= 0
    ensures JustRecorded(w, Run(cfg, w, LoseRecord(cfg, id)), id)
  {
    CreatesFreshRecord(cfg, w, id);
    MarksFreshRecord(cfg, Next(cfg, w, PolicyCreate(true, id)), id);
    RunOf3(cfg, w, PolicyCreate(true, id), PolicyMark(true), PolicyFinish(false));
  }

  /** Whether or not the pipeline has a gate. */
  lemma {:induction false} LosesRecord(cfg: Config, w: World, id: Id)
    requires w.ppc.PCreate? && w.ppc.t == w.now && id !in w.audits && id !in w.ledger
    ensures JustRecorded(w, Run(cfg, w, LoseRecord(cfg, id)), id)
  {
    if cfg.gate >= 0 {
      LosesGated(cfg, w, id);
    } else {
      LosesUngated(cfg, w, id);
    }
  }

  /** From rest to an open gate. */
  function GateCycle(cfg: Config, id: Id, landed: bool, h: Half): seq<Event>
    requires 0 <= cfg.duration
  {
    Sustain(cfg, h) + OpenGate(id, landed)
  }

  lemma {:induction false} CycleEndsWithGate(cfg: Config, w: World, id: Id, landed: bool, h: Half)
    requires Plausible(cfg, h)
    requires w.ppc == PIdle && w.policy.pendingGateRef == None && w.window == None && Ready(cfg, w, w.policy, w.now) && 0 < cfg.duration
    ensures Run(cfg, w, GateCycle(cfg, id, landed, h)) == Run(cfg, Fired(cfg, Opened(cfg, w), cfg.duration, h), OpenGate(id, landed))
  {
    SustainedFires(cfg, w, h);
    RunConcat(cfg, w, Sustain(cfg, h), OpenGate(id, landed));
  }

  lemma {:induction false} CycleOpensGate(cfg: Config, w: World, id: Id, landed: bool, h: Half)
    requires Plausible(cfg, h)
    requires w.ppc == PIdle && w.policy.pendingGateRef == None && w.window == None && Ready(cfg, w, w.policy, w.now) && 0 < cfg.duration
    requires id !in w.audits && id !in w.ledger && cfg.gate >= 0
    ensures var w' := Run(cfg, w, GateCycle(cfg, id, landed, h));
            var t := w.now + cfg.duration;
            && OpenSince(cfg, w', id, t)
            && w'.policy.lastTriggeredAt == w.policy.lastTriggeredAt && w'.policy.pendingGateRef == (if landed then Some(id) else None)
            && w'.ppc == PIdle && w'.now == t && w'.apcs == w.apcs && w'.window == None
            && w'.audits.Keys == w.audits.Keys + {id} && w'.ledger.Keys == w.ledger.Keys + {id} && w'.marks == w.marks + [Triggered(t)]
            && (forall other :: other in w.audits ==> w'.audits[other] == w.audits[other])
            && w'.cache.Some? && w'.cache.value.count <= MostCounted(w, w.now) + 1
  {
    CycleEndsWithGate(cfg, w, id, landed, h);
    ReadyOnceOpened(cfg, w, h);
    OpensGate(cfg, Fired(cfg, Opened(cfg, w), cfg.duration, h), id, landed);
  }

  // ---------------------------------------------------------------------------------------
  // A gate is refused
  // ---------------------------------------------------------------------------------------

  /** Everything but the record and its reconcile is as before. */
  ghost predicate OnlyRecord(w: World, w': World) {
    && w'.policy == w.policy && w'.ppc == w.ppc && w'.now == w.now && w'.window == w.window && w'.cache == w.cache
    && w'.marks == w.marks && w'.audits.Keys == w.audits.Keys && w'.ledger.Keys == w.ledger.Keys
  }

  /** A human says no. */
  function SayNo(id: Id): Event {
    ClientUpdate(id, 1, Deny, "", None, "", false, "human")
  }

  lemma VerdictAdmitted(cfg: Config, w: World, id: Id, t: int)
    requires OpenSince(cfg, w, id, t) && w.now == t && w.apcs == map[] && 0 < cfg.approvalTimeout
    ensures var w' := Next(cfg, w, SayNo(id));
            && OnlyRecord(w, w') && w'.apcs == map[] && DeniedSince(w', id, t)
  {
  }

  /** A gate opened at t that a human has denied, and that nobody has resolved yet. */
  ghost predicate DeniedSince(w: World, id: Id, t: int) {
    && id in w.audits && id in w.ledger
    && w.audits[id].created == t && w.audits[id].audit.spec.triggeredAt == t
    && w.audits[id].audit.status.phase == Pending
    && w.audits[id].audit.spec.gate.Some? && w.audits[id].audit.spec.gate.value.decision == Deny
  }

  /** An hour passes, and the operator restarts: the trigger has left the trailing hour and the count. */
  function Pause(): seq<Event> {
    [Tick(HOUR), Restart]
  }

  lemma {:induction false} Pauses(cfg: Config, w: World)
    requires w.ppc == PIdle && w.apcs == map[]
    ensures Run(cfg, w, Pause()) == w.(now := w.now + HOUR, window := None, cache := None)
  {
    var w1 := Next(cfg, w, Tick(HOUR));
    assert Next(cfg, w1, Restart).ledger == w.ledger;
    assert Pause() == [Tick(HOUR)] + [Restart];
    RunFirst(cfg, w, Tick(HOUR), [Restart]);
    RunLast(cfg, w1, Restart);
  }

  /** With no record in the trailing hour and no count at hand there is room for a trigger. */
  lemma Aged(cfg: Config, w: World, t: int)
    requires w.audits.Keys == {0} && w.audits[0].audit.spec.triggeredAt + HOUR <= t
    ensures RecentCount(w.audits, t - HOUR) == 0
  {
    assert RecentIds(w.audits, t - HOUR) == {};
  }

  /** The audit reconciler records the held actions as skipped. */
  function RecordSkipped(id: Id): seq<Event> {
    [AuditRead(id), AuditDecide(id, false, true), AuditWriteSpec(id, true)]
  }

  lemma FindsDenied(cfg: Config, w: World, id: Id, t: int)
    requires w.apcs == map[] && DeniedSince(w, id, t) && w.now < t + DEFAULT_RETENTION
    ensures var w' := Next(cfg, Next(cfg, w, AuditRead(id)), AuditDecide(id, false, true));
            var who := DecidedByOrUnknown(w.audits[id].audit.spec.gate.value);
            w' == w.(apcs := map[id := CloseGate(w.now, w.audits[id], Denied, DeniedByHuman(who))])
  {
    var w1 := Next(cfg, w, AuditRead(id));
    assert w1 == w.(apcs := map[id := ADecide(w.audits[id])]);
    var w' := Next(cfg, w1, AuditDecide(id, false, true));
    assert w'.apcs == map[id := CloseGate(w.now, w.audits[id], Denied, DeniedByHuman(DecidedByOrUnknown(w.audits[id].audit.spec.gate.value)))];
  }

  /** All writes but the status write are through. */
  ghost predicate Ending(w: World, id: Id, since: int) {
    && id in w.audits && id in w.ledger && id in w.apcs && w.apcs == map[id := w.apcs[id]]
    && w.apcs[id].AStatus? && w.apcs[id].base == w.audits[id] && w.apcs[id].phase == Denied
    && w.apcs[id].since == since && w.apcs[id].policy == None
  }

  lemma RecordsSkipped(cfg: Config, w: World, id: Id, closing: Closing)
    requires id in w.audits && id in w.ledger && w.audits[id].audit.spec.gate.Some?
    requires w.apcs == map[id := CloseGate(w.now, w.audits[id], Denied, closing)]
    ensures var w' := Next(cfg, w, AuditWriteSpec(id, true));
            && OnlyRecord(w, w') && Ending(w', id, w.now)
            && w'.audits[id].audit.spec.triggeredAt == w.audits[id].audit.spec.triggeredAt
  {
    var pc := w.apcs[id];
    if pc.ASpec? {
      OperatorUpdatesAdmitted(w.audits[id].audit, pc.spec.actions, OPERATOR, w.now);
      assert pc.spec == w.audits[id].audit.spec.(actions := pc.spec.actions);
    }
  }

  lemma {:induction false} RecordsDenial(cfg: Config, w: World, id: Id, t: int)
    requires w.apcs == map[] && DeniedSince(w, id, t) && w.now < t + DEFAULT_RETENTION
    ensures var w' := Run(cfg, w, RecordSkipped(id));
            OnlyRecord(w, w') && Ending(w', id, w.now) && w'.audits[id].audit.spec.triggeredAt == t
  {
    FindsDenied(cfg, w, id, t);
    var w2 := Next(cfg, Next(cfg, w, AuditRead(id)), AuditDecide(id, false, true));
    RecordsSkipped(cfg, w2, id, DeniedByHuman(DecidedByOrUnknown(w.audits[id].audit.spec.gate.value)));
    RunOf3(cfg, w, AuditRead(id), AuditDecide(id, false, true), AuditWriteSpec(id, true));
  }

  lemma EndsDenied(cfg: Config, w: World, id: Id, since: int)
    requires Ending(w, id, since) && since <= w.now
    ensures var w' := Next(cfg, w, AuditWriteStatus(id, w.now, true));
            && OnlyRecord(w, w') && w'.apcs == map[id := AReadPolicy(w.now)]
            && id in w'.audits && w'.audits[id].audit.status.phase == Denied
            && w'.audits[id].audit.spec.triggeredAt == w.audits[id].audit.spec.triggeredAt
  {
  }

  /** From now on the denied gate is resolved; the write that ends it lands `lag` later. The tail of
      the resolution is left. */
  function Refuse(id: Id, now: int, lag: nat): seq<Event> {
    RecordSkipped(id) + EndLate(id, now, lag)
  }

  function EndLate(id: Id, t: int, lag: nat): seq<Event> {
    [Tick(lag), AuditWriteStatus(id, t + lag, true)]
  }

  lemma {:induction false} RefusalEnds(cfg: Config, w: World, id: Id, t: int, lag: nat)
    requires Ending(w, id, t) && w.now == t
    ensures var w' := Run(cfg, w, EndLate(id, t, lag));
            && OnlyRecord(w.(now := t + lag), w') && w'.apcs == map[id := AReadPolicy(t + lag)]
            && id in w'.audits && w'.audits[id].audit.status.phase == Denied
            && w'.audits[id].audit.spec.triggeredAt == w.audits[id].audit.spec.triggeredAt
  {
    assert EndLate(id, t, lag) == [Tick(lag)] + [AuditWriteStatus(id, t + lag, true)];
    var w1 := w.(now := t + lag);
    assert Next(cfg, w, Tick(lag)) == w1;
    RunFirst(cfg, w, Tick(lag), [AuditWriteStatus(id, t + lag, true)]);
    RunLast(cfg, w1, AuditWriteStatus(id, t + lag, true));
    EndsDenied(cfg, w1, id, t);
  }

  lemma {:induction false} Refuses(cfg: Config, w: World, id: Id, t: int, lag: nat)
    requires w.apcs == map[] && DeniedSince(w, id, t) && w.now < t + DEFAULT_RETENTION
    ensures var w' := Run(cfg, w, Refuse(id, w.now, lag));
            && OnlyRecord(w.(now := w.now + lag), w') && w'.apcs == map[id := AReadPolicy(w.now + lag)]
            && id in w'.audits && w'.audits[id].audit.status.phase == Denied && w'.audits[id].audit.spec.triggeredAt == t
  {
    RecordsDenial(cfg, w, id, t);
    var w1 := Run(cfg, w, RecordSkipped(id));
    RefusalEnds(cfg, w1, id, w.now, lag);
    Joined(cfg, w, RecordSkipped(id), w1, EndLate(id, w.now, lag), Run(cfg, w1, EndLate(id, w.now, lag)));
  }

  /** startCooldown for a closed gate: the policy is read and written. */
  function CoolDown(id: Id): seq<Event> {
    [AuditReadPolicy(id, true), AuditCooldown(id, true)]
  }

  lemma {:induction false} CoolsDown(cfg: Config, w: World, id: Id, d: int)
    requires w.apcs == map[id := AReadPolicy(d)]
    ensures var w' := Run(cfg, w, CoolDown(id));
            w' == w.(apcs := map[], policy := Policy(w.policy.version + 1, Some(d), None), marks := w.marks + [CooldownStarted(d)])
  {
    var w1 := Next(cfg, w, AuditReadPolicy(id, true));
    assert w1 == w.(apcs := map[id := ACool(w.policy, d)]);
    assert Next(cfg, w1, AuditCooldown(id, true)).apcs == map[];
    assert CoolDown(id) == [AuditReadPolicy(id, true)] + [AuditCooldown(id, true)];
    RunFirst(cfg, w, AuditReadPolicy(id, true), [AuditCooldown(id, true)]);
    RunLast(cfg, w1, AuditCooldown(id, true));
  }

  // ---------------------------------------------------------------------------------------
  // The first gate
  // ---------------------------------------------------------------------------------------

  /** Gated policies that can trigger. */
  ghost predicate Gated(cfg: Config) {
    ValidConfig(cfg) && cfg.gate >= 0 && 0 < cfg.duration && 0 < cfg.maxPerHour
  }

  /** One record, of a gate opened at t, and nothing under way; `ref` is what the policy refers to. */
  ghost predicate FirstOpen(cfg: Config, w: World, t: int, ref: Option<Id>) {
    && OpenSince(cfg, w, 0, t) && w.now == t && w.ppc == PIdle && w.window == None && w.apcs == map[]
    && w.policy.lastTriggeredAt == None && w.policy.pendingGateRef == ref
    && w.audits.Keys == {0} && w.ledger.Keys == {0} && w.marks == [Triggered(t)]
  }

  lemma {:induction false} FirstGate(cfg: Config, landed: bool, h: Half)
    requires Gated(cfg) && Plausible(cfg, h)
    ensures FirstOpen(cfg, Run(cfg, Start(), GateCycle(cfg, 0, landed, h)), cfg.duration, if landed then Some(0) else None)
  {
    var w := Start();
    assert RecentIds(w.audits, w.now - HOUR) == {};
    CycleOpensGate(cfg, w, 0, landed, h);
  }

  /** The same gate, denied an hour ago and not resolved yet. */
  ghost predicate FirstDenied(cfg: Config, w: World) {
    && DeniedSince(w, 0, cfg.duration) && w.now == cfg.duration + HOUR
    && w.ppc == PIdle && w.window == None && w.cache == None && w.apcs == map[]
    && w.policy.lastTriggeredAt == None && w.policy.pendingGateRef == Some(0)
    && w.audits.Keys == {0} && w.ledger.Keys == {0} && w.marks == [Triggered(cfg.duration)]
  }

  /** The first gate opens, a human denies it, and an hour passes. */
  function DenyFirst(cfg: Config, h: Half): seq<Event>
    requires 0 <= cfg.duration
  {
    GateCycle(cfg, 0, true, h) + DenyAndPause()
  }

  function DenyAndPause(): seq<Event> {
    [SayNo(0)] + Pause()
  }

  lemma {:induction false} DeniesAndPauses(cfg: Config, w: World)
    requires Gated(cfg) && FirstOpen(cfg, w, cfg.duration, Some(0))
    ensures FirstDenied(cfg, Run(cfg, w, DenyAndPause()))
  {
    VerdictAdmitted(cfg, w, 0, cfg.duration);
    RunFirst(cfg, w, SayNo(0), Pause());
    Pauses(cfg, Next(cfg, w, SayNo(0)));
  }

  lemma {:induction false} DeniesFirst(cfg: Config, h: Half)
    requires Gated(cfg) && Plausible(cfg, h)
    ensures FirstDenied(cfg, Run(cfg, Start(), DenyFirst(cfg, h)))
  {
    FirstGate(cfg, true, h);
    var w := Run(cfg, Start(), GateCycle(cfg, 0, true, h));
    DeniesAndPauses(cfg, w);
    Joined(cfg, Start(), GateCycle(cfg, 0, true, h), w, DenyAndPause(), Run(cfg, w, DenyAndPause()));
  }

  // ---------------------------------------------------------------------------------------
  // A reconcile that looks at the gate late
  // ---------------------------------------------------------------------------------------

  /** The reconcile finds the gate closed and opens the window with its own time. */
  function LookLate(h: Half): seq<Event> {
    [PolicyCheckGate(true), Crossed(h), PolicyFinish(true)]
  }

  /** It took its time at t, an hour and more after the only trigger, and has not looked at the gate. */
  ghost predicate Looking(w: World, t: int) {
    && w.window == None && w.cache == None
    && w.ppc.PCheckGate? && w.ppc.t == t && w.ppc.snap.pendingGateRef == Some(0) && w.ppc.snap.lastTriggeredAt == None
    && w.audits.Keys == {0} && w.audits[0].audit.status.phase == Denied && w.audits[0].audit.spec.triggeredAt + HOUR <= t
  }

  /** The state once it has ended; its write lands if the policy has not moved since. */
  function Looked(cfg: Config, w: World, t: int): World
    requires w.ppc.PCheckGate?
  {
    w.(cache := Counted(cfg, w, t), window := Some(t), ppc := PIdle,
       policy := if w.ppc.snap.version == w.policy.version
                 then w.ppc.snap.(pendingGateRef := None, version := w.policy.version + 1) else w.policy)
  }

  lemma RoomWhileLooking(cfg: Config, w: World, t: int, policy: Policy, later: int)
    requires Looking(w, t) && Gated(cfg) && t <= later
    requires policy.lastTriggeredAt.Some? ==> later - policy.lastTriggeredAt.value >= cfg.cooldown
    ensures Ready(cfg, w, w.ppc.snap, t) && Ready(cfg, Looked(cfg, w, t), policy, later)
  {
    Aged(cfg, w, t);
    StillReady(cfg, w, Looked(cfg, w, t), w.ppc.snap, t, policy, later);
  }

  lemma FindsGateClosed(cfg: Config, w: World, t: int)
    requires Looking(w, t)
    ensures Next(cfg, w, PolicyCheckGate(true)) == w.(ppc := PEvaluate(w.ppc.snap.(pendingGateRef := None), t))
  {
  }

  lemma {:induction false} LooksLate(cfg: Config, w: World, t: int, h: Half)
    requires Looking(w, t) && Gated(cfg)
    ensures Run(cfg, w, LookLate(h)) == Looked(cfg, w, t)
  {
    RoomWhileLooking(cfg, w, t, w.ppc.snap, t);
    FindsGateClosed(cfg, w, t);
    var snap := w.ppc.snap.(pendingGateRef := None);
    var w1 := w.(ppc := PEvaluate(snap, t));
    OpenWindow(cfg, w1, snap, t, h);
    RunOf3(cfg, w, PolicyCheckGate(true), Crossed(h), PolicyFinish(true));
  }

  // ---------------------------------------------------------------------------------------
  // Which rules a piece keeps to
  // ---------------------------------------------------------------------------------------

  lemma {:induction false} JoinedAt(cfg: Config, w: World, a: seq<Event>, b: seq<Event>, k: nat)
    requires k < |a + b|
    ensures k < |a| ==> Run(cfg, w, (a + b)[..k]) == Run(cfg, w, a[..k]) && (a + b)[k] == a[k]
    ensures k >= |a| ==> Run(cfg, w, (a + b)[..k]) == Run(cfg, Run(cfg, w, a), b[..k - |a|]) && (a + b)[k] == b[k - |a|]
  {
    if k < |a| {
      assert (a + b)[..k] == a[..k];
    } else {
      assert (a + b)[..k] == a + b[..k - |a|];
      RunConcat(cfg, w, a, b[..k - |a|]);
    }
  }

  lemma ThroughoutConcat(cfg: Config, w: World, a: seq<Event>, b: seq<Event>, rule: Rule)
    requires Throughout(cfg, w, a, rule) && Throughout(cfg, Run(cfg, w, a), b, rule)
    ensures Throughout(cfg, w, a + b, rule)
  {
    forall k | 0 <= k < |a + b|
      ensures Obeys(cfg, rule, Run(cfg, w, (a + b)[..k]), (a + b)[k])
    {
      JoinedAt(cfg, w, a, b, k);
      if k < |a| {
        assert Obeys(cfg, rule, Run(cfg, w, a[..k]), a[k]);
      } else {
        assert Obeys(cfg, rule, Run(cfg, Run(cfg, w, a), b[..k - |a|]), b[k - |a|]);
      }
    }
  }

  lemma ThroughoutOne(cfg: Config, w: World, e: Event, rule: Rule)
    requires Obeys(cfg, rule, w, e)
    ensures Throughout(cfg, w, [e], rule)
  {
    assert [e][..0] == [];
    assert Run(cfg, w, []) == w;
  }

  /** Steps this rule says nothing about. */
  predicate Unruled(rule: Rule, e: Event) {
    match rule
    case ReferencesLand => !e.PolicyFinish? && !e.Restart?
    case TriggersOutsideTails => !e.PolicyEvaluate?
    case EvaluationsOutsideTails => !e.PolicyEvaluate?
    case PromptChecks(_) => !e.PolicyCheckGate?
  }

  predicate AllUnruled(rule: Rule, es: seq<Event>) {
    forall i :: 0 <= i < |es| ==> Unruled(rule, es[i])
  }

  lemma UnruledConcat(rule: Rule, a: seq<Event>, b: seq<Event>)
    requires AllUnruled(rule, a) && AllUnruled(rule, b)
    ensures AllUnruled(rule, a + b)
  {
  }

  /** While a gate is resolved nobody evaluates, looks at the gate or writes back. */
  lemma RefusalUnruled(rule: Rule, id: Id, t: int, lag: nat)
    ensures AllUnruled(rule, Refuse(id, t, lag)) && AllUnruled(rule, CoolDown(id))
  {
    UnruledConcat(rule, RecordSkipped(id), EndLate(id, t, lag));
  }

  lemma UnruledThroughout(cfg: Config, w: World, es: seq<Event>, rule: Rule)
    requires AllUnruled(rule, es)
    ensures Throughout(cfg, w, es, rule)
  {
  }

  /** Time passes, and reconciles of the policy start, look and end. */
  predicate Looks(e: Event) {
    e.Tick? || e.PolicyRead? || e.PolicyCheckGate? || e.PolicyEvaluate? || e.PolicyFinish?
  }

  lemma LookingOpensNothing(cfg: Config, w: World, e: Event)
    requires !Opening(w.ppc) && Looks(e)
    ensures !Opening(Next(cfg, w, e).ppc)
  {
    if e.PolicyEvaluate? && w.ppc.PEvaluate? {
      EvaluationOutcome(cfg, w, e.listOk, e.sample, e.matched, e.results);
    }
  }

  lemma {:induction false} NothingToRefer(cfg: Config, w: World, es: seq<Event>)
    requires !Opening(w.ppc) && forall i :: 0 <= i < |es| ==> Looks(es[i])
    ensures !Opening(Run(cfg, w, es).ppc) && Throughout(cfg, w, es, ReferencesLand)
    decreases |es|
  {
    if es != [] {
      var n := |es| - 1;
      NothingToRefer(cfg, w, es[..n]);
      LookingOpensNothing(cfg, Run(cfg, w, es[..n]), es[n]);
      ThroughoutOne(cfg, Run(cfg, w, es[..n]), es[n], ReferencesLand);
      ThroughoutConcat(cfg, w, es[..n], [es[n]], ReferencesLand);
      assert es == es[..n] + [es[n]];
    }
  }

  lemma AuditsIdle(cfg: Config, w: World, e: Event)
    requires w.apcs == map[] && !ByAuditReconciler(e)
    ensures Next(cfg, w, e).apcs == map[]
  {
    if e.PolicyEvaluate? {
      EvaluationSparesRecords(cfg, w, e.listOk, e.sample, e.matched, e.results);
    }
  }

  /** Neither rule about tails has anything to say while there is none. */
  lemma {:induction false} NoTails(cfg: Config, w: World, es: seq<Event>, rule: Rule)
    requires w.apcs == map[] && forall i :: 0 <= i < |es| ==> !ByAuditReconciler(es[i])
    requires rule == EvaluationsOutsideTails || rule == TriggersOutsideTails
    ensures Run(cfg, w, es).apcs == map[] && Throughout(cfg, w, es, rule)
    decreases |es|
  {
    if es != [] {
      var n := |es| - 1;
      NoTails(cfg, w, es[..n], rule);
      AuditsIdle(cfg, Run(cfg, w, es[..n]), es[n]);
      ThroughoutOne(cfg, Run(cfg, w, es[..n]), es[n], rule);
      ThroughoutConcat(cfg, w, es[..n], [es[n]], rule);
      assert es == es[..n] + [es[n]];
    }
  }

  /** The reference to the gate opened here lands. */
  lemma OpenGateRefers(cfg: Config, w: World, id: Id)
    requires w.ppc.PCreate? && w.ppc.t == w.now && w.ppc.snap == w.policy && id !in w.audits && id !in w.ledger && cfg.gate >= 0
    ensures Throughout(cfg, w, OpenGate(id, true), ReferencesLand)
  {
    CreatesUndecided(cfg, w, id);
    var first := MarkGate(id);
    assert first == [PolicyCreate(true, id)] + [PolicyMark(true)];
    UnruledThroughout(cfg, w, first, ReferencesLand);
    RunFirst(cfg, w, PolicyCreate(true, id), [PolicyMark(true)]);
    RunLast(cfg, Next(cfg, w, PolicyCreate(true, id)), PolicyMark(true));
    ThroughoutOne(cfg, Run(cfg, w, first), PolicyFinish(true), ReferencesLand);
    ThroughoutConcat(cfg, w, first, [PolicyFinish(true)], ReferencesLand);
    assert first + [PolicyFinish(true)] == OpenGate(id, true);
  }

  lemma {:induction false} FirstTrigger(cfg: Config, h: Half)
    requires Gated(cfg) && Plausible(cfg, h)
    ensures var w := Run(cfg, Start(), Sustain(cfg, h));
            w.ppc.PCreate? && w.ppc.t == w.now && w.ppc.snap == w.policy && w.audits == map[] && w.ledger == map[]
  {
    assert RecentIds(Start().audits, Start().now - HOUR) == {};
    SustainedFires(cfg, Start(), h);
  }

  lemma FirstReferenceLands(cfg: Config, h: Half)
    requires Gated(cfg) && Plausible(cfg, h)
    ensures Throughout(cfg, Start(), GateCycle(cfg, 0, true, h), ReferencesLand)
  {
    FirstTrigger(cfg, h);
    NothingToRefer(cfg, Start(), Sustain(cfg, h));
    OpenGateRefers(cfg, Run(cfg, Start(), Sustain(cfg, h)), 0);
    ThroughoutConcat(cfg, Start(), Sustain(cfg, h), OpenGate(0, true), ReferencesLand);
  }

  lemma DenialRefersToNothing(cfg: Config, w: World)
    requires FirstOpen(cfg, w, cfg.duration, Some(0))
    ensures Throughout(cfg, w, DenyAndPause(), ReferencesLand)
  {
    var w1 := Next(cfg, w, SayNo(0));
    assert w1.ppc == w.ppc;
    ThroughoutOne(cfg, w, SayNo(0), ReferencesLand);
    ThroughoutOne(cfg, w1, Tick(HOUR), ReferencesLand);
    ThroughoutOne(cfg, Next(cfg, w1, Tick(HOUR)), Restart, ReferencesLand);
    RunLast(cfg, w1, Tick(HOUR));
    RunLast(cfg, w, SayNo(0));
    ThroughoutConcat(cfg, w1, [Tick(HOUR)], [Restart], ReferencesLand);
    ThroughoutConcat(cfg, w, [SayNo(0)], Pause(), ReferencesLand);
  }

  /** All this happens by the rules. */
  lemma DenyFirstKeeps(cfg: Config, h: Half, rule: Rule)
    requires Gated(cfg) && Plausible(cfg, h)
    ensures Throughout(cfg, Start(), DenyFirst(cfg, h), rule)
  {
    var es := DenyFirst(cfg, h);
    match rule
    case ReferencesLand =>
      FirstGate(cfg, true, h);
      FirstReferenceLands(cfg, h);
      DenialRefersToNothing(cfg, Run(cfg, Start(), GateCycle(cfg, 0, true, h)));
      ThroughoutConcat(cfg, Start(), GateCycle(cfg, 0, true, h), DenyAndPause(), rule);
    case TriggersOutsideTails => NoTails(cfg, Start(), es, rule);
    case EvaluationsOutsideTails => NoTails(cfg, Start(), es, rule);
    case PromptChecks(_) => UnruledThroughout(cfg, Start(), es, rule);
  }
}
