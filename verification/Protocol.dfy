/**
 The operator as a transition system.
 */
module Protocol {
  import opened Common
  import opened Executor
  import opened AuditRecord
  import opened ApprovalApi
  import opened ApprovalWebhook
  import opened RateLimiter

  /*
   Two reconcilers, human clients and the audit sink act on versioned objects under a clock; the
   operator may lose its memory and every reconcile in flight at any moment.

   One step of a reconcile is one read or write of a shared object together with what follows up to
   the next one, so anything else may happen between a read and the write that depends on it. The
   metric query, the target lists and the plugin calls follow the read they come after. A write
   carries whether the API server fails it, and it also fails when the object's version moved since
   it was read. What a step does is a function of the state and of an event holding everything the
   environment chooses. An event that does not apply in a state leaves it unchanged.

   Sources: internal/controller/reactivepolicy_controller.go and
   internal/controller/actionaudit_controller.go. One policy with a fixed spec is modelled.
  */

  /** The name of an audit record; the API server never generates one twice. */
  type Id = nat

  /** The policy's spec, with defaults resolved, and the registry's reversible plugins.
      `gate` is the index of the first gated action, or -1. */
  datatype Config = Config(
    cooldown: int, duration: int, pollInterval: int, maxPerHour: int, maxResources: int,
    retention: int, approvalTimeout: int, gate: int, plugins: seq<string>,
    uid: string, namespace: string, reversible: set<string>)

  const DEFAULT_RETENTION := 30 * 24 * HOUR

  /** The operator's own identity at the API server. */
  const OPERATOR := "rp"

  ghost predicate ValidConfig(cfg: Config) {
    && 0 <= cfg.duration && 0 <= cfg.cooldown && 0 < cfg.approvalTimeout
    && -1 <= cfg.gate < |cfg.plugins|
  }

  // ---------------------------------------------------------------------------------------
  // Stored objects
  // ---------------------------------------------------------------------------------------

  datatype Policy = Policy(version: nat, lastTriggeredAt: Option<int>, pendingGateRef: Option<Id>)

  datatype Stored = Stored(version: nat, created: int, audit: Audit)

  // ---------------------------------------------------------------------------------------
  // Reconciles in flight
  // ---------------------------------------------------------------------------------------

  /** Where the policy reconcile stands. `t` is the time it took at its start, `snap` the policy as
      it will be written back, `gate` the gate this reconcile opened. */
  datatype PolicyPc =
    | PIdle
    | PCheckGate(snap: Policy, t: int)
    | PEvaluate(snap: Policy, t: int)
    | PCreate(snap: Policy, t: int, value: string, results: seq<Result<string>>, targets: seq<Target>)
    | PMark(snap: Policy, t: int, id: Id, version: nat)
    | PFinish(snap: Policy, fired: bool, gate: Option<Id>)

  /** Where the reconcile of one audit record stands. `base` is the record as last read or written;
      a release also carries the policy it read. */
  datatype AuditPc =
    | ADecide(base: Stored)
    | ARelease(base: Stored)
    | ASpec(base: Stored, spec: AuditSpec, phase: Phase, policy: Option<Policy>)
    | AStatus(base: Stored, phase: Phase, since: int, policy: Option<Policy>, ran: bool)
    | AReadPolicy(d: int)
    | ACool(snap: Policy, d: int)
    | AReverted(base: Stored)

  // ---------------------------------------------------------------------------------------
  // History
  // ---------------------------------------------------------------------------------------

  /** An admitted verdict, with the gate's expiry and the record's phase at that moment. */
  datatype Admission = Admission(decision: Decision, who: string, at: int, expiresAt: int, phase: Phase)

  /** What is remembered about a record for ever: its last content, the targets of its trigger,
      the admitted verdict, how often its held half and its undo were executed, and how often
      such an execution was not followed by the write that records it. */
  datatype Ledger = Ledger(
    last: Audit, targets: seq<Target>, verdict: Option<Admission>,
    runs: nat, lostRuns: nat, undos: nat, lostUndos: nat)

  datatype Mark = Triggered(t: int) | CooldownStarted(d: int)

  datatype Batch = Batch(id: Id, events: seq<Record>)

  datatype World = World(
    now: int,
    policy: Policy,
    audits: map<Id, Stored>,
    // the operator's memory
    window: Option<int>,
    cache: Option<Entry>,
    ppc: PolicyPc,
    apcs: map<Id, AuditPc>,
    // the sink's table, and the batches handed to the sink
    table: map<(Id, int), Record>,
    batches: seq<Batch>,
    // history
    ledger: map<Id, Ledger>,
    marks: seq<Mark>,
    landed: set<nat>,
    skipped: nat)

  ghost predicate Init(w: World) {
    && w.policy.lastTriggeredAt == None && w.policy.pendingGateRef == None
    && w.audits == map[] && w.window == None && w.cache == None && w.ppc == PIdle && w.apcs == map[]
    && w.table == map[] && w.batches == [] && w.ledger == map[] && w.marks == [] && w.landed == {} && w.skipped == 0
  }

  // ---------------------------------------------------------------------------------------
  // Events
  // ---------------------------------------------------------------------------------------

  /** What evaluating the metric yields: a failure, or whether the value is past the threshold and how
      it is written. */
  datatype Sample = ClientError | QueryFailed | BadThreshold | Value(crossed: bool, text: string)

  datatype PolicyAnswer = Found | Gone | Replaced | ReadError

  datatype Event =
    | Tick(seconds: nat)
    | Restart
    | TouchPolicy
    | ClientUpdate(id: Id, version: nat, decision: Decision, decidedBy: string, decidedAt: Option<int>, reason: string, revert: bool, user: string)
    | SinkWrite(batch: nat, rows: nat)
    | PolicyRead
    | PolicyCheckGate(ok: bool)
    | PolicyEvaluate(listOk: bool, sample: Sample, matched: Option<seq<Target>>, results: seq<Result<string>>)
    | PolicyCreate(ok: bool, id: Id)
    | PolicyMark(ok: bool)
    | PolicyFinish(ok: bool)
    | AuditRead(id: Id)
    | AuditDecide(id: Id, policyOk: bool, deleteOk: bool)
    | AuditRelease(id: Id, answer: PolicyAnswer, results: seq<Result<string>>)
    | AuditWriteSpec(id: Id, ok: bool)
    | AuditWriteStatus(id: Id, d: int, ok: bool)
    | AuditReadPolicy(id: Id, ok: bool)
    | AuditCooldown(id: Id, ok: bool)
    | AuditWriteReverted(id: Id, ok: bool)

  function Next(cfg: Config, w: World, e: Event): World {
    match e
    case Tick(seconds) => w.(now := w.now + seconds)
    case Restart => Crash(w)
    case TouchPolicy => w.(policy := w.policy.(version := w.policy.version + 1))
    case ClientUpdate(id, version, decision, decidedBy, decidedAt, reason, revert, user) =>
      ClientStep(w, id, version, decision, decidedBy, decidedAt, reason, revert, user)
    case SinkWrite(batch, rows) => SinkStep(w, batch, rows)
    case PolicyRead => PolicyReadStep(w)
    case PolicyCheckGate(ok) => PolicyCheckGateStep(w, ok)
    case PolicyEvaluate(listOk, sample, matched, results) => PolicyEvaluateStep(cfg, w, listOk, sample, matched, results)
    case PolicyCreate(ok, id) => PolicyCreateStep(cfg, w, ok, id)
    case PolicyMark(ok) => PolicyMarkStep(w, ok)
    case PolicyFinish(ok) => PolicyFinishStep(cfg, w, ok)
    case AuditRead(id) => AuditReadStep(w, id)
    case AuditDecide(id, policyOk, deleteOk) => AuditDecideStep(cfg, w, id, policyOk, deleteOk)
    case AuditRelease(id, answer, results) => AuditReleaseStep(cfg, w, id, answer, results)
    case AuditWriteSpec(id, ok) => AuditWriteSpecStep(w, id, ok)
    case AuditWriteStatus(id, d, ok) => AuditWriteStatusStep(w, id, d, ok)
    case AuditReadPolicy(id, ok) => AuditReadPolicyStep(w, id, ok)
    case AuditCooldown(id, ok) => AuditCooldownStep(w, id, ok)
    case AuditWriteReverted(id, ok) => AuditWriteRevertedStep(w, id, ok)
  }

  function Run(cfg: Config, w: World, es: seq<Event>): World {
    if es == [] then w else Next(cfg, Run(cfg, w, es[..|es| - 1]), es[|es| - 1])
  }

  lemma {:induction false} RunConcat(cfg: Config, w: World, a: seq<Event>, b: seq<Event>)
    ensures Run(cfg, w, a + b) == Run(cfg, Run(cfg, w, a), b)
  {
    if b == [] {
      assert a + b == a;
    } else {
      RunConcat(cfg, w, a, b[..|b| - 1]);
      assert (a + b)[..|a + b| - 1] == a + b[..|b| - 1];
    }
  }

  // ---------------------------------------------------------------------------------------
  // The API server
  // ---------------------------------------------------------------------------------------

  /** Store a new version of a record and remember its content. */
  function Put(w: World, id: Id, audit: Audit): World
    requires id in w.audits && id in w.ledger
  {
    var stored := w.audits[id];
    w.(audits := w.audits[id := Stored(stored.version + 1, stored.created, audit)],
       ledger := w.ledger[id := w.ledger[id].(last := audit)])
  }

  /** Whether a write of an object read at `version` reaches the store. */
  predicate Lands(w: World, id: Id, version: nat, ok: bool) {
    ok && id in w.audits && id in w.ledger && w.audits[id].version == version
  }

  function Proceed(w: World, id: Id, pc: AuditPc): World {
    w.(apcs := w.apcs[id := pc])
  }

  function Done(w: World, id: Id): World {
    w.(apcs := w.apcs - {id})
  }

  /** The held half ran, or an undo was replayed, and what would have recorded it did not happen. */
  function Lost(w: World, id: Id, releasing: bool): World {
    if id !in w.ledger then w
    else
      var l := w.ledger[id];
      w.(ledger := w.ledger[id := if releasing then l.(lostRuns := l.lostRuns + 1) else l.(lostUndos := l.lostUndos + 1)])
  }

  predicate Releasing(pc: AuditPc) {
    (pc.ASpec? || pc.AStatus?) && pc.phase == Approved
  }

  // ---------------------------------------------------------------------------------------
  // Clients, restarts, the sink
  // ---------------------------------------------------------------------------------------

  /** The operator goes down: its window, its limiter cache and every reconcile in flight are gone. */
  function Crash(w: World): World {
    w.(window := None, cache := None, ppc := PIdle, apcs := map[],
       ledger := map id | id in w.ledger ::
         var l := w.ledger[id];
         if id !in w.apcs then l
         else if Releasing(w.apcs[id]) then l.(lostRuns := l.lostRuns + 1)
         else if w.apcs[id].AReverted? then l.(lostUndos := l.lostUndos + 1)
         else l)
  }

  /** A client rewrites the verdict, its reason and the revert request of the record it read. */
  function ClientStep(w: World, id: Id, version: nat, decision: Decision, decidedBy: string, decidedAt: Option<int>,
                      reason: string, revert: bool, user: string): World {
    if !Lands(w, id, version, true) then w
    else
      var a := w.audits[id].audit;
      var gate := if a.spec.gate.None? then None
                  else Some(a.spec.gate.value.(decision := decision, decidedBy := decidedBy, decidedAt := decidedAt, reason := reason));
      var spec := a.spec.(gate := gate, revertRequested := revert);
      match Handle(a, spec, user, w.now)
      case Refused(_) => w
      case Allowed => Put(w, id, a.(spec := spec))
      case Patched(patched) =>
        var w' := Put(w, id, a.(spec := patched));
        if a.spec.gate.None? || patched.gate.None? then w'
        else
          var admitted := Admission(decision, RequesterName(user), w.now, a.spec.gate.value.expiresAt, a.status.phase);
          w'.(ledger := w'.ledger[id := w'.ledger[id].(verdict := Some(admitted))])
  }

  /** The sink's writer inserts the first rows of a batch, keeping whatever rows exist already. */
  function SinkStep(w: World, batch: nat, rows: nat): World {
    if batch >= |w.batches| || rows > |w.batches[batch].events| then w
    else w.(table := InsertRows(w.table, w.batches[batch].id, w.batches[batch].events[..rows]))
  }

  /** INSERT ... ON CONFLICT (audit_uid, action_index) DO NOTHING, row by row. */
  function InsertRows(table: map<(Id, int), Record>, id: Id, events: seq<Record>): map<(Id, int), Record> {
    if events == [] then table
    else
      var before := InsertRows(table, id, events[..|events| - 1]);
      var e := events[|events| - 1];
      if (id, e.index) in before then before else before[(id, e.index) := e]
  }

  // ---------------------------------------------------------------------------------------
  // The policy reconciler
  // ---------------------------------------------------------------------------------------

  function PolicyReadStep(w: World): World {
    if !w.ppc.PIdle? then w
    else w.(ppc := if w.policy.pendingGateRef.Some? then PCheckGate(w.policy, w.now) else PEvaluate(w.policy, w.now))
  }

  /** Gate 0: an open approval gate keeps the policy quiet. */
  function PolicyCheckGateStep(w: World, ok: bool): World {
    if !w.ppc.PCheckGate? || w.ppc.snap.pendingGateRef.None? then w
    else
      var id := w.ppc.snap.pendingGateRef.value;
      var open := id in w.audits && w.audits[id].audit.status.phase == Pending;
      if !ok || open then w.(ppc := PFinish(w.ppc.snap, false, None))
      else w.(ppc := PEvaluate(w.ppc.snap.(pendingGateRef := None), w.ppc.t))
  }

  function RecentIds(audits: map<Id, Stored>, cutoff: int): set<Id> {
    set id | id in audits && audits[id].audit.spec.triggeredAt > cutoff
  }

  /** What a List of the policy's records and a count of the recent ones gives. */
  function RecentCount(audits: map<Id, Stored>, cutoff: int): nat {
    |RecentIds(audits, cutoff)|
  }

  /** The pipeline runs once against the namespace when nothing matched. */
  function EffectiveTargets(targets: seq<Target>, namespace: string): (ts: seq<Target>)
    ensures ts != []
  {
    if targets == [] then [Target("", "", "", namespace)] else targets
  }

  predicate Confined(results: seq<Result<string>>, targets: seq<Target>) {
    forall i :: 0 <= i < |results| ==> results[i].target in targets
  }

  /** Gates 1 and 2, the query, the window, target resolution, and the half that runs at once. */
  function PolicyEvaluateStep(cfg: Config, w: World, listOk: bool, sample: Sample, matched: Option<seq<Target>>,
                              results: seq<Result<string>>): World {
    if !w.ppc.PEvaluate? then w
    else
      var snap, t := w.ppc.snap, w.ppc.t;
      var stop := PFinish(snap, false, None);
      if snap.lastTriggeredAt.Some? && t - snap.lastTriggeredAt.value < cfg.cooldown then w.(ppc := stop)
      else
        var listed := if listOk then Some(RecentCount(w.audits, t - HOUR)) else None;
        var answer := CountStep(w.cache, t, cfg.pollInterval, listed);
        var counted := w.(cache := answer.entry, ppc := stop);
        if answer.count.None? || answer.count.value >= cfg.maxPerHour then counted
        else
          match sample
          case ClientError => counted
          case BadThreshold => counted
          case QueryFailed => counted.(window := None)
          case Value(false, _) => counted.(window := None)
          case Value(true, text) =>
            var since := if w.window.Some? then w.window.value else t;
            var observed := counted.(window := Some(since));
            var sustained := t - since >= cfg.duration;
            if !sustained then observed
            else if matched.None? || |matched.value| > cfg.maxResources then observed
            else
              var targets := EffectiveTargets(matched.value, cfg.namespace);
              if !Confined(results, targets) then w
              else observed.(ppc := PCreate(snap, t, text, results, targets), marks := w.marks + [Triggered(t)])
  }

  /** The plugins of the gated action and of every action after it. */
  function HeldPlugins(cfg: Config): seq<string> {
    if 0 <= cfg.gate <= |cfg.plugins| then cfg.plugins[cfg.gate..] else []
  }

  function NewAudit(cfg: Config, t: int, value: string, results: seq<Result<string>>, targets: seq<Target>): Audit {
    var gate := if cfg.gate < 0 then None
                else Some(Gate(cfg.gate, HeldPlugins(cfg), targets, t + cfg.approvalTimeout, Undecided, "", None, ""));
    Audit(AuditSpec(cfg.uid, t, value, ToRecords(cfg.reversible, 0, results), false, gate), AuditStatus(NoPhase, None, false))
  }

  function Emit(w: World, id: Id, events: seq<Record>): World {
    w.(batches := w.batches + [Batch(id, events)])
  }

  /** writeAudit, or the create of writeGatedAudit. */
  function PolicyCreateStep(cfg: Config, w: World, ok: bool, id: Id): World {
    if !w.ppc.PCreate? || id in w.ledger || id in w.audits then w
    else
      var snap, t := w.ppc.snap, w.ppc.t;
      var audit := NewAudit(cfg, t, w.ppc.value, w.ppc.results, w.ppc.targets);
      var created := w.(audits := w.audits[id := Stored(0, w.now, audit)],
                        ledger := w.ledger[id := Ledger(audit, w.ppc.targets, None, 0, 0, 0, 0)]);
      if cfg.gate >= 0 then
        if ok then created.(ppc := PMark(snap, t, id, 0))
        else w.(window := None, ppc := PFinish(snap, true, None))
      else
        var fired := PFinish(snap.(lastTriggeredAt := Some(t)), true, None);
        if ok then Emit(created.(cache := Bump(w.cache, t), window := None, ppc := fired), id, audit.spec.actions)
        else w.(window := None, ppc := fired)
  }

  /** The status write of writeGatedAudit, which alone makes the record a gate. */
  function PolicyMarkStep(w: World, ok: bool): World {
    if !w.ppc.PMark? then w
    else
      var snap, t, id := w.ppc.snap, w.ppc.t, w.ppc.id;
      if !Lands(w, id, w.ppc.version, ok) then
        w.(window := None, skipped := w.skipped + 1, ppc := PFinish(snap, true, None))
      else
        var a := w.audits[id].audit;
        var marked := Put(w, id, a.(status := a.status.(phase := Pending)))
                      .(cache := Bump(w.cache, t), window := None,
                        ppc := PFinish(snap.(pendingGateRef := Some(id)), true, Some(id)));
        if a.spec.actions == [] then marked else Emit(marked, id, a.spec.actions)
  }

  /** The status write that ends every policy reconcile. */
  function PolicyFinishStep(cfg: Config, w: World, ok: bool): World {
    if !w.ppc.PFinish? then w
    else if !ok || w.ppc.snap.version != w.policy.version then w.(ppc := PIdle)
    else w.(policy := w.ppc.snap.(version := w.policy.version + 1), ppc := PIdle,
            landed := if w.ppc.fired && cfg.gate < 0 then w.landed + {LastTrigger(w.marks)} else w.landed)
  }

  /** The position after the latest trigger. */
  function LastTrigger(marks: seq<Mark>): (n: nat)
    ensures n <= |marks|
    ensures n > 0 ==> marks[n - 1].Triggered?
    ensures forall i :: n <= i < |marks| ==> !marks[i].Triggered?
  {
    if marks == [] then 0 else if marks[|marks| - 1].Triggered? then |marks| else LastTrigger(marks[..|marks| - 1])
  }

  // ---------------------------------------------------------------------------------------
  // The audit reconciler
  // ---------------------------------------------------------------------------------------

  function AuditReadStep(w: World, id: Id): World {
    if id in w.apcs || id !in w.audits then w else Proceed(w, id, ADecide(w.audits[id]))
  }

  /** Retention, then an open gate, then a revert request. */
  function AuditDecideStep(cfg: Config, w: World, id: Id, policyOk: bool, deleteOk: bool): World {
    if id !in w.apcs || !w.apcs[id].ADecide? then w
    else
      var base := w.apcs[id].base;
      var retention := if policyOk then cfg.retention else DEFAULT_RETENTION;
      if base.created + retention - w.now <= 0 then
        if deleteOk then Done(w, id).(audits := w.audits - {id}) else Done(w, id)
      else if base.audit.status.phase == Pending then
        var next := ResolveGate(w.now, base);
        if next.Some? then Proceed(w, id, next.value) else Done(w, id)
      else if base.audit.spec.revertRequested && !base.audit.status.reverted && id in w.ledger then
        var l := w.ledger[id];
        Proceed(w, id, AReverted(base)).(ledger := w.ledger[id := l.(undos := l.undos + 1)])
      else Done(w, id)
  }

  function DecidedByOrUnknown(gate: Gate): string {
    RequesterName(gate.decidedBy)
  }

  /** resolveGate: how the reconcile goes on, or None to wait for a verdict or the expiry. */
  function ResolveGate(now: int, base: Stored): Option<AuditPc> {
    if base.audit.spec.gate.None? then Some(CloseGate(now, base, Denied, GateMissing))
    else
      var gate := base.audit.spec.gate.value;
      match gate.decision
      case Approve => Some(ARelease(base))
      case Deny => Some(CloseGate(now, base, Denied, DeniedByHuman(DecidedByOrUnknown(gate))))
      case _ =>
        if !(now < gate.expiresAt) then Some(CloseGate(now, base, Expired, NotInTime)) else None
  }

  /** The held actions, recorded as not run. */
  function SkippedRecords(offset: nat, plugins: seq<string>, closing: Closing): (recs: seq<Record>)
    ensures |recs| == |plugins|
    ensures forall i :: 0 <= i < |plugins| ==>
              recs[i] == ActionRecord(offset + i, plugins[i], Target("", "", "", ""), Skipped, NotRun(closing), false, None)
  {
    if plugins == [] then []
    else
      var n := |plugins| - 1;
      SkippedRecords(offset, plugins[..n], closing)
      + [ActionRecord(offset + n, plugins[n], Target("", "", "", ""), Skipped, NotRun(closing), false, None)]
  }

  /** closeGate: the held actions' records first, when there are any, then the phase. */
  function CloseGate(now: int, base: Stored, phase: Phase, closing: Closing): AuditPc {
    var spec := base.audit.spec;
    if spec.gate.Some? && spec.gate.value.pendingPlugins != [] then
      var skipped := SkippedRecords(|spec.actions|, spec.gate.value.pendingPlugins, closing);
      ASpec(base, spec.(actions := spec.actions + skipped), phase, None)
    else AStatus(base, phase, now, None, false)
  }

  /** releaseGate up to its first write: read the policy and run the held half on the recorded targets. */
  function AuditReleaseStep(cfg: Config, w: World, id: Id, answer: PolicyAnswer, results: seq<Result<string>>): World {
    if id !in w.apcs || !w.apcs[id].ARelease? || w.apcs[id].base.audit.spec.gate.None? || id !in w.ledger then w
    else
      var base, l := w.apcs[id].base, w.ledger[id];
      var spec := base.audit.spec;
      var targets := EffectiveTargets(spec.gate.value.targets, cfg.namespace);
      match answer
      case ReadError => Done(w, id)
      case Gone => Proceed(w, id, CloseGate(w.now, base, Denied, PolicyGone))
      case Replaced => Proceed(w, id, CloseGate(w.now, base, Denied, PolicyReplaced))
      case Found =>
        if !Confined(results, targets) then w
        else
          var released := spec.(actions := spec.actions + ToRecords(cfg.reversible, |spec.actions|, results));
          Proceed(w, id, ASpec(base, released, Approved, Some(w.policy)))
          .(ledger := w.ledger[id := l.(runs := l.runs + 1)])
  }

  /** The update that adds the held actions' records; it passes through admission like any other. */
  function AuditWriteSpecStep(w: World, id: Id, ok: bool): World {
    if id !in w.apcs || !w.apcs[id].ASpec? then w
    else
      var pc := w.apcs[id];
      if !Lands(w, id, pc.base.version, ok) || Handle(w.audits[id].audit, pc.spec, OPERATOR, w.now) != Allowed then
        Lose(w, id)
      else
        var w' := Put(w, id, w.audits[id].audit.(spec := pc.spec));
        Proceed(w', id, AStatus(w'.audits[id], pc.phase, w.now, pc.policy, |pc.spec.actions| > |pc.base.audit.spec.actions|))
  }

  /** A failed write ends the reconcile. */
  function Lose(w: World, id: Id): World
    requires id in w.apcs
  {
    if Releasing(w.apcs[id]) then Lost(Done(w, id), id, true)
    else if w.apcs[id].AReverted? then Lost(Done(w, id), id, false)
    else Done(w, id)
  }

  /** The status write that ends the gate. `d` is the time the reconciler took before it. */
  function AuditWriteStatusStep(w: World, id: Id, d: int, ok: bool): World {
    if id !in w.apcs || !w.apcs[id].AStatus? || !(w.apcs[id].since <= d <= w.now) then w
    else
      var pc := w.apcs[id];
      if !Lands(w, id, pc.base.version, ok) then Lose(w, id)
      else
        var a := w.audits[id].audit;
        var resumed := if pc.phase == Approved then Some(d) else a.status.resumedAt;
        var w' := Put(w, id, a.(status := a.status.(phase := pc.phase, resumedAt := resumed)));
        if pc.policy.Some? then
          Proceed(if pc.ran then Emit(w', id, a.spec.actions) else w', id, ACool(pc.policy.value, d))
        else Proceed(w', id, AReadPolicy(d))
  }

  function AuditReadPolicyStep(w: World, id: Id, ok: bool): World {
    if id !in w.apcs || !w.apcs[id].AReadPolicy? then w
    else if ok then Proceed(w, id, ACool(w.policy, w.apcs[id].d))
    else Done(w, id)
  }

  /** startCooldown: a write that fails is only logged. */
  function AuditCooldownStep(w: World, id: Id, ok: bool): World {
    if id !in w.apcs || !w.apcs[id].ACool? then w
    else
      var pc := w.apcs[id];
      if !ok || pc.snap.version != w.policy.version then Done(w, id)
      else Done(w, id).(policy := Policy(w.policy.version + 1, Some(pc.d), None),
                        marks := w.marks + [CooldownStarted(pc.d)])
  }

  /** The status write of revert, made after every record's undo was replayed. */
  function AuditWriteRevertedStep(w: World, id: Id, ok: bool): World {
    if id !in w.apcs || !w.apcs[id].AReverted? then w
    else if !Lands(w, id, w.apcs[id].base.version, ok) then Lose(w, id)
    else
      var a := w.audits[id].audit;
      Done(Put(w, id, a.(status := a.status.(reverted := true))), id)
  }
}
