/**
 The policy reconciler in its own form (internal/controller/reactivepolicy_controller.go, the two
 audit writers of internal/controller/auditwriter.go): one reconcile over the shared store, the
 window, the limiter and the executor, with everybody else acting between its calls. It is a
 run of the protocol, call by call.
 */
module PolicyReconciler {
  import opened Common
  import opened Executor
  import opened UndoLaw
  import opened Ranges
  import opened AuditRecord
  import opened SlidingWindow
  import opened RateLimiter
  import opened ApprovalApi
  import opened Protocol
  import opened GateInvariant
  import opened ObjectStore
  import TriggerSpacing
  import RunReverts

  /** What the metric source answers: no client, a failed query, an unreadable threshold, or numbers. */
  datatype Metric = Metric(clientOk: bool, value: Option<real>, text: string, threshold: Option<real>, op: Operator)

  /** What one reconcile meets: the answers of the API server to its calls, the metric, and what others
      do before each of its six calls. `lists` holds one listing per target kind. */
  datatype Answers = Answers(
    gateOk: bool, listOk: bool, metric: Metric, selectorOk: bool, lists: seq<Option<seq<Target>>>,
    createOk: bool, newId: Id, markOk: bool, finishOk: bool, others: seq<seq<Event>>)

  /** What the metric source answered when it was asked: two numbers to compare, or nothing. */
  datatype Reading = Compared(now: int, value: real, threshold: real, op: Operator) | Unanswered(now: int)

  /** The value was past the threshold. */
  predicate Past(r: Reading) {
    r.Compared?
    && match r.op
       case GreaterThan => r.value - r.threshold > 0.0
       case GreaterThanOrEqual => r.value - r.threshold >= 0.0
       case LessThan => r.threshold - r.value > 0.0
       case LessThanOrEqual => r.threshold - r.value >= 0.0
       case Equal => r.value - r.threshold == 0.0
       case NotEqual => r.value - r.threshold != 0.0
       case Unknown => false
  }

  /** From reading i on, taken at this time, every one was past its threshold. */
  ghost predicate PastFrom(readings: seq<Reading>, i: int, since: int) {
    0 <= i < |readings| && readings[i].now == since && forall j :: i <= j < |readings| ==> Past(readings[j])
  }

  datatype Outcome = After(seconds: int) | Immediately | Failure

  function SampleOf(m: Metric): Protocol.Sample {
    if !m.clientOk then ClientError
    else if m.value.None? then QueryFailed
    else if m.threshold.None? then BadThreshold
    else Value(Compare(m.value.value, m.threshold.value, m.op), m.text)
  }

  /** All listings, in the order of the kinds, or None when one failed. */
  function Gathered(lists: seq<Option<seq<Target>>>): Option<seq<Target>> {
    if lists == [] then Some([])
    else
      var before, last := Gathered(lists[..|lists| - 1]), lists[|lists| - 1];
      if before.None? || last.None? then None else Some(before.value + last.value)
  }

  function Resolved(a: Answers, maxResources: int): Option<seq<Target>> {
    var gathered := Gathered(a.lists);
    if !a.selectorOk || gathered.None? || |gathered.value| > maxResources then None else gathered
  }

  /** The steps of one reconcile between everybody else's; those it does not get to do not apply. */
  ghost function Steps(cfg: Config, a: Answers, results: seq<Result<string>>): seq<Event>
    requires |a.others| == 6
  {
    a.others[0] + [PolicyRead]
    + a.others[1] + [PolicyCheckGate(a.gateOk)]
    + a.others[2] + [PolicyEvaluate(a.listOk, SampleOf(a.metric), Resolved(a, cfg.maxResources), results)]
    + a.others[3] + [PolicyCreate(a.createOk, a.newId)]
    + a.others[4] + [PolicyMark(a.markOk)]
    + a.others[5] + [PolicyFinish(a.finishOk)]
  }

  function Opened(crossedAt: map<string, int>, key: string): Option<int> {
    if key in crossedAt then Some(crossedAt[key]) else None
  }

  // ---------------------------------------------------------------------------------------
  // The two parts of an evaluation
  // ---------------------------------------------------------------------------------------

  /** The window after a sample: dropped on a failed query or a value within bounds, opened by the first
      value past them. */
  function Fed(since: Option<int>, t: int, sample: Protocol.Sample): Option<int> {
    match sample
    case QueryFailed => None
    case Value(false, _) => None
    case Value(true, _) => Some(if since.Some? then since.value else t)
    case _ => since
  }

  predicate Sustained(since: Option<int>, t: int, duration: int, sample: Protocol.Sample) {
    sample.Value? && sample.crossed && t - Fed(since, t, sample).value >= duration
  }

  /** What is in memory once the window has seen the sample, and whether the crossing was sustained. */
  datatype Verdict = Verdict(window: Option<int>, cache: Option<Entry>, sustained: bool)

  function Judge(cfg: Config, lastTriggeredAt: Option<int>, t: int, window: Option<int>, cache: Option<Entry>, listed: Option<nat>,
                 sample: Protocol.Sample): Verdict
  {
    if lastTriggeredAt.Some? && t - lastTriggeredAt.value < cfg.cooldown then Verdict(window, cache, false)
    else
      var answer := CountStep(cache, t, cfg.pollInterval, listed);
      if answer.count.None? || answer.count.value >= cfg.maxPerHour then Verdict(window, answer.entry, false)
      else Verdict(Fed(window, t, sample), answer.entry, Sustained(window, t, cfg.duration, sample))
  }

  function Listed(w: World, t: int, listOk: bool): Option<nat> {
    if listOk then Some(RecentCount(w.audits, t - HOUR)) else None
  }

  function VerdictIn(cfg: Config, w: World, listOk: bool, sample: Protocol.Sample): Verdict
    requires w.ppc.PEvaluate?
  {
    Judge(cfg, w.ppc.snap.lastTriggeredAt, w.ppc.t, w.window, w.cache, Listed(w, w.ppc.t, listOk), sample)
  }

  lemma EvaluationInParts(cfg: Config, w: World, listOk: bool, sample: Protocol.Sample, matched: Option<seq<Target>>,
                          results: seq<Result<string>>)
    requires w.ppc.PEvaluate?
    ensures var v := VerdictIn(cfg, w, listOk, sample);
            var observed := w.(window := v.window, cache := v.cache, ppc := PFinish(w.ppc.snap, false, None));
            var w' := PolicyEvaluateStep(cfg, w, listOk, sample, matched, results);
            if !v.sustained || matched.None? || |matched.value| > cfg.maxResources then w' == observed
            else if !Confined(results, EffectiveTargets(matched.value, cfg.namespace)) then w' == w
            else
              sample.Value?
              && w' == observed.(ppc := PCreate(w.ppc.snap, w.ppc.t, sample.text, results, EffectiveTargets(matched.value, cfg.namespace)),
                                 marks := w.marks + [Triggered(w.ppc.t)])
  {
  }

  // ---------------------------------------------------------------------------------------
  // The reconciler
  // ---------------------------------------------------------------------------------------

  /** `readings` is every answer of the metric source this reconciler has compared or missed. */
  class Reconciler<S(!new)> {
    ghost var readings: seq<Reading>
    const store: Store
    const window: Window
    const limiter: AuditLimiter
    const cluster: Cluster<S, string>
    const registry: Registry<S, string>
    const actions: seq<Action>
    const namespace: string
    const name: string

    constructor (store: Store, window: Window, limiter: AuditLimiter, cluster: Cluster<S, string>, registry: Registry<S, string>,
                 actions: seq<Action>, namespace: string, name: string)
      ensures this.store == store && this.window == window && this.limiter == limiter && this.cluster == cluster
      ensures this.registry == registry && this.actions == actions && this.namespace == namespace && this.name == name
      ensures readings == []
    {
      readings := [];
      this.store, this.window, this.limiter, this.cluster := store, window, limiter, cluster;
      this.registry, this.actions, this.namespace, this.name := registry, actions, namespace, name;
    }

    function PolicyKey(): string {
      Key(namespace, name)
    }

    function PipelineFor(target: Target, value: string): Pipeline<S, string> {
      Pipeline(registry, actions, target, value)
    }

    /** The configuration describes this policy. */
    ghost predicate Configured() {
      && store.cfg.gate == GateOf(actions)
      && |store.cfg.plugins| == |actions|
      && (forall i :: 0 <= i < |actions| ==> store.cfg.plugins[i] == actions[i].plugin)
      && store.cfg.reversible == ReversibleNames(registry)
      && store.cfg.namespace == namespace
    }

    /** What the window and the limiter hold for the policy. */
    ghost predicate Remembers(since: Option<int>, cache: Option<Entry>)
      reads window, limiter
    {
      && window.Valid()
      && since == Opened(window.crossedAt, PolicyKey())
      && cache == Entries(limiter.cache, PolicyKey())
    }

    /** An open window was opened by a reading past the threshold, and there has been no other since. */
    ghost predicate Backed()
      reads this, window
    {
      PolicyKey() in window.crossedAt ==> exists i :: PastFrom(readings, i, window.crossedAt[PolicyKey()])
    }

    /** Ever since a reading at least `duration` before now, and now, the value was past the threshold. */
    ghost predicate PastThroughout(now: int, m: Metric)
      reads this
    {
      && m.value.Some? && m.threshold.Some? && readings != []
      && readings[|readings| - 1] == Compared(now, m.value.value, m.threshold.value, m.op)
      && exists i, since :: PastFrom(readings, i, since) && since <= now - store.cfg.duration
    }

    ghost predicate Valid()
      reads this, store, window, limiter
    {
      store.Valid() && Configured() && Remembers(store.world.window, store.world.cache) && Backed()
    }

    /** requeue: write the status back. A conflict asks for an immediate retry. */
    method Requeue(policy: Policy, after: int, a: Answers) returns (outcome: Outcome)
      requires Valid() && |a.others| == 6 && ForeignToPolicy(a.others[5])
      requires store.world.ppc.PFinish? && store.world.ppc.snap == policy
      modifies store
      ensures Valid() && store.world.ppc == PIdle
      ensures store.trace == old(store.trace) + a.others[5] + [PolicyFinish(a.finishOk)]
      ensures outcome.After? ==> outcome.seconds == after
      ensures outcome.Failure? <==> !a.finishOk
      ensures outcome.Immediately? <==> a.finishOk && Run(store.cfg, old(store.world), a.others[5]).policy.version != policy.version
    {
      store.OthersBeforePolicyCall(a.others[5]);
      var conflict := policy.version != store.world.policy.version;
      store.Step(PolicyFinish(a.finishOk));
      if !a.finishOk {
        return Failure;
      }
      return if conflict then Immediately else After(after);
    }

    /** The same from an exit before any record was to be written. */
    method RequeueEarly(policy: Policy, after: int, a: Answers) returns (outcome: Outcome)
      requires Valid() && |a.others| == 6 && forall i :: 3 <= i < 6 ==> ForeignToPolicy(a.others[i])
      requires store.world.ppc.PFinish? && store.world.ppc.snap == policy
      modifies store
      ensures Valid() && store.world.ppc == PIdle
      ensures store.trace == old(store.trace) + a.others[3] + [PolicyCreate(a.createOk, a.newId)] + a.others[4] + [PolicyMark(a.markOk)]
                             + a.others[5] + [PolicyFinish(a.finishOk)]
    {
      store.OthersBeforePolicyCall(a.others[3]);
      store.Skip(PolicyCreate(a.createOk, a.newId));
      store.OthersBeforePolicyCall(a.others[4]);
      store.Skip(PolicyMark(a.markOk));
      outcome := Requeue(policy, after, a);
    }

    /** gateStillOpen: a record that was decided, has expired or is gone leaves no gate behind. */
    method GateStillOpen(id: Id) returns (open: bool)
      ensures open <==> id in store.world.audits && store.world.audits[id].audit.status.phase == Pending
    {
      if id !in store.world.audits {
        return false;
      }
      return store.world.audits[id].audit.status.phase == Pending;
    }

    /** The query and the window. */
    method Query(now: int, m: Metric) returns (sustained: bool)
      requires window.Valid() && Backed()
      modifies window, this`readings
      ensures window.Valid() && Backed() && (sustained ==> PastThroughout(now, m))
      ensures m.clientOk && m.value.Some? && m.threshold.Some? ==>
                var v, t, open := m.value.value, m.threshold.value, PolicyKey() in window.crossedAt;
                && (m.op == GreaterThan ==> (open <==> v > t)) && (m.op == GreaterThanOrEqual ==> (open <==> v >= t))
                && (m.op == LessThan ==> (open <==> v < t)) && (m.op == LessThanOrEqual ==> (open <==> v <= t))
                && (m.op == Equal ==> (open <==> v == t)) && (m.op == NotEqual ==> (open <==> v != t)) && (m.op == Unknown ==> !open)
                && (sustained <==> open && window.crossedAt[PolicyKey()] <= now - store.cfg.duration)
      ensures m.clientOk && m.value.None? ==> PolicyKey() !in window.crossedAt && !sustained
      ensures !m.clientOk || (m.value.Some? && m.threshold.None?) ==> window.crossedAt == old(window.crossedAt) && !sustained
      ensures readings == old(readings)
                          + if !m.clientOk then [] else if m.value.None? then [Unanswered(now)] else if m.threshold.None? then []
                            else [Compared(now, m.value.value, m.threshold.value, m.op)]
      ensures Opened(window.crossedAt, PolicyKey()) == Fed(Opened(old(window.crossedAt), PolicyKey()), now, SampleOf(m))
      ensures sustained == Sustained(Opened(old(window.crossedAt), PolicyKey()), now, store.cfg.duration, SampleOf(m))
    {
      if !m.clientOk {
        return false;
      }
      if m.value.None? {
        window.Forget(PolicyKey());
        readings := readings + [Unanswered(now)];
        return false;
      }
      if m.threshold.None? {
        return false;
      }
      var crossed := Compare(m.value.value, m.threshold.value, m.op);
      var crossedFor := window.Observe(PolicyKey(), crossed, now);
      ghost var reading := Compared(now, m.value.value, m.threshold.value, m.op);
      assert crossed == Past(reading);
      if crossed {
        OneMorePast(readings, reading, Opened(old(window.crossedAt), PolicyKey()));
      }
      readings := readings + [reading];
      return crossed && crossedFor >= store.cfg.duration;
    }

    /** Gate 2: the rolling cap. A list that fails refuses. */
    method WithinLimit(now: int, listOk: bool) returns (allowed: bool)
      modifies limiter
      ensures var answer := CountStep(Entries(old(limiter.cache), PolicyKey()), now, store.cfg.pollInterval, Listed(store.world, now, listOk));
              && Entries(limiter.cache, PolicyKey()) == answer.entry
              && allowed == (answer.count.Some? && answer.count.value < store.cfg.maxPerHour)
      ensures var key, audits := PolicyKey(), store.world.audits;
              allowed <==>
              if key in old(limiter.cache) && now - old(limiter.cache)[key].queriedAt < store.cfg.pollInterval then
                old(limiter.cache)[key].count < store.cfg.maxPerHour
              else listOk && |set id | id in audits && audits[id].audit.spec.triggeredAt > now - 3600| < store.cfg.maxPerHour
    {
      var times := None;
      if listOk {
        var listed := store.List();
        times := Some(listed);
      }
      assert RecentIds(store.world.audits, now - HOUR)
          == set id | id in store.world.audits && store.world.audits[id].audit.spec.triggeredAt > now - 3600;
      var answer := limiter.Allowed(namespace, name, store.cfg.maxPerHour, now, store.cfg.pollInterval, times);
      return answer.Some? && answer.value;
    }

    /** Gates 1 and 2, then the query. */
    method ObserveMetric(policy: Policy, now: int, a: Answers) returns (sustained: bool, after: int)
      requires window.Valid() && Backed()
      modifies window, limiter, this`readings
      ensures Backed() && old(readings) <= readings && (sustained ==> PastThroughout(now, a.metric))
      ensures after == if policy.lastTriggeredAt.Some? && now - policy.lastTriggeredAt.value < store.cfg.cooldown
                       then policy.lastTriggeredAt.value + store.cfg.cooldown - now else store.cfg.pollInterval
      ensures var v := Judge(store.cfg, policy.lastTriggeredAt, now, Opened(old(window.crossedAt), PolicyKey()),
                             Entries(old(limiter.cache), PolicyKey()), Listed(store.world, now, a.listOk), SampleOf(a.metric));
              Remembers(v.window, v.cache) && sustained == v.sustained
    {
      var cfg := store.cfg;
      after := cfg.pollInterval;
      if policy.lastTriggeredAt.Some? {
        var elapsed := now - policy.lastTriggeredAt.value;
        if elapsed < cfg.cooldown {
          return false, cfg.cooldown - elapsed;
        }
      }
      sustained := LimitAndQuery(now, a);
    }

    /** Past the cooldown: gate 2, then the query. */
    method LimitAndQuery(now: int, a: Answers) returns (sustained: bool)
      requires window.Valid() && Backed()
      modifies window, limiter, this`readings
      ensures Backed() && old(readings) <= readings && (sustained ==> PastThroughout(now, a.metric))
      ensures var v := Judge(store.cfg, None, now, Opened(old(window.crossedAt), PolicyKey()),
                             Entries(old(limiter.cache), PolicyKey()), Listed(store.world, now, a.listOk), SampleOf(a.metric));
              Remembers(v.window, v.cache) && sustained == v.sustained
    {
      var allowed := WithinLimit(now, a.listOk);
      if !allowed {
        return false;
      }
      sustained := Query(now, a.metric);
    }

    /** resolveTargets: every kind's listing, refused when one fails or there are too many. */
    method ResolveTargets(a: Answers) returns (targets: Option<seq<Target>>)
      ensures targets == Resolved(a, store.cfg.maxResources)
      ensures targets.Some? ==>
                && a.selectorOk && |targets.value| <= store.cfg.maxResources
                && (forall t :: t in targets.value <==> exists k :: 0 <= k < |a.lists| && a.lists[k].Some? && t in a.lists[k].value)
      ensures targets.None? ==>
                || !a.selectorOk || (exists k :: 0 <= k < |a.lists| && a.lists[k].None?)
                || (Gathered(a.lists).Some? && |Gathered(a.lists).value| > store.cfg.maxResources)
    {
      GatheredHolds(a.lists);
      if !a.selectorOk {
        return None;
      }
      var found: seq<Target> := [];
      for k := 0 to |a.lists|
        invariant Gathered(a.lists[..k]) == Some(found)
      {
        assert a.lists[..k + 1][..k] == a.lists[..k];
        if a.lists[k].None? {
          GatheredNone(a.lists, k);
          return None;
        }
        found := found + a.lists[k].value;
      }
      assert a.lists[..|a.lists|] == a.lists;
      if |found| > store.cfg.maxResources {
        return None;
      }
      return Some(found);
    }

    /** The plugins of the gated action and of every action behind it. */
    method PendingPlugins(gateIdx: nat) returns (pending: seq<string>)
      requires Configured() && gateIdx == store.cfg.gate
      ensures pending == HeldPlugins(store.cfg)
      ensures |pending| == |actions| - gateIdx && forall i :: gateIdx <= i < |actions| ==> pending[i - gateIdx] == actions[i].plugin
    {
      pending := [];
      for i := gateIdx to |actions|
        invariant pending == store.cfg.plugins[gateIdx..i]
      {
        pending := pending + [actions[i].plugin];
      }
      assert store.cfg.plugins[gateIdx..|actions|] == store.cfg.plugins[gateIdx..];
    }

    /** The record of a trigger, and the gate on it if there is one. */
    method BuildAudit(now: int, value: string, results: seq<Result<string>>, targets: seq<Target>, gateIdx: int) returns (audit: Audit)
      requires Configured() && gateIdx == store.cfg.gate
      ensures audit == NewAudit(store.cfg, now, value, results, targets)
      ensures var spec := audit.spec;
              && spec.policyUid == store.cfg.uid && spec.triggeredAt == now && spec.metricValue == value && !spec.revertRequested
              && |spec.actions| == |results|
              && (forall i :: 0 <= i < |results| ==> spec.actions[i].index == i && RecordToResult(spec.actions[i]) == results[i])
              && (spec.gate.Some? <==> gateIdx >= 0)
              && (spec.gate.Some? ==>
                    var gate := spec.gate.value;
                    && gate.actionIndex == gateIdx && gate.targets == targets && gate.expiresAt == now + store.cfg.approvalTimeout
                    && gate.decision == Undecided && gate.decidedBy == "" && gate.decidedAt == None
                    && |gate.pendingPlugins| == |actions| - gateIdx
                    && forall i :: gateIdx <= i < |actions| ==> gate.pendingPlugins[i - gateIdx] == actions[i].plugin)
              && audit.status == AuditStatus(NoPhase, None, false)
    {
      var records := AppendRecords(ReversibleNames(registry), [], results);
      assert records == ToRecords(store.cfg.reversible, 0, results);
      var gate: Option<Gate> := None;
      if gateIdx >= 0 {
        var pending := PendingPlugins(gateIdx);
        gate := Some(Gate(gateIdx, pending, targets, now + store.cfg.approvalTimeout, Undecided, "", None, ""));
      }
      AuditSays(store.cfg, now, value, results, targets);
      audit := Audit(AuditSpec(store.cfg.uid, now, value, records, false, gate), AuditStatus(NoPhase, None, false));
    }

    /** The create call: what is stored is this record, and only where the protocol writes it. */
    method Create(audit: Audit, a: Answers)
      requires store.Valid() && store.world.ppc.PCreate? && a.newId !in store.world.ledger
      requires audit == NewAudit(store.cfg, store.world.ppc.t, store.world.ppc.value, store.world.ppc.results, store.world.ppc.targets)
      modifies store
      ensures store.Valid() && store.world == Next(store.cfg, old(store.world), PolicyCreate(a.createOk, a.newId))
      ensures store.trace == old(store.trace) + [PolicyCreate(a.createOk, a.newId)]
      ensures a.newId !in old(store.world).audits
      ensures a.createOk ==> a.newId in store.world.audits && store.world.audits[a.newId] == Stored(0, old(store.world).now, audit)
    {
      RunKeepsSafe(store.cfg, store.start, store.trace);
      assert Safe1(store.cfg, store.world, a.newId);
      store.Step(PolicyCreate(a.createOk, a.newId));
    }

    /** The end of an ungated trigger: the cooldown starts here, whatever became of the record. */
    method EndUngated(policy: Policy, now: int, a: Answers) returns (outcome: Outcome)
      requires store.Valid() && Configured() && |a.others| == 6 && ForeignToPolicy(a.others[4]) && ForeignToPolicy(a.others[5])
      requires store.world.ppc == PFinish(policy.(lastTriggeredAt := Some(now)), true, None)
      requires window.Valid() && store.world.window == None
      requires store.world.cache == if a.createOk then Bump(Entries(limiter.cache, PolicyKey()), now) else Entries(limiter.cache, PolicyKey())
      modifies store, window, limiter
      ensures Valid() && store.world.ppc == PIdle
      ensures store.trace == old(store.trace) + a.others[4] + [PolicyMark(a.markOk)] + a.others[5] + [PolicyFinish(a.finishOk)]
    {
      var status := policy.(lastTriggeredAt := Some(now));
      if a.createOk {
        limiter.Observe(namespace, name, now);
      }
      window.Forget(PolicyKey());
      store.OthersBeforePolicyCall(a.others[4]);
      store.Skip(PolicyMark(a.markOk));
      outcome := Requeue(status, store.cfg.pollInterval, a);
    }

    /** The end of a gated trigger whose record could not be created. */
    method EndUnrecorded(policy: Policy, a: Answers) returns (outcome: Outcome)
      requires store.Valid() && Configured() && |a.others| == 6 && ForeignToPolicy(a.others[4]) && ForeignToPolicy(a.others[5])
      requires store.world.ppc == PFinish(policy, true, None)
      requires window.Valid() && store.world.window == None && store.world.cache == Entries(limiter.cache, PolicyKey())
      modifies store, window
      ensures Valid() && store.world.ppc == PIdle
      ensures store.trace == old(store.trace) + a.others[4] + [PolicyMark(a.markOk)] + a.others[5] + [PolicyFinish(a.finishOk)]
    {
      window.Forget(PolicyKey());
      store.OthersBeforePolicyCall(a.others[4]);
      store.Skip(PolicyMark(a.markOk));
      outcome := Requeue(policy, store.cfg.pollInterval, a);
    }

    /** The write that makes the new record a gate. */
    method MarkPending(policy: Policy, now: int, a: Answers) returns (marked: bool)
      requires store.Valid() && |a.others| == 6 && ForeignToPolicy(a.others[4])
      requires store.world.ppc == PMark(policy, now, a.newId, 0)
      modifies store
      ensures store.Valid()
      ensures store.trace == old(store.trace) + a.others[4] + [PolicyMark(a.markOk)]
      ensures store.world.window == None
      ensures store.world.cache == if marked then Bump(old(store.world).cache, now) else old(store.world).cache
      ensures store.world.ppc == if marked then PFinish(policy.(pendingGateRef := Some(a.newId)), true, Some(a.newId)) else PFinish(policy, true, None)
      ensures marked ==> a.newId in store.world.audits && store.world.audits[a.newId].audit.status.phase == Pending
    {
      store.OthersBeforePolicyCall(a.others[4]);
      marked := Lands(store.world, a.newId, 0, a.markOk);
      store.Step(PolicyMark(a.markOk));
    }

    /** The end of a gated trigger whose record exists: mark it Pending, refer to it, count it. */
    method EndGated(policy: Policy, now: int, a: Answers) returns (outcome: Outcome)
      requires store.Valid() && Configured() && |a.others| == 6 && ForeignToPolicy(a.others[4]) && ForeignToPolicy(a.others[5])
      requires store.world.ppc == PMark(policy, now, a.newId, 0)
      requires window.Valid() && store.world.cache == Entries(limiter.cache, PolicyKey())
      modifies store, window, limiter
      ensures Valid() && store.world.ppc == PIdle
      ensures store.trace == old(store.trace) + a.others[4] + [PolicyMark(a.markOk)] + a.others[5] + [PolicyFinish(a.finishOk)]
    {
      var status := policy;
      var marked := MarkPending(policy, now, a);
      if marked {
        status := status.(pendingGateRef := Some(a.newId));
        limiter.Observe(namespace, name, now);
      }
      window.Forget(PolicyKey());
      outcome := Requeue(status, store.cfg.pollInterval, a);
    }

    /** The record of a trigger, from its creation to the end of the reconcile. */
    method RecordTrigger(policy: Policy, now: int, value: string, results: seq<Result<string>>, targets: seq<Target>, gateIdx: int,
                         a: Answers)
        returns (outcome: Outcome)
      requires Valid() && |a.others| == 6 && forall i :: 3 <= i < 6 ==> ForeignToPolicy(a.others[i])
      requires store.world.ppc == PCreate(policy, now, value, results, targets) && gateIdx == store.cfg.gate
      requires a.newId !in store.world.ledger
      modifies store, window, limiter
      ensures Valid() && store.world.ppc == PIdle
      ensures store.trace == old(store.trace) + a.others[3] + [PolicyCreate(a.createOk, a.newId)] + a.others[4] + [PolicyMark(a.markOk)]
                             + a.others[5] + [PolicyFinish(a.finishOk)]
    {
      store.OthersBeforePolicyCall(a.others[3]);
      var audit := BuildAudit(now, value, results, targets, gateIdx);
      Create(audit, a);
      if gateIdx < 0 {
        outcome := EndUngated(policy, now, a);
      } else if a.createOk {
        outcome := EndGated(policy, now, a);
      } else {
        outcome := EndUnrecorded(policy, a);
      }
    }

    /** The evaluation is over without a trigger. */
    method EndEvaluation(policy: Policy, now: int, a: Answers, ghost v: Verdict)
      requires store.Valid() && Configured() && store.world.ppc == PEvaluate(policy, now)
      requires v == VerdictIn(store.cfg, store.world, a.listOk, SampleOf(a.metric)) && Remembers(v.window, v.cache) && Backed()
      requires v.sustained ==> Resolved(a, store.cfg.maxResources).None?
      modifies store
      ensures Valid() && store.world.ppc == PFinish(policy, false, None)
      ensures !TriggerSpacing.Fires(store.cfg, old(store.world), Evaluation(a, []))
      ensures store.trace == old(store.trace) + [Evaluation(a, [])]
    {
      EvaluationInParts(store.cfg, store.world, a.listOk, SampleOf(a.metric), Resolved(a, store.cfg.maxResources), []);
      store.Step(Evaluation(a, []));
    }

    /** The evaluation is over with a trigger, whose first half has run. */
    method EndEvaluationFired(policy: Policy, now: int, a: Answers, ghost v: Verdict, results: seq<Result<string>>)
      requires store.Valid() && Configured() && store.world.ppc == PEvaluate(policy, now)
      requires v == VerdictIn(store.cfg, store.world, a.listOk, SampleOf(a.metric)) && Remembers(v.window, v.cache) && v.sustained && Backed()
      requires Resolved(a, store.cfg.maxResources).Some?
      requires Confined(results, EffectiveTargets(Resolved(a, store.cfg.maxResources).value, namespace))
      modifies store
      ensures Valid() && store.world.ledger == old(store.world).ledger
      ensures TriggerSpacing.Fires(store.cfg, old(store.world), Evaluation(a, results))
      ensures store.world.ppc ==
              PCreate(policy, now, a.metric.text, results, EffectiveTargets(Resolved(a, store.cfg.maxResources).value, namespace))
      ensures store.trace == old(store.trace) + [Evaluation(a, results)]
    {
      EvaluationInParts(store.cfg, store.world, a.listOk, SampleOf(a.metric), Resolved(a, store.cfg.maxResources), results);
      store.Step(Evaluation(a, results));
    }

    /** The half of the pipeline in front of the gate, or all of it. */
    method RunFirstHalf(targets: seq<Target>, value: string) returns (results: seq<Result<string>>, gateIdx: int)
      modifies cluster
      ensures gateIdx == GateOf(actions)
      ensures var o := FirstHalf(targets, value, old(cluster.state));
              results == o.results && cluster.state == o.state
      ensures Confined(results, targets)
      ensures InFrontOfGate(targets, value, old(cluster.state), results, cluster.state)
    {
      gateIdx := GateIndex(actions);
      var runTo := |actions|;
      if gateIdx >= 0 {
        runTo := gateIdx;
      }
      FirstHalfStops(targets, value, cluster.state);
      TargetsConfined(PipelineFor(Target("", "", "", ""), value), targets, 0, runTo, cluster.state);
      var failed;
      results, failed := RunEach(PipelineFor(Target("", "", "", ""), value), cluster, targets, 0, runTo);
    }

    /** A half that starts with the pipeline's first action, unless that one waits, and ends in front of the
        first action that does. */
    ghost predicate InFrontOfGate(targets: seq<Target>, value: string, s: S, results: seq<Result<string>>, s': S) {
      && (actions == [] || actions[0].requiresApproval ==> results == [] && s' == s)
      && (actions != [] && !actions[0].requiresApproval && targets != [] ==>
            results != [] && SameExecution(results[0], RunOne(registry, actions[0], targets[0], value, s).result))
      && forall g :: 0 <= g < |actions| && actions[g].requiresApproval && (forall j :: 0 <= j < g ==> !actions[j].requiresApproval) ==>
                       |results| <= |targets| * g
    }

    lemma {:induction false} FirstHalfStops(targets: seq<Target>, value: string, s: S)
      ensures var o := FirstHalf(targets, value, s);
              InFrontOfGate(targets, value, s, o.results, o.state)
    {
      var p := PipelineFor(Target("", "", "", ""), value);
      var stop := if GateOf(actions) >= 0 then GateOf(actions) else |actions|;
      RangeBounded(p, targets, 0, stop, s);
      if stop == 0 {
        EmptyRange(p, targets, 0, s);
      } else if targets != [] {
        EachTargetStarts(p, targets, 0, stop, s, 0);
        assert targets[..0] == [];
      }
    }

    /** trigger: resolve the targets, run the half that does not wait, write it down. */
    method Trigger(policy: Policy, now: int, a: Answers, ghost v: Verdict)
        returns (outcome: Outcome, results: seq<Result<string>>)
      requires store.Valid() && Configured() && |a.others| == 6 && forall i :: 3 <= i < 6 ==> ForeignToPolicy(a.others[i])
      requires store.world.ppc == PEvaluate(policy, now) && a.newId !in store.world.ledger
      requires v == VerdictIn(store.cfg, store.world, a.listOk, SampleOf(a.metric)) && v.sustained
      requires Remembers(v.window, v.cache) && Backed()
      modifies store, window, limiter, cluster
      ensures Valid() && store.world.ppc == PIdle
      ensures var targets := Resolved(a, store.cfg.maxResources);
              if targets.None? then results == [] && cluster.state == old(cluster.state)
              else
                var o := FirstHalf(EffectiveTargets(targets.value, namespace), a.metric.text, old(cluster.state));
                && results == o.results && cluster.state == o.state
                && InFrontOfGate(if targets.value == [] then [Target("", "", "", namespace)] else targets.value, a.metric.text,
                                 old(cluster.state), results, cluster.state)
      ensures TriggerSpacing.Fires(store.cfg, old(store.world), Evaluation(a, results)) <==> Resolved(a, store.cfg.maxResources).Some?
      ensures store.trace == old(store.trace) + [Evaluation(a, results)] + a.others[3] + [PolicyCreate(a.createOk, a.newId)]
                             + a.others[4] + [PolicyMark(a.markOk)] + a.others[5] + [PolicyFinish(a.finishOk)]
    {
      var matched := ResolveTargets(a);
      if matched.None? {
        EndEvaluation(policy, now, a, v);
        outcome := RequeueEarly(policy, store.cfg.pollInterval, a);
        return outcome, [];
      }
      outcome, results := TriggerOn(matched.value, policy, now, a, v);
    }

    /** On these targets, or once on the namespace if nothing matched. */
    method TriggerOn(matched: seq<Target>, policy: Policy, now: int, a: Answers, ghost v: Verdict)
        returns (outcome: Outcome, results: seq<Result<string>>)
      requires store.Valid() && Configured() && |a.others| == 6 && forall i :: 3 <= i < 6 ==> ForeignToPolicy(a.others[i])
      requires store.world.ppc == PEvaluate(policy, now) && a.newId !in store.world.ledger
      requires v == VerdictIn(store.cfg, store.world, a.listOk, SampleOf(a.metric)) && v.sustained
      requires Remembers(v.window, v.cache) && Backed()
      requires Resolved(a, store.cfg.maxResources) == Some(matched)
      modifies store, window, limiter, cluster
      ensures Valid() && store.world.ppc == PIdle
      ensures var o := FirstHalf(EffectiveTargets(matched, namespace), a.metric.text, old(cluster.state));
              results == o.results && cluster.state == o.state
      ensures InFrontOfGate(if matched == [] then [Target("", "", "", namespace)] else matched, a.metric.text,
                            old(cluster.state), results, cluster.state)
      ensures TriggerSpacing.Fires(store.cfg, old(store.world), Evaluation(a, results))
      ensures store.trace == old(store.trace) + [Evaluation(a, results)] + a.others[3] + [PolicyCreate(a.createOk, a.newId)]
                             + a.others[4] + [PolicyMark(a.markOk)] + a.others[5] + [PolicyFinish(a.finishOk)]
    {
      var targets := matched;
      if |targets| == 0 {
        targets := [Target("", "", "", namespace)];
      }
      var gateIdx;
      results, gateIdx := RunFirstHalf(targets, a.metric.text);
      EndEvaluationFired(policy, now, a, v, results);
      outcome := RecordTrigger(policy, now, a.metric.text, results, targets, gateIdx, a);
    }

    function Evaluation(a: Answers, results: seq<Result<string>>): Event {
      PolicyEvaluate(a.listOk, SampleOf(a.metric), Resolved(a, store.cfg.maxResources), results)
    }

    /** What the half in front of the gate does over the targets. */
    ghost function FirstHalf(targets: seq<Target>, value: string, s: S): RunOutcome<S, string> {
      RunTargets(PipelineFor(Target("", "", "", ""), value), targets, 0, if GateOf(actions) >= 0 then GateOf(actions) else |actions|, s)
    }

    /** Gates 1 and 2, the metric, and the trigger if the crossing was sustained. */
    method Evaluate(policy: Policy, now: int, a: Answers) returns (outcome: Outcome, results: seq<Result<string>>)
      requires Valid() && |a.others| == 6 && forall i :: 3 <= i < 6 ==> ForeignToPolicy(a.others[i])
      requires store.world.ppc == PEvaluate(policy, now) && a.newId !in store.world.ledger
      modifies store, window, limiter, cluster, this`readings
      ensures Valid() && store.world.ppc == PIdle && old(readings) <= readings
      ensures Ran(old(store.world), a, old(cluster.state), results, cluster.state)
      ensures AsProtocol(old(store.world), a, old(cluster.state), results, cluster.state)
      ensures store.trace == old(store.trace) + [Evaluation(a, results)] + a.others[3] + [PolicyCreate(a.createOk, a.newId)]
                             + a.others[4] + [PolicyMark(a.markOk)] + a.others[5] + [PolicyFinish(a.finishOk)]
    {
      ghost var v := VerdictIn(store.cfg, store.world, a.listOk, SampleOf(a.metric));
      var sustained, after := ObserveMetric(policy, now, a);
      if !sustained {
        StepOfQuiet(store.world, a, cluster.state);
        EndEvaluation(policy, now, a, v);
        outcome := RequeueEarly(policy, after, a);
        return outcome, [];
      }
      outcome, results := Trigger(policy, now, a, v);
      if Resolved(a, store.cfg.maxResources).None? {
        StepOfQuiet(old(store.world), a, old(cluster.state));
      } else {
        StepOfTrigger(old(store.world), a, old(cluster.state), results);
      }
    }

    lemma StepOfQuiet(w: World, a: Answers, s: S)
      ensures !TriggerSpacing.Fires(store.cfg, w, Evaluation(a, [])) ==> AsProtocol(w, a, s, [], s)
    {
    }

    lemma StepOfTrigger(w: World, a: Answers, s: S, results: seq<Result<string>>)
      requires Configured() && TriggerSpacing.Fires(store.cfg, w, Evaluation(a, results)) && Resolved(a, store.cfg.maxResources).Some?
      requires PastThroughout(w.ppc.t, a.metric)
      requires results == FirstHalf(EffectiveTargets(Resolved(a, store.cfg.maxResources).value, namespace), a.metric.text, s).results
      ensures AsProtocol(w, a, s, results, FirstHalf(EffectiveTargets(Resolved(a, store.cfg.maxResources).value, namespace), a.metric.text, s).state)
    {
      RunReverts.FiringEvent(store.cfg, w, Evaluation(a, results));
      FiringSample(store.cfg, w, Evaluation(a, results));
    }

    /** In state w the evaluation triggers, and the first half runs and reports, or nothing runs. */
    ghost predicate Ran(w: World, a: Answers, s: S, results: seq<Result<string>>, s': S) {
      var targets := Resolved(a, store.cfg.maxResources);
      if w.ppc.PEvaluate? && VerdictIn(store.cfg, w, a.listOk, SampleOf(a.metric)).sustained && targets.Some? then
        var o := FirstHalf(EffectiveTargets(targets.value, namespace), a.metric.text, s);
        && results == o.results && s' == o.state
        && InFrontOfGate(if targets.value == [] then [Target("", "", "", namespace)] else targets.value, a.metric.text, s, results, s')
      else results == [] && s' == s
    }

    /** The evaluation's step carries the results the pipeline yields on the cluster as it is, and leaves the
        cluster as the protocol's step does; and if it triggers, the metric was past its threshold
        throughout. */
    ghost predicate AsProtocol(w: World, a: Answers, s: S, results: seq<Result<string>>, s': S)
      reads this
    {
      var p, e := PipelineFor(Target("", "", "", ""), ""), Evaluation(a, results);
      && RunReverts.Faithful(store.cfg, p, w, e, s) && s' == RunReverts.After(store.cfg, p, w, e, s)
      && (TriggerSpacing.Fires(store.cfg, w, e) ==> PastThroughout(w.ppc.t, a.metric))
    }

    /** Gate 0: an open approval gate keeps the policy quiet, and so does not knowing. */
    method CheckGate(read: Policy, now: int, a: Answers) returns (quiet: bool, policy: Policy)
      requires Valid() && |a.others| == 6 && ForeignToPolicy(a.others[1])
      requires store.world.ppc == if read.pendingGateRef.Some? then PCheckGate(read, now) else PEvaluate(read, now)
      modifies store
      ensures Valid() && store.world.ledger.Keys == old(store.world).ledger.Keys
      ensures store.world.ppc == if quiet then PFinish(policy, false, None) else PEvaluate(policy, now)
      ensures store.trace == old(store.trace) + a.others[1] + [PolicyCheckGate(a.gateOk)]
      ensures var audits := Run(store.cfg, old(store.world), a.others[1]).audits;
              && (quiet <==>
                    && read.pendingGateRef.Some?
                    && (a.gateOk ==> read.pendingGateRef.value in audits && audits[read.pendingGateRef.value].audit.status.phase == Pending))
              && policy == if quiet then read else read.(pendingGateRef := None)
    {
      policy, quiet := read, false;
      store.OthersBeforePolicyCall(a.others[1]);
      if policy.pendingGateRef.None? {
        store.Skip(PolicyCheckGate(a.gateOk));
        return;
      }
      var open := GateStillOpen(policy.pendingGateRef.value);
      store.Step(PolicyCheckGate(a.gateOk));
      if !a.gateOk || open {
        return true, policy;
      }
      policy := policy.(pendingGateRef := None);
    }

    ghost function StepsToEvaluation(a: Answers): seq<Event>
      requires |a.others| == 6
    {
      a.others[0] + [PolicyRead] + a.others[1] + [PolicyCheckGate(a.gateOk)] + a.others[2]
    }

    /** The policy as it is stored, and the time. */
    method Read(a: Answers) returns (policy: Policy, now: int)
      requires Valid() && store.world.ppc == PIdle && |a.others| == 6 && ForeignToPolicy(a.others[0])
      modifies store
      ensures Valid() && store.world.ledger.Keys == old(store.world).ledger.Keys
      ensures store.world.ppc == if policy.pendingGateRef.Some? then PCheckGate(policy, now) else PEvaluate(policy, now)
      ensures store.trace == old(store.trace) + a.others[0] + [PolicyRead]
    {
      store.OthersBeforePolicyCall(a.others[0]);
      policy, now := store.world.policy, store.world.now;
      store.Step(PolicyRead);
    }

    /** Up to the gates an evaluation has to pass: read the policy, take the time, check gate 0. */
    method Begin(a: Answers) returns (quiet: bool, policy: Policy, now: int)
      requires Valid() && store.world.ppc == PIdle
      requires |a.others| == 6 && forall i :: 0 <= i < 6 ==> ForeignToPolicy(a.others[i])
      modifies store
      ensures Valid() && store.world.ledger.Keys == old(store.world).ledger.Keys
      ensures store.world.ppc == if quiet then PFinish(policy, false, None) else PEvaluate(policy, now)
      ensures store.trace == old(store.trace) + a.others[0] + [PolicyRead] + a.others[1] + [PolicyCheckGate(a.gateOk)] + a.others[2]
    {
      policy, now := Read(a);
      quiet, policy := CheckGate(policy, now, a);
      store.OthersBeforePolicyCall(a.others[2]);
    }

    /** The rest of it. */
    method Complete(quiet: bool, policy: Policy, now: int, a: Answers) returns (outcome: Outcome, results: seq<Result<string>>)
      requires Valid() && |a.others| == 6 && forall i :: 3 <= i < 6 ==> ForeignToPolicy(a.others[i])
      requires store.world.ppc == if quiet then PFinish(policy, false, None) else PEvaluate(policy, now)
      requires a.newId !in store.world.ledger
      modifies store, window, limiter, cluster, this`readings
      ensures Valid() && store.world.ppc == PIdle && old(readings) <= readings
      ensures Ran(old(store.world), a, old(cluster.state), results, cluster.state)
      ensures AsProtocol(old(store.world), a, old(cluster.state), results, cluster.state)
      ensures store.trace == old(store.trace) + [Evaluation(a, results)] + a.others[3] + [PolicyCreate(a.createOk, a.newId)]
                             + a.others[4] + [PolicyMark(a.markOk)] + a.others[5] + [PolicyFinish(a.finishOk)]
    {
      if quiet {
        store.Skip(Evaluation(a, []));
        outcome := RequeueEarly(policy, store.cfg.pollInterval, a);
        results := [];
      } else {
        outcome, results := Evaluate(policy, now, a);
      }
    }

    /** Reconcile: whatever others do between its calls and however the calls end, it makes exactly the
        protocol's steps, and runs the first half exactly when the protocol's evaluation triggers. */
    method Reconcile(a: Answers) returns (outcome: Outcome, results: seq<Result<string>>)
      requires Valid() && store.world.ppc == PIdle
      requires |a.others| == 6 && forall i :: 0 <= i < 6 ==> ForeignToPolicy(a.others[i])
      requires a.newId !in store.world.ledger
      modifies store, window, limiter, cluster, this`readings
      ensures Valid() && store.world.ppc == PIdle && old(readings) <= readings
      ensures AsProtocol(Run(store.cfg, old(store.world), StepsToEvaluation(a)), a, old(cluster.state), results, cluster.state)
      ensures store.trace == old(store.trace) + Steps(store.cfg, a, results)
      ensures store.world == Run(store.cfg, old(store.world), Steps(store.cfg, a, results))
      ensures Ran(Run(store.cfg, old(store.world), StepsToEvaluation(a)), a, old(cluster.state), results, cluster.state)
    {
      ghost var t := store.trace;
      var quiet, policy, now := Begin(a);
      assert store.trace == t + StepsToEvaluation(a);
      RunConcat(store.cfg, store.start, t, StepsToEvaluation(a));
      outcome, results := Complete(quiet, policy, now, a);
      StepsInParts(store.cfg, a, results, t, Evaluation(a, results), StepsToEvaluation(a));
      RunConcat(store.cfg, store.start, t, Steps(store.cfg, a, results));
    }
  }

  lemma OneMorePast(readings: seq<Reading>, r: Reading, since: Option<int>)
    requires Past(r) && (since.Some? ==> exists i :: PastFrom(readings, i, since.value))
    ensures since.Some? ==> exists i :: PastFrom(readings + [r], i, since.value)
    ensures since.None? ==> exists i :: PastFrom(readings + [r], i, r.now)
  {
    if since.Some? {
      var i :| PastFrom(readings, i, since.value);
      assert PastFrom(readings + [r], i, since.value);
    } else {
      assert PastFrom(readings + [r], |readings|, r.now);
    }
  }

  lemma FiringSample(cfg: Config, w: World, e: Event)
    requires TriggerSpacing.Fires(cfg, w, e)
    ensures e.sample.Value?
  {
  }

  /** The record of a trigger, entry by entry. */
  lemma {:induction false} AuditSays(cfg: Config, now: int, value: string, results: seq<Result<string>>, targets: seq<Target>)
    ensures var spec := NewAudit(cfg, now, value, results, targets).spec;
            && |spec.actions| == |results|
            && (forall i :: 0 <= i < |results| ==> spec.actions[i].index == i && RecordToResult(spec.actions[i]) == results[i])
  {
    forall i | 0 <= i < |results| {
      RecordRoundTrip(cfg.reversible, i, results[i]);
    }
  }

  lemma StepsInParts(cfg: Config, a: Answers, results: seq<Result<string>>, t: seq<Event>, evaluation: Event, first: seq<Event>)
    requires |a.others| == 6
    requires evaluation == PolicyEvaluate(a.listOk, SampleOf(a.metric), Resolved(a, cfg.maxResources), results)
    requires first == a.others[0] + [PolicyRead] + a.others[1] + [PolicyCheckGate(a.gateOk)] + a.others[2]
    ensures t + Steps(cfg, a, results) ==
            t + first + [evaluation] + a.others[3] + [PolicyCreate(a.createOk, a.newId)] + a.others[4] + [PolicyMark(a.markOk)]
            + a.others[5] + [PolicyFinish(a.finishOk)]
  {
    var rest := [evaluation] + a.others[3] + [PolicyCreate(a.createOk, a.newId)] + a.others[4] + [PolicyMark(a.markOk)]
                + a.others[5] + [PolicyFinish(a.finishOk)];
    assert Steps(cfg, a, results) == first + rest;
    assert t + (first + rest) == (t + first) + rest;
  }

  /** Listings add up in the order of the kinds, and one that fails spoils them all. */
  lemma {:induction false} ListingsAddUp(lists: seq<Option<seq<Target>>>, last: Option<seq<Target>>)
    ensures Gathered([]) == Some([])
    ensures Gathered(lists + [last]) == if Gathered(lists).Some? && last.Some? then Some(Gathered(lists).value + last.value) else None
  {
    assert (lists + [last])[..|lists|] == lists;
  }

  lemma {:induction false} GatheredHolds(lists: seq<Option<seq<Target>>>)
    ensures Gathered(lists).Some? <==> forall k :: 0 <= k < |lists| ==> lists[k].Some?
    ensures Gathered(lists).Some? ==>
              forall t :: t in Gathered(lists).value <==> exists k :: 0 <= k < |lists| && lists[k].Some? && t in lists[k].value
  {
    if lists != [] {
      var init, last := lists[..|lists| - 1], lists[|lists| - 1];
      GatheredHolds(init);
      assert forall k :: 0 <= k < |init| ==> init[k] == lists[k];
      if k :| 0 <= k < |init| && init[k].None? {
        assert lists[k].None?;
      }
      assert lists[|lists| - 1] == last;
      if Gathered(lists).Some? {
        forall t
          ensures t in Gathered(lists).value <==> exists k :: 0 <= k < |lists| && lists[k].Some? && t in lists[k].value
        {
          if t in last.value {
            assert lists[|lists| - 1].Some? && t in lists[|lists| - 1].value;
          }
          if t in Gathered(init).value {
            var k :| 0 <= k < |init| && init[k].Some? && t in init[k].value;
            assert lists[k].Some? && t in lists[k].value;
          }
        }
      }
    }
  }

  lemma {:induction false} GatheredNone(lists: seq<Option<seq<Target>>>, k: nat)
    requires k < |lists| && lists[k].None?
    ensures Gathered(lists).None?
  {
    if k < |lists| - 1 {
      GatheredNone(lists[..|lists| - 1], k);
    }
  }
}
