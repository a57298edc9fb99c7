/**
 Exactly when the rolling cap holds over every run.
 */
module CapThreshold {
  import opened Common
  import opened RateLimiter
  import opened Protocol
  import opened RollingCap
  import opened Scenarios

  ghost predicate CappedAt(cfg: Config, w: World, es: seq<Event>, x: int) {
    Init(w) ==> |Between(Times(Run(cfg, w, es)), x, x + HOUR)| <= cfg.maxPerHour + Run(cfg, w, es).skipped
  }

  /** No run ever holds more records in a half-open hour than the cap and the skipped bumps. */
  ghost predicate AlwaysCapped(cfg: Config) {
    forall w: World, es: seq<Event>, x: int :: CappedAt(cfg, w, es, x)
  }

  /** Policies that can trigger at all. */
  ghost predicate CanTrigger(cfg: Config) {
    ValidConfig(cfg) && 0 < cfg.duration && 0 < cfg.maxPerHour && 0 <= cfg.maxResources
  }

  // ---------------------------------------------------------------------------------------
  // Using up the cap
  // ---------------------------------------------------------------------------------------

  /** n records, the first one triggered at `duration`, all by now; nothing under way, and no trace of
      them in the policy. */
  ghost predicate Spent(cfg: Config, w: World, n: nat) {
    && w.ppc == PIdle && w.apcs == map[] && w.window == None && w.skipped == 0
    && w.policy.lastTriggeredAt == None && w.policy.pendingGateRef == None
    && w.now == n * cfg.duration
    && (forall id: Id :: (id in w.audits <==> id < n) && (id in w.ledger <==> id < n))
    && (forall id :: id in w.ledger ==> cfg.duration <= w.ledger[id].last.spec.triggeredAt <= w.now)
    && (n > 0 ==> 0 in w.audits && w.audits[0].created == cfg.duration)
    && (w.cache.Some? ==> w.cache.value.count <= n)
  }

  /** From rest to a record, the closing status write being lost. */
  function Spend(cfg: Config, id: Id, h: Half): seq<Event>
    requires 0 <= cfg.duration
  {
    Sustain(cfg, h) + LoseRecord(cfg, id)
  }

  /** One record for each half, whatever the evaluations yielded. */
  function SpendAll(cfg: Config, halves: seq<Half>): seq<Event>
    requires 0 <= cfg.duration
  {
    if halves == [] then []
    else
      var n := |halves| - 1;
      SpendAll(cfg, halves[..n]) + Spend(cfg, n, halves[n])
  }

  predicate AllPlausible(cfg: Config, halves: seq<Half>) {
    forall i :: 0 <= i < |halves| ==> Plausible(cfg, halves[i])
  }

  function IdsBelow(n: nat): (ids: set<Id>)
    ensures |ids| == n && forall id: Id :: id in ids <==> id < n
  {
    if n == 0 then {} else IdsBelow(n - 1) + {n - 1}
  }

  /** n records still stored leave room for another trigger while n is below the cap. */
  lemma SpentIsReady(cfg: Config, w: World, n: nat)
    requires CanTrigger(cfg) && Spent(cfg, w, n) && n < cfg.maxPerHour
    ensures Ready(cfg, w, w.policy, w.now) && MostCounted(w, w.now) <= n
  {
    SubsetSize(RecentIds(w.audits, w.now - HOUR), IdsBelow(n));
  }

  lemma SpentOneMore(cfg: Config, w: World, n: nat, fired: World, w': World)
    requires 0 < cfg.duration && Spent(cfg, w, n) && JustRecorded(fired, w', n)
    requires fired.policy.lastTriggeredAt == None && fired.policy.pendingGateRef == None && fired.now == w.now + cfg.duration
    requires fired.audits == w.audits && fired.ledger == w.ledger && fired.apcs == w.apcs && fired.skipped == w.skipped
    requires fired.cache.Some? && fired.cache.value.count <= n
    ensures Spent(cfg, w', n + 1)
  {
    assert (n + 1) * cfg.duration == n * cfg.duration + cfg.duration;
    assert n == 0 ==> w.now == 0;
  }

  lemma {:induction false} SpendsOne(cfg: Config, w: World, n: nat, h: Half)
    requires CanTrigger(cfg) && Plausible(cfg, h) && Spent(cfg, w, n) && n < cfg.maxPerHour
    ensures Spent(cfg, Run(cfg, w, Spend(cfg, n, h)), n + 1)
  {
    SpentIsReady(cfg, w, n);
    ReadyOnceOpened(cfg, w, h);
    SustainedFires(cfg, w, h);
    var w1 := Fired(cfg, Opened(cfg, w), cfg.duration, h);
    LosesRecord(cfg, w1, n);
    Joined(cfg, w, Sustain(cfg, h), w1, LoseRecord(cfg, n), Run(cfg, w1, LoseRecord(cfg, n)));
    SpentOneMore(cfg, w, n, w1, Run(cfg, w1, LoseRecord(cfg, n)));
  }

  lemma {:induction false} SpendsNext(cfg: Config, before: seq<Event>, n: nat, h: Half)
    requires CanTrigger(cfg) && Plausible(cfg, h) && Spent(cfg, Run(cfg, Start(), before), n) && n < cfg.maxPerHour
    ensures Spent(cfg, Run(cfg, Start(), before + Spend(cfg, n, h)), n + 1)
  {
    SpendsOne(cfg, Run(cfg, Start(), before), n, h);
    RunConcat(cfg, Start(), before, Spend(cfg, n, h));
  }

  lemma {:induction false} SpendsAll(cfg: Config, halves: seq<Half>)
    requires CanTrigger(cfg) && AllPlausible(cfg, halves) && |halves| <= cfg.maxPerHour
    ensures Spent(cfg, Run(cfg, Start(), SpendAll(cfg, halves)), |halves|)
  {
    if halves != [] {
      var n := |halves| - 1;
      SpendsAll(cfg, halves[..n]);
      SpendsNext(cfg, SpendAll(cfg, halves[..n]), n, halves[n]);
    }
  }

  // ---------------------------------------------------------------------------------------
  // One more
  // ---------------------------------------------------------------------------------------

  /** The operator restarts, and a reconcile takes its time; by the time it lists, the sweep has
      reclaimed the first record. */
  function Reclaim(pause: nat): seq<Event> {
    Delay(pause) + [AuditRead(0), AuditDecide(0, true, true)]
  }

  function Delay(pause: nat): seq<Event> {
    [Restart, PolicyRead, Tick(pause)]
  }

  function Delayed(w: World, pause: nat): World {
    w.(cache := None, ppc := PEvaluate(w.policy, w.now), now := w.now + pause)
  }

  lemma {:induction false} Delays(cfg: Config, w: World, pause: nat)
    requires w.ppc == PIdle && w.apcs == map[] && w.window == None && w.policy.pendingGateRef == None
    ensures Run(cfg, w, Delay(pause)) == Delayed(w, pause)
  {
    var w1 := Next(cfg, w, Restart);
    assert w1.ledger == w.ledger;
    RunOf3(cfg, w, Restart, PolicyRead, Tick(pause));
  }

  lemma {:induction false} Sweeps(cfg: Config, w: World)
    requires 0 in w.audits && w.apcs == map[] && w.audits[0].created + cfg.retention <= w.now
    ensures Run(cfg, w, [AuditRead(0), AuditDecide(0, true, true)]) == w.(audits := w.audits - {0})
  {
    var w1 := Next(cfg, w, AuditRead(0));
    assert w1 == w.(apcs := map[0 := ADecide(w.audits[0])]);
    var w2 := Next(cfg, w1, AuditDecide(0, true, true));
    assert w2.apcs == map[];
    assert [AuditRead(0), AuditDecide(0, true, true)] == [AuditRead(0)] + [AuditDecide(0, true, true)];
    RunFirst(cfg, w, AuditRead(0), [AuditDecide(0, true, true)]);
    RunLast(cfg, w1, AuditDecide(0, true, true));
  }

  function Reclaimed(w: World, pause: nat): World {
    Delayed(w, pause).(audits := w.audits - {0})
  }

  lemma {:induction false} Reclaims(cfg: Config, w: World, m: nat, pause: nat)
    requires Spent(cfg, w, m) && 0 < m && cfg.duration + cfg.retention <= w.now + pause
    ensures Run(cfg, w, Reclaim(pause)) == Reclaimed(w, pause)
  {
    Delays(cfg, w, pause);
    Sweeps(cfg, Delayed(w, pause));
    Joined(cfg, w, Delay(pause), Delayed(w, pause), [AuditRead(0), AuditDecide(0, true, true)], Reclaimed(w, pause));
  }

  /** It lists now, is let through, and opens the window with the time it took. */
  function LateOpen(h: Half): seq<Event> {
    [Crossed(h), PolicyFinish(false)]
  }

  function OpenedLate(cfg: Config, w: World, t: int): World {
    w.(cache := Counted(cfg, w, t), window := Some(t), ppc := PIdle)
  }

  lemma {:induction false} OpensLate(cfg: Config, w: World, snap: Policy, t: int, h: Half)
    requires w.ppc == PEvaluate(snap, t) && Ready(cfg, w, snap, t) && w.window == None && 0 < cfg.duration
    ensures Run(cfg, w, LateOpen(h)) == OpenedLate(cfg, w, t)
  {
    OpenWindow(cfg, w, snap, t, h);
    var w1 := Next(cfg, w, Crossed(h));
    assert LateOpen(h) == [Crossed(h)] + [PolicyFinish(false)];
    RunFirst(cfg, w, Crossed(h), [PolicyFinish(false)]);
    RunLast(cfg, w1, PolicyFinish(false));
  }

  /** The first record is gone, so there is room again, both for the late reconcile and for the next. */
  lemma RoomAgain(cfg: Config, w: World, m: nat, pause: nat, delay: nat)
    requires CanTrigger(cfg) && Spent(cfg, w, m) && m == cfg.maxPerHour
    ensures var w1 := Reclaimed(w, pause);
            && Ready(cfg, w1, w.policy, w.now)
            && Ready(cfg, OpenedLate(cfg, w1, w.now), w.policy, w.now + pause + delay)
  {
    var w1 := Reclaimed(w, pause);
    SubsetSize(RecentIds(w1.audits, w.now - HOUR), IdsBelow(m) - {0});
    StillReady(cfg, w1, OpenedLate(cfg, w1, w.now), w.policy, w.now, w.policy, w.now + pause + delay);
  }

  /** From the spent cap to one trigger more. */
  function TriggerAgain(pause: nat, delay: nat, h: Half): seq<Event> {
    Reclaim(pause) + (LateOpen(h) + FireAfter(delay, h))
  }

  function TriggeredAgain(cfg: Config, w: World, pause: nat, delay: nat, h: Half): World {
    Fired(cfg, OpenedLate(cfg, Reclaimed(w, pause), w.now), delay, h)
  }

  lemma {:induction false} OpensThenFires(cfg: Config, w: World, m: nat, pause: nat, delay: nat, h: Half)
    requires CanTrigger(cfg) && Plausible(cfg, h) && Spent(cfg, w, m) && m == cfg.maxPerHour && cfg.duration <= pause + delay
    ensures Run(cfg, Reclaimed(w, pause), LateOpen(h) + FireAfter(delay, h)) == TriggeredAgain(cfg, w, pause, delay, h)
  {
    var w1 := Reclaimed(w, pause);
    RoomAgain(cfg, w, m, pause, delay);
    OpensLate(cfg, w1, w.policy, w.now, h);
    FiresLater(cfg, OpenedLate(cfg, w1, w.now), delay, h);
    Joined(cfg, w1, LateOpen(h), OpenedLate(cfg, w1, w.now), FireAfter(delay, h), TriggeredAgain(cfg, w, pause, delay, h));
  }

  lemma {:induction false} TriggersAgain(cfg: Config, w: World, m: nat, pause: nat, delay: nat, h: Half)
    requires CanTrigger(cfg) && Plausible(cfg, h) && Spent(cfg, w, m) && m == cfg.maxPerHour
    requires cfg.duration <= pause + delay && cfg.duration + cfg.retention <= w.now + pause
    ensures Run(cfg, w, TriggerAgain(pause, delay, h)) == TriggeredAgain(cfg, w, pause, delay, h)
  {
    Reclaims(cfg, w, m, pause);
    OpensThenFires(cfg, w, m, pause, delay, h);
    Joined(cfg, w, Reclaim(pause), Reclaimed(w, pause), LateOpen(h) + FireAfter(delay, h), TriggeredAgain(cfg, w, pause, delay, h));
  }

  /** One record too many, the last at w.now + pause + delay. */
  lemma {:induction false} RecordsAgain(cfg: Config, w: World, m: nat, pause: nat, delay: nat, h: Half)
    requires CanTrigger(cfg) && Plausible(cfg, h) && Spent(cfg, w, m) && m == cfg.maxPerHour
    requires cfg.duration <= pause + delay && cfg.duration + cfg.retention <= w.now + pause
    ensures var w' := Run(cfg, w, TriggerAgain(pause, delay, h) + LoseRecord(cfg, m));
            && w'.skipped == 0
            && (forall id: Id :: id in w'.ledger <==> id <= m)
            && (forall id :: id in w'.ledger ==> cfg.duration <= w'.ledger[id].last.spec.triggeredAt <= w.now + pause + delay)
  {
    TriggersAgain(cfg, w, m, pause, delay, h);
    var w1 := TriggeredAgain(cfg, w, pause, delay, h);
    assert m * cfg.duration >= cfg.duration;
    LosesRecord(cfg, w1, m);
    Joined(cfg, w, TriggerAgain(pause, delay, h), w1, LoseRecord(cfg, m), Run(cfg, w1, LoseRecord(cfg, m)));
  }

  lemma CrowdedHour(w: World, m: nat, first: int, last: int)
    requires forall id: Id :: id in w.ledger <==> id <= m
    requires forall id :: id in w.ledger ==> first <= w.ledger[id].last.spec.triggeredAt <= last
    requires last < first + HOUR
    ensures |Between(Times(w), first - 1, first - 1 + HOUR)| == m + 1
  {
    assert Between(Times(w), first - 1, first - 1 + HOUR) == IdsBelow(m + 1);
  }

  lemma {:induction false} OverrunsOnceSpent(cfg: Config, w: World, m: nat, h: Half) returns (es: seq<Event>)
    requires CanTrigger(cfg) && Plausible(cfg, h) && !CapGuarded(cfg) && Spent(cfg, w, m) && m == cfg.maxPerHour
    ensures Run(cfg, w, es).skipped == 0
    ensures |Between(Times(Run(cfg, w, es)), cfg.duration - 1, cfg.duration - 1 + HOUR)| == m + 1
  {
    var pause: nat := Max(0, cfg.duration + cfg.retention - w.now);
    var delay: nat := Max(0, cfg.duration - pause);
    es := TriggerAgain(pause, delay, h) + LoseRecord(cfg, m);
    RecordsAgain(cfg, w, m, pause, delay, h);
    CrowdedHour(Run(cfg, w, es), m, cfg.duration, w.now + pause + delay);
  }

  /** When records do not outlive the hour and the cap's triggers fit into it, one more fits too, whatever
      the evaluations yield. */
  lemma UnguardedOverruns(cfg: Config, halves: seq<Half>, last: Half) returns (es: seq<Event>)
    requires CanTrigger(cfg) && !CapGuarded(cfg)
    requires |halves| == cfg.maxPerHour && AllPlausible(cfg, halves) && Plausible(cfg, last)
    ensures Init(Start()) && Run(cfg, Start(), es).skipped == 0
    ensures |Between(Times(Run(cfg, Start(), es)), cfg.duration - 1, cfg.duration - 1 + HOUR)| == cfg.maxPerHour + 1
  {
    SpendsAll(cfg, halves);
    var w := Run(cfg, Start(), SpendAll(cfg, halves));
    var more := OverrunsOnceSpent(cfg, w, cfg.maxPerHour, last);
    es := SpendAll(cfg, halves) + more;
    Joined(cfg, Start(), SpendAll(cfg, halves), w, more, Run(cfg, w, more));
  }

  function Unmatched(n: nat): (halves: seq<Half>)
    ensures |halves| == n && forall i :: 0 <= i < n ==> halves[i] == NOTHING_MATCHED
  {
    seq(n, i => NOTHING_MATCHED)
  }

  // ---------------------------------------------------------------------------------------
  // The threshold
  // ---------------------------------------------------------------------------------------

  /** The cap holds over every run if and only if records are kept for an hour or the triggers it
      allows take an hour by their spacing alone. */
  lemma RollingCapExactly(cfg: Config)
    requires CanTrigger(cfg)
    ensures AlwaysCapped(cfg) <==> HOUR <= cfg.retention || HOUR <= cfg.maxPerHour * cfg.duration
  {
    if CapGuarded(cfg) {
      forall w: World, es: seq<Event>, x: int
        ensures CappedAt(cfg, w, es, x)
      {
        if Init(w) {
          RollingCapHolds(cfg, w, es, x);
        }
      }
    } else {
      var es := UnguardedOverruns(cfg, Unmatched(cfg.maxPerHour), NOTHING_MATCHED);
      assert !CappedAt(cfg, Start(), es, cfg.duration - 1);
    }
  }

  ghost predicate WithinCapAt(cfg: Config, w: World, es: seq<Event>, x: int) {
    Init(w) ==> |Between(Times(Run(cfg, w, es)), x, x + HOUR)| <= cfg.maxPerHour
  }

  ghost predicate AlwaysWithinCap(cfg: Config) {
    forall w: World, es: seq<Event>, x: int :: WithinCapAt(cfg, w, es, x)
  }

  /** Without a gate nothing is ever skipped, and the cap itself is what holds. */
  lemma UngatedCapExactly(cfg: Config)
    requires CanTrigger(cfg) && cfg.gate < 0
    ensures AlwaysWithinCap(cfg) <==> HOUR <= cfg.retention || HOUR <= cfg.maxPerHour * cfg.duration
  {
    if CapGuarded(cfg) {
      forall w: World, es: seq<Event>, x: int
        ensures WithinCapAt(cfg, w, es, x)
      {
        if Init(w) {
          UngatedCapIsExact(cfg, w, es, x);
        }
      }
    } else {
      var es := UnguardedOverruns(cfg, Unmatched(cfg.maxPerHour), NOTHING_MATCHED);
      assert !WithinCapAt(cfg, Start(), es, cfg.duration - 1);
    }
  }
}
