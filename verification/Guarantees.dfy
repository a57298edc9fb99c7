/**
 What the run theorems say about the code: every state of the shared store, however often the two
 reconcilers ran over it and whatever others did in between, meets them.
 */
module Guarantees {
  import opened RateLimiter
  import opened ApprovalApi
  import opened Protocol
  import opened GateSafety
  import opened RollingCap
  import opened TriggerSpacing
  import opened ObjectStore

  /** The held half ran only on an approval admitted in time, exactly once if no attempt was lost, and
      never behind a denied or expired gate. */
  lemma HeldHalfOnlyOnApproval(store: Store, id: Id)
    requires store.Valid() && id in store.world.ledger && id !in store.world.apcs
    ensures var l := store.world.ledger[id];
            && (l.runs > 0 ==> l.verdict.Some? && l.verdict.value.decision == Approve && l.verdict.value.at < l.verdict.value.expiresAt)
            && (l.lostRuns == 0 ==> l.runs == if l.last.status.phase == Approved then 1 else 0)
            && (l.last.status.phase in {Denied, Expired} ==> l.runs == l.lostRuns)
            && (l.last.status.phase == Expired ==> l.runs == 0 && l.verdict.None?)
  {
    ExpiryAndApprovalNeverBothWin(store.cfg, store.start, store.trace, id);
    HeldHalfAccounting(store.cfg, store.start, store.trace, id);
  }

  /** With a retention of an hour or more, or triggers that take an hour by their spacing alone, no
      half-open hour holds more records than the cap, apart from gated ones whose Pending mark failed;
      and no two triggers are closer than the duration. */
  lemma TriggersAreBounded(store: Store, x: int, i: nat, j: nat)
    requires store.Valid() && CapGuarded(store.cfg) && 0 < store.cfg.duration && 0 <= store.cfg.maxPerHour
    requires i < j < |store.world.marks| && store.world.marks[i].Triggered? && store.world.marks[j].Triggered?
    ensures |Between(Times(store.world), x, x + HOUR)| <= store.cfg.maxPerHour + store.world.skipped
    ensures store.world.marks[j].t - store.world.marks[i].t >= store.cfg.duration
  {
    RollingCapHolds(store.cfg, store.start, store.trace, x);
    TriggersADurationApart(store.cfg, store.start, store.trace, i, j);
  }
}
