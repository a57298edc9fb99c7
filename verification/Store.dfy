/**
 The objects the two reconcilers share, with everybody else acting on them between two calls.
 Every state the store is ever in is reached by a run of the protocol: each call makes the step
 the protocol knows for it, and is allowed only with the content that step would write.
 */
module ObjectStore {
  import opened Common
  import opened RateLimiter
  import opened Protocol
  import opened GateInvariant

  /** A step of the policy reconcile, or the end of the operator process that runs it. */
  predicate OfPolicyReconcile(e: Event) {
    e.Restart? || e.PolicyRead? || e.PolicyCheckGate? || e.PolicyEvaluate? || e.PolicyCreate? || e.PolicyMark? || e.PolicyFinish?
  }

  predicate OfAuditReconcile(e: Event, id: Id) {
    e.Restart? || (ByAuditReconciler(e) && e.id == id)
  }

  /** What others may do while a policy reconcile is under way. */
  ghost predicate ForeignToPolicy(es: seq<Event>) {
    forall i :: 0 <= i < |es| ==> !OfPolicyReconcile(es[i])
  }

  ghost predicate ForeignToAudit(es: seq<Event>, id: Id) {
    forall i :: 0 <= i < |es| ==> !OfAuditReconcile(es[i], id)
  }

  class Store {
    const cfg: Config
    ghost const start: World
    var world: World
    ghost var trace: seq<Event>

    ghost predicate Valid()
      reads this
    {
      ValidConfig(cfg) && Init(start) && world == Run(cfg, start, trace)
    }

    constructor (cfg: Config, w: World)
      requires ValidConfig(cfg) && Init(w)
      ensures Valid() && this.cfg == cfg && start == w && world == w && trace == []
    {
      this.cfg, start, world, trace := cfg, w, w, [];
    }

    /** One step of anybody. */
    method Step(e: Event)
      requires Valid()
      modifies this
      ensures Valid() && world == Next(cfg, old(world), e) && trace == old(trace) + [e]
    {
      world := Next(cfg, world, e);
      trace := trace + [e];
      assert trace[..|trace| - 1] == old(trace);
    }

    /** A call that is not made, because the reconcile does not get there: the step would not apply. */
    ghost method Skip(e: Event)
      requires Valid() && Next(cfg, world, e) == world
      modifies this`trace
      ensures Valid() && trace == old(trace) + [e]
    {
      trace := trace + [e];
      assert trace[..|trace| - 1] == old(trace);
    }

    /** Others act before a call of the policy reconcile. */
    method OthersBeforePolicyCall(es: seq<Event>)
      requires Valid() && ForeignToPolicy(es)
      modifies this
      ensures Valid() && world == Run(cfg, old(world), es) && trace == old(trace) + es
      ensures SparedByOthers(old(world), world)
    {
      for i := 0 to |es|
        invariant Valid() && world == Run(cfg, old(world), es[..i]) && trace == old(trace) + es[..i]
        invariant SparedByOthers(old(world), world)
      {
        RunKeepsSafe(cfg, start, trace);
        OthersSparePolicySide(cfg, world, es[i]);
        assert es[..i + 1][..i] == es[..i];
        Step(es[i]);
      }
      assert es[..|es|] == es;
    }

    /** Others act before a call of the reconcile of one record. */
    method OthersBeforeAuditCall(es: seq<Event>, id: Id)
      requires Valid() && ForeignToAudit(es, id)
      modifies this
      ensures Valid() && world == Run(cfg, old(world), es) && trace == old(trace) + es
      ensures SameFlight(old(world), world, id)
    {
      for i := 0 to |es|
        invariant Valid() && world == Run(cfg, old(world), es[..i]) && trace == old(trace) + es[..i]
        invariant SameFlight(old(world), world, id)
      {
        RunKeepsSafe(cfg, start, trace);
        OthersSpareFlight(cfg, world, es[i], id);
        assert es[..i + 1][..i] == es[..i];
        Step(es[i]);
      }
      assert es[..|es|] == es;
    }

    /** The trigger times of the records a List returns. */
    method List() returns (times: seq<int>)
      ensures forall cutoff :: CountAfter(times, cutoff) == RecentCount(world.audits, cutoff)
    {
      times := [];
      ghost var listed: seq<Id> := [];
      var rest := world.audits.Keys;
      while rest != {}
        invariant |times| == |listed|
        invariant rest <= world.audits.Keys
        invariant forall id :: id in world.audits <==> id in listed || id in rest
        invariant forall i :: 0 <= i < |listed| ==>
                    listed[i] !in rest && listed[i] in world.audits && times[i] == world.audits[listed[i]].audit.spec.triggeredAt
        invariant forall i, j :: 0 <= i < j < |listed| ==> listed[i] != listed[j]
        decreases |rest|
      {
        var id :| id in rest;
        rest := rest - {id};
        times := times + [world.audits[id].audit.spec.triggeredAt];
        listed := listed + [id];
      }
      ListCounts(world.audits, listed, times);
    }
  }

  lemma {:induction false} ListCounts(audits: map<Id, Stored>, listed: seq<Id>, times: seq<int>)
    requires |times| == |listed|
    requires forall id :: id in audits <==> id in listed
    requires forall i :: 0 <= i < |listed| ==> listed[i] in audits && times[i] == audits[listed[i]].audit.spec.triggeredAt
    requires forall i, j :: 0 <= i < j < |listed| ==> listed[i] != listed[j]
    ensures forall cutoff :: CountAfter(times, cutoff) == RecentCount(audits, cutoff)
  {
    var at := map id | id in audits :: audits[id].audit.spec.triggeredAt;
    forall cutoff
      ensures CountAfter(times, cutoff) == RecentCount(audits, cutoff)
    {
      CountAfterIsCardinality(listed, at, times, cutoff);
      assert RecentIds(audits, cutoff) == NewerThan(listed, at, cutoff);
    }
  }

  /** The policy reconcile's side, and which records ever existed. */
  ghost predicate SparedByOthers(w: World, w': World) {
    && w'.ppc == w.ppc && w.now <= w'.now && w'.window == w.window && w'.cache == w.cache
    && w'.ledger.Keys == w.ledger.Keys
  }

  lemma OthersSparePolicySide(cfg: Config, w: World, e: Event)
    requires Safe(cfg, w) && !OfPolicyReconcile(e)
    ensures SparedByOthers(w, Next(cfg, w, e))
  {
    if ByAuditReconciler(e) || e.ClientUpdate? {
      AuditSideSpares(cfg, w, e);
    }
  }

  /** The reconcile of this record stands where it stood; time may have passed. */
  ghost predicate SameFlight(w: World, w': World, id: Id) {
    && w.now <= w'.now
    && (id in w.apcs <==> id in w'.apcs) && (id in w.apcs ==> w'.apcs[id] == w.apcs[id])
    && (id in w.ledger ==> id in w'.ledger)
  }

  lemma OthersSpareFlight(cfg: Config, w: World, e: Event, id: Id)
    requires Safe(cfg, w) && !OfAuditReconcile(e, id)
    ensures SameFlight(w, Next(cfg, w, e), id)
  {
    if Subject(w, e) != Some(id) {
      OthersUntouched(cfg, w, e, id);
    } else {
      SubjectKeepsFlight(cfg, w, e, id);
    }
  }

  lemma SubjectKeepsFlight(cfg: Config, w: World, e: Event, id: Id)
    requires e.ClientUpdate? || e.PolicyCreate? || e.PolicyMark?
    ensures SameFlight(w, Next(cfg, w, e), id)
  {
  }
}
