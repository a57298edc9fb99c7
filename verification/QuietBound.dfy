/**
 How long a policy stays quiet after a gate: the exact bounds.
 */
module QuietBound {
  import opened Common
  import opened RateLimiter
  import opened Protocol
  import opened OneGate
  import opened ResolvedGate
  import opened TailQuiet
  import opened Scenarios

  /** A trigger directly after the start of a cooldown. */
  predicate Follows(marks: seq<Mark>, i: nat) {
    i + 1 < |marks| && marks[i].CooldownStarted? && marks[i + 1].Triggered?
  }

  ghost predicate QuietAt(cfg: Config, w: World, es: seq<Event>, i: nat, gap: int) {
    Follows(Run(cfg, w, es).marks, i) ==> Run(cfg, w, es).marks[i + 1].t >= Run(cfg, w, es).marks[i].d + gap
  }

  ghost predicate Prompt(cfg: Config, w: World, es: seq<Event>, lag: nat) {
    Init(w) && Throughout(cfg, w, es, PromptChecks(lag))
  }

  /** Over every calm run whose reconciles look at an open gate within `lag`, the first trigger after
      startCooldown(d) comes `gap` after d or later. */
  ghost predicate CalmRunsKeep(cfg: Config, lag: nat, gap: int) {
    forall w: World, es: seq<Event>, i: nat :: Prompt(cfg, w, es, lag) && CalmRun(cfg, w, es) ==> QuietAt(cfg, w, es, i, gap)
  }

  /** The same over every orderly run. */
  ghost predicate OrderlyRunsKeep(cfg: Config, lag: nat, gap: int) {
    forall w: World, es: seq<Event>, i: nat :: Prompt(cfg, w, es, lag) && OrderlyRun(cfg, w, es) ==> QuietAt(cfg, w, es, i, gap)
  }

  // ---------------------------------------------------------------------------------------
  // A reconcile that looks at the gate late
  // ---------------------------------------------------------------------------------------

  /** It looks in the tail of the gate's resolution, at d. */
  ghost predicate LookingInTail(w: World, d: int, lag: nat) {
    Looking(w, d - lag) && w.now == d && w.ppc.snap == w.policy && w.apcs == map[0 := AReadPolicy(d)]
  }

  lemma LookLateOpensNothing(cfg: Config, w: World, t: int, h: Half)
    requires Looking(w, t) && Gated(cfg)
    ensures Throughout(cfg, w, LookLate(h), TriggersOutsideTails)
  {
    RoomWhileLooking(cfg, w, t, w.ppc.snap, t);
    FindsGateClosed(cfg, w, t);
    var snap := w.ppc.snap.(pendingGateRef := None);
    var w1 := w.(ppc := PEvaluate(snap, t));
    OpenWindow(cfg, w1, snap, t, h);
    ThroughoutOne(cfg, w, PolicyCheckGate(true), TriggersOutsideTails);
    ThroughoutOne(cfg, w1, Crossed(h), TriggersOutsideTails);
    ThroughoutOne(cfg, Next(cfg, w1, Crossed(h)), PolicyFinish(true), TriggersOutsideTails);
    RunLast(cfg, w, PolicyCheckGate(true));
    RunLast(cfg, w1, Crossed(h));
    ThroughoutConcat(cfg, w1, [Crossed(h)], [PolicyFinish(true)], TriggersOutsideTails);
    ThroughoutConcat(cfg, w, [PolicyCheckGate(true)], [Crossed(h)] + [PolicyFinish(true)], TriggersOutsideTails);
    assert LookLate(h) == [PolicyCheckGate(true)] + ([Crossed(h)] + [PolicyFinish(true)]);
  }

  lemma LookLateIsPrompt(cfg: Config, w: World, h: Half, rest: seq<Event>, lag: nat)
    requires w.ppc.PCheckGate? && w.now - w.ppc.t <= lag
    requires AllUnruled(PromptChecks(lag), rest)
    ensures Throughout(cfg, w, LookLate(h) + rest, PromptChecks(lag))
  {
    var rule := PromptChecks(lag);
    var after := [Crossed(h), PolicyFinish(true)] + rest;
    ThroughoutOne(cfg, w, PolicyCheckGate(true), rule);
    UnruledConcat(rule, [Crossed(h), PolicyFinish(true)], rest);
    UnruledThroughout(cfg, Run(cfg, w, [PolicyCheckGate(true)]), after, rule);
    ThroughoutConcat(cfg, w, [PolicyCheckGate(true)], after, rule);
    assert LookLate(h) + rest == [PolicyCheckGate(true)] + after;
  }

  /** A reconcile takes its time at t; the gate is refused `lag` later. */
  function RefuseMeanwhile(t: int, lag: nat): seq<Event> {
    [PolicyRead] + Refuse(0, t, lag)
  }

  lemma {:induction false} RefusesMeanwhile(cfg: Config, w: World, lag: nat)
    requires FirstDenied(cfg, w)
    ensures var w' := Run(cfg, w, RefuseMeanwhile(w.now, lag));
            LookingInTail(w', w.now + lag, lag) && w'.marks == w.marks
  {
    var w1 := Next(cfg, w, PolicyRead);
    assert w1 == w.(ppc := PCheckGate(w.policy, w.now));
    Refuses(cfg, w1, 0, cfg.duration, lag);
    RunFirst(cfg, w, PolicyRead, Refuse(0, w.now, lag));
  }

  lemma RefuseMeanwhileUnruled(rule: Rule, t: int, lag: nat)
    ensures AllUnruled(rule, RefuseMeanwhile(t, lag))
  {
    RefusalUnruled(rule, 0, t, lag);
    UnruledConcat(rule, [PolicyRead], Refuse(0, t, lag));
  }

  // ---------------------------------------------------------------------------------------
  // A calm run that reaches its bound
  // ---------------------------------------------------------------------------------------

  /** How long after d the next trigger comes at the earliest in a calm run. */
  function CalmBound(cfg: Config, lag: nat): int {
    Max(cfg.cooldown, cfg.duration - lag)
  }

  /** The cooldown starts before the reconcile looks at the gate. */
  function CoolMeanwhile(t: int, lag: nat): seq<Event> {
    RefuseMeanwhile(t, lag) + CoolDown(0)
  }

  lemma {:induction false} CoolsMeanwhile(cfg: Config, w: World, lag: nat)
    requires FirstDenied(cfg, w)
    ensures var w', d := Run(cfg, w, CoolMeanwhile(w.now, lag)), w.now + lag;
            && Looking(w', w.now) && w'.now == d && w'.apcs == map[] && w'.ppc.snap.version != w'.policy.version
            && w'.policy.pendingGateRef == None && w'.policy.lastTriggeredAt == Some(d) && w'.marks == w.marks + [CooldownStarted(d)]
  {
    RefusesMeanwhile(cfg, w, lag);
    var w1 := Run(cfg, w, RefuseMeanwhile(w.now, lag));
    CoolsDown(cfg, w1, 0, w.now + lag);
    assert Run(cfg, w, CoolMeanwhile(w.now, lag)) == Run(cfg, w1, CoolDown(0)) by {
      Joined(cfg, w, RefuseMeanwhile(w.now, lag), w1, CoolDown(0), Run(cfg, w1, CoolDown(0)));
    }
  }

  function FireEarly(cfg: Config, lag: nat, h: Half): seq<Event>
    requires 0 <= cfg.cooldown
  {
    LookLate(h) + FireAfter(CalmBound(cfg, lag), h)
  }

  lemma {:induction false} FiresOnceLooked(cfg: Config, w: World, d: int, lag: nat, h: Half)
    requires Looking(w, d - lag) && w.now == d && w.policy.pendingGateRef == None && w.policy.lastTriggeredAt == Some(d)
    requires w.ppc.snap.version != w.policy.version && Gated(cfg) && Plausible(cfg, h)
    ensures Run(cfg, Looked(cfg, w, d - lag), FireAfter(CalmBound(cfg, lag), h)).marks == w.marks + [Triggered(d + CalmBound(cfg, lag))]
  {
    RoomWhileLooking(cfg, w, d - lag, w.policy, d + CalmBound(cfg, lag));
    MarksLater(cfg, Looked(cfg, w, d - lag), CalmBound(cfg, lag), h);
  }

  lemma {:induction false} FiresEarly(cfg: Config, w: World, d: int, lag: nat, h: Half)
    requires Looking(w, d - lag) && w.now == d && w.policy.pendingGateRef == None && w.policy.lastTriggeredAt == Some(d)
    requires w.ppc.snap.version != w.policy.version && Gated(cfg) && Plausible(cfg, h)
    ensures Run(cfg, w, FireEarly(cfg, lag, h)).marks == w.marks + [Triggered(d + CalmBound(cfg, lag))]
  {
    LooksLate(cfg, w, d - lag, h);
    FiresOnceLooked(cfg, w, d, lag, h);
    var w1 := Looked(cfg, w, d - lag);
    Joined(cfg, w, LookLate(h), w1, FireAfter(CalmBound(cfg, lag), h), Run(cfg, w1, FireAfter(CalmBound(cfg, lag), h)));
  }

  function LookAfterCooldown(cfg: Config, t: int, lag: nat, h: Half): seq<Event>
    requires 0 <= cfg.cooldown
  {
    CoolMeanwhile(t, lag) + FireEarly(cfg, lag, h)
  }

  lemma {:induction false} LooksAfterCooldown(cfg: Config, w: World, lag: nat, h: Half)
    requires Gated(cfg) && FirstDenied(cfg, w) && Plausible(cfg, h)
    ensures var d := w.now + lag;
            Run(cfg, w, LookAfterCooldown(cfg, w.now, lag, h)).marks == w.marks + [CooldownStarted(d)] + [Triggered(d + CalmBound(cfg, lag))]
  {
    CoolsMeanwhile(cfg, w, lag);
    var w1 := Run(cfg, w, CoolMeanwhile(w.now, lag));
    FiresEarly(cfg, w1, w.now + lag, lag, h);
    Joined(cfg, w, CoolMeanwhile(w.now, lag), w1, FireEarly(cfg, lag, h), Run(cfg, w1, FireEarly(cfg, lag, h)));
  }

  lemma FireEarlyKeeps(cfg: Config, w: World, lag: nat, h: Half, rule: Rule)
    requires w.ppc.PCheckGate? && w.now - w.ppc.t <= lag && w.apcs == map[] && 0 <= cfg.cooldown
    requires rule == ReferencesLand || rule == EvaluationsOutsideTails || rule == PromptChecks(lag)
    ensures Throughout(cfg, w, FireEarly(cfg, lag, h), rule)
  {
    match rule
    case ReferencesLand => NothingToRefer(cfg, w, FireEarly(cfg, lag, h));
    case EvaluationsOutsideTails => NoTails(cfg, w, FireEarly(cfg, lag, h), rule);
    case PromptChecks(_) => LookLateIsPrompt(cfg, w, h, FireAfter(CalmBound(cfg, lag), h), lag);
  }

  lemma LookAfterCooldownKeeps(cfg: Config, w: World, lag: nat, h: Half, rule: Rule)
    requires Gated(cfg) && FirstDenied(cfg, w)
    requires rule == ReferencesLand || rule == EvaluationsOutsideTails || rule == PromptChecks(lag)
    ensures Throughout(cfg, w, LookAfterCooldown(cfg, w.now, lag, h), rule)
  {
    CoolsMeanwhile(cfg, w, lag);
    RefuseMeanwhileUnruled(rule, w.now, lag);
    RefusalUnruled(rule, 0, w.now, lag);
    UnruledConcat(rule, RefuseMeanwhile(w.now, lag), CoolDown(0));
    UnruledThroughout(cfg, w, CoolMeanwhile(w.now, lag), rule);
    FireEarlyKeeps(cfg, Run(cfg, w, CoolMeanwhile(w.now, lag)), lag, h, rule);
    ThroughoutConcat(cfg, w, CoolMeanwhile(w.now, lag), FireEarly(cfg, lag, h), rule);
  }

  lemma CalmRunKeeps(cfg: Config, lag: nat, first: Half, h: Half, rule: Rule)
    requires Gated(cfg) && Plausible(cfg, first)
    requires rule == ReferencesLand || rule == EvaluationsOutsideTails || rule == PromptChecks(lag)
    ensures Throughout(cfg, Start(), DenyFirst(cfg, first) + LookAfterCooldown(cfg, cfg.duration + HOUR, lag, h), rule)
  {
    DeniesFirst(cfg, first);
    DenyFirstKeeps(cfg, first, rule);
    LookAfterCooldownKeeps(cfg, Run(cfg, Start(), DenyFirst(cfg, first)), lag, h, rule);
    ThroughoutConcat(cfg, Start(), DenyFirst(cfg, first), LookAfterCooldown(cfg, cfg.duration + HOUR, lag, h), rule);
  }

  /** For every gated policy that can trigger, whatever its evaluations yield: a calm run, prompt within
      lag, whose trigger after startCooldown(d) comes exactly `CalmBound` after d. */
  lemma {:induction false} CalmBoundIsReached(cfg: Config, lag: nat, first: Half, h: Half) returns (es: seq<Event>)
    requires Gated(cfg) && Plausible(cfg, first) && Plausible(cfg, h)
    ensures Prompt(cfg, Start(), es, lag) && CalmRun(cfg, Start(), es)
    ensures var d := cfg.duration + HOUR + lag;
            Run(cfg, Start(), es).marks == [Triggered(cfg.duration), CooldownStarted(d), Triggered(d + CalmBound(cfg, lag))]
  {
    es := DenyFirst(cfg, first) + LookAfterCooldown(cfg, cfg.duration + HOUR, lag, h);
    DeniesFirst(cfg, first);
    var w := Run(cfg, Start(), DenyFirst(cfg, first));
    LooksAfterCooldown(cfg, w, lag, h);
    RunConcat(cfg, Start(), DenyFirst(cfg, first), LookAfterCooldown(cfg, cfg.duration + HOUR, lag, h));
    CalmRunKeeps(cfg, lag, first, h, ReferencesLand);
    CalmRunKeeps(cfg, lag, first, h, EvaluationsOutsideTails);
    CalmRunKeeps(cfg, lag, first, h, PromptChecks(lag));
  }

  // ---------------------------------------------------------------------------------------
  // An orderly run that reaches its bound
  // ---------------------------------------------------------------------------------------

  /** How long after d the next trigger comes at the earliest in an orderly run. */
  function OrderlyBound(cfg: Config, lag: nat): int {
    Max(0, cfg.duration - lag)
  }

  /** What the late reconcile leaves in the tail. */
  ghost predicate Rested(w: World, d: int) {
    w.now == d && w.ppc == PIdle && w.policy.pendingGateRef == None && w.apcs == map[0 := AReadPolicy(d)]
  }

  lemma LookedRests(cfg: Config, w: World, d: int, lag: nat)
    requires LookingInTail(w, d, lag)
    ensures Rested(Looked(cfg, w, d - lag), d)
  {
  }

  /** The next reconcile reads the policy before startCooldown and evaluates after it. */
  function ReadThenCool(cfg: Config, lag: nat): seq<Event> {
    [Tick(OrderlyBound(cfg, lag)), PolicyRead] + CoolDown(0)
  }

  /** The state in which that reconcile evaluates. */
  function Unaware(cfg: Config, w: World, d: int, lag: nat): World {
    var t := d + OrderlyBound(cfg, lag);
    w.(now := t, ppc := PEvaluate(w.policy, t), apcs := map[], policy := Policy(w.policy.version + 1, Some(d), None),
       marks := w.marks + [CooldownStarted(d)])
  }

  lemma {:induction false} ReadsThenCools(cfg: Config, w: World, d: int, lag: nat)
    requires Rested(w, d)
    ensures Run(cfg, w, ReadThenCool(cfg, lag)) == Unaware(cfg, w, d, lag)
  {
    var t := d + OrderlyBound(cfg, lag);
    var w1 := w.(now := t);
    var w2 := w1.(ppc := PEvaluate(w.policy, t));
    assert Next(cfg, w, Tick(OrderlyBound(cfg, lag))) == w1;
    ReadAt(cfg, w1);
    var read := [Tick(OrderlyBound(cfg, lag)), PolicyRead];
    assert read == [Tick(OrderlyBound(cfg, lag))] + [PolicyRead];
    RunFirst(cfg, w, Tick(OrderlyBound(cfg, lag)), [PolicyRead]);
    RunLast(cfg, w1, PolicyRead);
    CoolsDown(cfg, w2, 0, d);
    Joined(cfg, w, read, w2, CoolDown(0), Unaware(cfg, w, d, lag));
  }

  /** At rest in the tail, with a window that lets the policy trigger `OrderlyBound` later. */
  ghost predicate Armed(cfg: Config, w: World, d: int, lag: nat) {
    && Rested(w, d) && w.window == Some(d - lag) && w.policy.lastTriggeredAt == None
    && Ready(cfg, w, w.policy, d + OrderlyBound(cfg, lag))
  }

  lemma {:induction false} LooksAndArms(cfg: Config, w: World, d: int, lag: nat, h: Half)
    requires LookingInTail(w, d, lag) && Gated(cfg)
    ensures Armed(cfg, Run(cfg, w, LookLate(h)), d, lag) && Run(cfg, w, LookLate(h)).marks == w.marks
  {
    LooksLate(cfg, w, d - lag, h);
    LookedRests(cfg, w, d, lag);
    RoomWhileLooking(cfg, w, d - lag, Looked(cfg, w, d - lag).policy, d + OrderlyBound(cfg, lag));
  }

  lemma UnawareFires(cfg: Config, w: World, d: int, lag: nat, h: Half)
    requires Armed(cfg, w, d, lag) && Plausible(cfg, h)
    ensures Next(cfg, Unaware(cfg, w, d, lag), Crossed(h)).marks ==
            w.marks + [CooldownStarted(d)] + [Triggered(d + OrderlyBound(cfg, lag))]
  {
    var x, t := Unaware(cfg, w, d, lag), d + OrderlyBound(cfg, lag);
    assert Ready(cfg, x, w.policy, t);
    Fire(cfg, x, w.policy, t, h);
  }

  function CoolThenFire(cfg: Config, lag: nat, h: Half): seq<Event> {
    ReadThenCool(cfg, lag) + [Crossed(h)]
  }

  function LookThenFire(cfg: Config, lag: nat, h: Half): seq<Event> {
    LookLate(h) + CoolThenFire(cfg, lag, h)
  }

  /** From the denial: refused, looked at in the tail, read, cooled, fired. */
  function LookInTail(cfg: Config, t: int, lag: nat, h: Half): seq<Event> {
    RefuseMeanwhile(t, lag) + LookThenFire(cfg, lag, h)
  }

  lemma {:induction false} CoolsThenFires(cfg: Config, w: World, d: int, lag: nat, h: Half)
    requires Armed(cfg, w, d, lag) && Plausible(cfg, h)
    ensures Run(cfg, w, CoolThenFire(cfg, lag, h)).marks == w.marks + [CooldownStarted(d)] + [Triggered(d + OrderlyBound(cfg, lag))]
  {
    var x := Unaware(cfg, w, d, lag);
    ReadsThenCools(cfg, w, d, lag);
    UnawareFires(cfg, w, d, lag, h);
    RunLast(cfg, x, Crossed(h));
    RunConcat(cfg, w, ReadThenCool(cfg, lag), [Crossed(h)]);
  }

  lemma {:induction false} LooksThenFires(cfg: Config, w: World, d: int, lag: nat, h: Half)
    requires LookingInTail(w, d, lag) && Gated(cfg) && Plausible(cfg, h)
    ensures Run(cfg, w, LookThenFire(cfg, lag, h)).marks == w.marks + [CooldownStarted(d)] + [Triggered(d + OrderlyBound(cfg, lag))]
  {
    LooksAndArms(cfg, w, d, lag, h);
    CoolsThenFires(cfg, Run(cfg, w, LookLate(h)), d, lag, h);
    RunConcat(cfg, w, LookLate(h), CoolThenFire(cfg, lag, h));
  }

  lemma {:induction false} LooksFromTail(cfg: Config, w: World, a: seq<Event>, x: World, d: int, lag: nat, h: Half)
    requires Run(cfg, w, a) == x && LookingInTail(x, d, lag) && Gated(cfg) && Plausible(cfg, h)
    ensures Run(cfg, w, a + LookThenFire(cfg, lag, h)).marks == x.marks + [CooldownStarted(d)] + [Triggered(d + OrderlyBound(cfg, lag))]
  {
    LooksThenFires(cfg, x, d, lag, h);
    RunConcat(cfg, w, a, LookThenFire(cfg, lag, h));
  }

  lemma {:induction false} LooksInTail(cfg: Config, w: World, lag: nat, h: Half)
    requires Gated(cfg) && FirstDenied(cfg, w) && Plausible(cfg, h)
    ensures var d := w.now + lag;
            Run(cfg, w, LookInTail(cfg, w.now, lag, h)).marks == w.marks + [CooldownStarted(d)] + [Triggered(d + OrderlyBound(cfg, lag))]
  {
    var refuse := RefuseMeanwhile(w.now, lag);
    var d := w.now + lag;
    assert Run(cfg, w, refuse + LookThenFire(cfg, lag, h)).marks == w.marks + [CooldownStarted(d)] + [Triggered(d + OrderlyBound(cfg, lag))] by {
      RefusesMeanwhile(cfg, w, lag);
      LooksFromTail(cfg, w, refuse, Run(cfg, w, refuse), d, lag, h);
    }
  }

  lemma ReadThenCoolUnruled(cfg: Config, rule: Rule, lag: nat)
    ensures AllUnruled(rule, ReadThenCool(cfg, lag))
  {
    RefusalUnruled(rule, 0, 0, 0);
    UnruledConcat(rule, [Tick(OrderlyBound(cfg, lag)), PolicyRead], CoolDown(0));
  }

  lemma UnawareKeeps(cfg: Config, w: World, d: int, lag: nat, h: Half, rule: Rule)
    requires Rested(w, d)
    requires rule == ReferencesLand || rule == TriggersOutsideTails
    ensures Throughout(cfg, w, CoolThenFire(cfg, lag, h), rule)
  {
    ReadThenCoolUnruled(cfg, rule, lag);
    UnruledThroughout(cfg, w, ReadThenCool(cfg, lag), rule);
    ReadsThenCools(cfg, w, d, lag);
    ThroughoutOne(cfg, Unaware(cfg, w, d, lag), Crossed(h), rule);
    ThroughoutConcat(cfg, w, ReadThenCool(cfg, lag), [Crossed(h)], rule);
  }

  lemma LooksThenFiresPromptly(cfg: Config, w: World, lag: nat, h: Half)
    requires w.ppc.PCheckGate? && w.now - w.ppc.t <= lag
    ensures Throughout(cfg, w, LookThenFire(cfg, lag, h), PromptChecks(lag))
  {
    ReadThenCoolUnruled(cfg, PromptChecks(lag), lag);
    UnruledConcat(PromptChecks(lag), ReadThenCool(cfg, lag), [Crossed(h)]);
    LookLateIsPrompt(cfg, w, h, CoolThenFire(cfg, lag, h), lag);
  }

  lemma LookLateKeeps(cfg: Config, w: World, t: int, h: Half, rule: Rule)
    requires Looking(w, t) && Gated(cfg) && (rule == ReferencesLand || rule == TriggersOutsideTails)
    ensures Throughout(cfg, w, LookLate(h), rule)
  {
    if rule == ReferencesLand {
      NothingToRefer(cfg, w, LookLate(h));
    } else {
      LookLateOpensNothing(cfg, w, t, h);
    }
  }

  lemma RestedThenFiresKeeps(cfg: Config, w: World, x: World, d: int, lag: nat, h: Half, rule: Rule)
    requires Run(cfg, w, LookLate(h)) == x && Rested(x, d) && Throughout(cfg, w, LookLate(h), rule)
    requires rule == ReferencesLand || rule == TriggersOutsideTails
    ensures Throughout(cfg, w, LookThenFire(cfg, lag, h), rule)
  {
    UnawareKeeps(cfg, x, d, lag, h, rule);
    ThroughoutConcat(cfg, w, LookLate(h), CoolThenFire(cfg, lag, h), rule);
  }

  lemma LooksThenFiresKeeps(cfg: Config, w: World, d: int, lag: nat, h: Half, rule: Rule)
    requires LookingInTail(w, d, lag) && Gated(cfg)
    requires rule == ReferencesLand || rule == TriggersOutsideTails
    ensures Throughout(cfg, w, LookThenFire(cfg, lag, h), rule)
  {
    LooksLate(cfg, w, d - lag, h);
    LookedRests(cfg, w, d, lag);
    LookLateKeeps(cfg, w, d - lag, h, rule);
    RestedThenFiresKeeps(cfg, w, Looked(cfg, w, d - lag), d, lag, h, rule);
  }

  lemma LookInTailKeeps(cfg: Config, w: World, lag: nat, h: Half, rule: Rule)
    requires Gated(cfg) && FirstDenied(cfg, w)
    requires rule == ReferencesLand || rule == TriggersOutsideTails || rule == PromptChecks(lag)
    ensures Throughout(cfg, w, LookInTail(cfg, w.now, lag, h), rule)
  {
    RefusesMeanwhile(cfg, w, lag);
    RefuseMeanwhileUnruled(rule, w.now, lag);
    UnruledThroughout(cfg, w, RefuseMeanwhile(w.now, lag), rule);
    var w1 := Run(cfg, w, RefuseMeanwhile(w.now, lag));
    if rule == PromptChecks(lag) {
      LooksThenFiresPromptly(cfg, w1, lag, h);
    } else {
      LooksThenFiresKeeps(cfg, w1, w.now + lag, lag, h, rule);
    }
    ThroughoutConcat(cfg, w, RefuseMeanwhile(w.now, lag), LookThenFire(cfg, lag, h), rule);
  }

  lemma OrderlyRunKeeps(cfg: Config, lag: nat, first: Half, h: Half, rule: Rule)
    requires Gated(cfg) && Plausible(cfg, first)
    requires rule == ReferencesLand || rule == TriggersOutsideTails || rule == PromptChecks(lag)
    ensures Throughout(cfg, Start(), DenyFirst(cfg, first) + LookInTail(cfg, cfg.duration + HOUR, lag, h), rule)
  {
    DeniesFirst(cfg, first);
    DenyFirstKeeps(cfg, first, rule);
    LookInTailKeeps(cfg, Run(cfg, Start(), DenyFirst(cfg, first)), lag, h, rule);
    ThroughoutConcat(cfg, Start(), DenyFirst(cfg, first), LookInTail(cfg, cfg.duration + HOUR, lag, h), rule);
  }

  /** For every such policy an orderly run, prompt within lag, in which an evaluation in the tail opens the
      window and a reconcile that does not know of the cooldown triggers `OrderlyBound` after d. */
  lemma {:induction false} OrderlyBoundIsReached(cfg: Config, lag: nat, first: Half, h: Half) returns (es: seq<Event>)
    requires Gated(cfg) && Plausible(cfg, first) && Plausible(cfg, h)
    ensures Prompt(cfg, Start(), es, lag) && OrderlyRun(cfg, Start(), es)
    ensures var d := cfg.duration + HOUR + lag;
            Run(cfg, Start(), es).marks == [Triggered(cfg.duration), CooldownStarted(d), Triggered(d + OrderlyBound(cfg, lag))]
  {
    es := DenyFirst(cfg, first) + LookInTail(cfg, cfg.duration + HOUR, lag, h);
    DeniesFirst(cfg, first);
    var w := Run(cfg, Start(), DenyFirst(cfg, first));
    LooksInTail(cfg, w, lag, h);
    RunConcat(cfg, Start(), DenyFirst(cfg, first), LookInTail(cfg, cfg.duration + HOUR, lag, h));
    OrderlyRunKeeps(cfg, lag, first, h, ReferencesLand);
    OrderlyRunKeeps(cfg, lag, first, h, TriggersOutsideTails);
    OrderlyRunKeeps(cfg, lag, first, h, PromptChecks(lag));
  }

  // ---------------------------------------------------------------------------------------
  // The exact bounds
  // ---------------------------------------------------------------------------------------

  /** Calm runs keep quiet for max(cooldown, duration - lag), and for nothing more. */
  lemma QuietPeriodExactly(cfg: Config, lag: nat, gap: int)
    requires Gated(cfg) && 0 <= cfg.maxResources
    ensures CalmRunsKeep(cfg, lag, gap) <==> gap <= Max(cfg.cooldown, cfg.duration - lag)
  {
    if gap <= CalmBound(cfg, lag) {
      forall w: World, es: seq<Event>, i: nat | Prompt(cfg, w, es, lag) && CalmRun(cfg, w, es)
        ensures QuietAt(cfg, w, es, i, gap)
      {
        if Follows(Run(cfg, w, es).marks, i) {
          GatedCooldown(cfg, w, es, lag, i);
        }
      }
    }
    if CalmRunsKeep(cfg, lag, gap) {
      var es := CalmBoundIsReached(cfg, lag, NOTHING_MATCHED, NOTHING_MATCHED);
      assert QuietAt(cfg, Start(), es, 1, gap);
    }
  }

  /** Orderly runs keep quiet for duration - lag, and for nothing more. */
  lemma OrderlyQuietPeriodExactly(cfg: Config, lag: nat, gap: int)
    requires Gated(cfg) && 0 <= cfg.maxResources
    ensures OrderlyRunsKeep(cfg, lag, gap) <==> gap <= Max(0, cfg.duration - lag)
  {
    if gap <= OrderlyBound(cfg, lag) {
      forall w: World, es: seq<Event>, i: nat | Prompt(cfg, w, es, lag) && OrderlyRun(cfg, w, es)
        ensures QuietAt(cfg, w, es, i, gap)
      {
        if Follows(Run(cfg, w, es).marks, i) {
          TailDelay(cfg, w, es, lag, i);
        }
      }
    }
    if OrderlyRunsKeep(cfg, lag, gap) {
      var es := OrderlyBoundIsReached(cfg, lag, NOTHING_MATCHED, NOTHING_MATCHED);
      assert QuietAt(cfg, Start(), es, 1, gap);
    }
  }

  /** So calm runs keep the full max(cooldown, duration) if and only if every reconcile looks at the gate
      the moment it takes its time, or the cooldown is the longer of the two. */
  lemma FullQuietPeriodExactly(cfg: Config, lag: nat)
    requires Gated(cfg) && 0 <= cfg.maxResources
    ensures CalmRunsKeep(cfg, lag, Max(cfg.cooldown, cfg.duration)) <==> lag == 0 || cfg.duration <= cfg.cooldown
  {
    QuietPeriodExactly(cfg, lag, Max(cfg.cooldown, cfg.duration));
  }

  /** And the rule against evaluations in a tail makes a difference if and only if there is a cooldown
      longer than what the window leaves of the duration. */
  lemma CalmMattersExactly(cfg: Config, lag: nat)
    requires Gated(cfg) && 0 <= cfg.maxResources
    ensures OrderlyRunsKeep(cfg, lag, Max(cfg.cooldown, cfg.duration - lag)) <==> cfg.cooldown <= Max(0, cfg.duration - lag)
  {
    OrderlyQuietPeriodExactly(cfg, lag, Max(cfg.cooldown, cfg.duration - lag));
  }
}
