/**
 Restoring a log twice: mesh.shift overwrites, so a revert after a rollback does no harm.
 */
module MeshReplay {
  import opened Executor
  import opened UndoLaw
  import opened ReplayLaw
  import opened RevertLaw
  import opened MeshShift
  import opened MeshRoundTrip
  import opened MeshPlugin

  // ---------------------------------------------------------------------------------------
  // One entry
  // ---------------------------------------------------------------------------------------

  predicate Touches(changes: seq<Change>, i: int, j: int) {
    exists k :: 0 <= k < |changes| && changes[k].rule == i && changes[k].ref == j
  }

  /** The same entry, apart from its weight. */
  predicate SameButWeight(a: Ref, b: Ref) {
    if a.Ref? then b.Ref? && a == b.(weight := a.weight) else a == b
  }

  lemma {:induction false} OnlyWeightRestored(ref: Ref, changes: seq<Change>, i: int, j: int)
    ensures SameButWeight(ref, RestoredRef(ref, changes, i, j))
    ensures !Touches(changes, i, j) ==> RestoredRef(ref, changes, i, j) == ref
  {
    if changes != [] {
      var n := |changes| - 1;
      OnlyWeightRestored(ref, changes[..n], i, j);
      if Touches(changes[..n], i, j) {
        var k :| 0 <= k < n && changes[..n][k].rule == i && changes[..n][k].ref == j;
        assert changes[k] == changes[..n][k];
      }
    }
  }

  /** Where a log speaks, what the weight was before does not matter. */
  lemma {:induction false} WeightOverwritten(a: Ref, b: Ref, changes: seq<Change>, i: int, j: int)
    requires SameButWeight(a, b) && Touches(changes, i, j)
    ensures RestoredRef(a, changes, i, j) == RestoredRef(b, changes, i, j)
  {
    var n := |changes| - 1;
    if changes[n].rule == i && changes[n].ref == j {
      OnlyWeightRestored(a, changes[..n], i, j);
      OnlyWeightRestored(b, changes[..n], i, j);
    } else {
      var k :| 0 <= k < |changes| && changes[k].rule == i && changes[k].ref == j;
      assert changes[..n][k] == changes[k];
      WeightOverwritten(a, b, changes[..n], i, j);
    }
  }

  lemma {:induction false} EntryStaysEqual(a: Ref, b: Ref, changes: seq<Change>, other: seq<Change>, i: int, j: int)
    requires RestoredRef(a, changes, i, j) == RestoredRef(b, changes, i, j)
    ensures RestoredRef(RestoredRef(a, other, i, j), changes, i, j) == RestoredRef(RestoredRef(b, other, i, j), changes, i, j)
  {
    OnlyWeightRestored(a, changes, i, j);
    OnlyWeightRestored(b, changes, i, j);
    if Touches(changes, i, j) {
      OnlyWeightRestored(a, other, i, j);
      OnlyWeightRestored(b, other, i, j);
      WeightOverwritten(RestoredRef(a, other, i, j), RestoredRef(b, other, i, j), changes, i, j);
    }
  }

  // ---------------------------------------------------------------------------------------
  // One route
  // ---------------------------------------------------------------------------------------

  lemma SameShapeJoins(a: seq<Rule>, b: seq<Rule>, c: seq<Rule>)
    requires SameShape(a, b) && SameShape(b, c)
    ensures SameShape(a, c) && SameShape(b, a)
  {
    forall i | 0 <= i < |a|
      ensures SameRule(a[i], c[i]) && SameRule(b[i], a[i])
    {
      assert SameRule(a[i], b[i]) && SameRule(b[i], c[i]);
    }
  }

  lemma {:induction false} RestoreTwiceAt(rules: seq<Rule>, other: seq<Change>, changes: seq<Change>)
    ensures SameShape(rules, Restore(Restore(rules, other), changes))
    ensures forall i, j :: At(rules, i, j) ==>
              RefAt(Restore(Restore(rules, other), changes), i, j) == RestoredRef(RestoredRef(RefAt(rules, i, j), other, i, j), changes, i, j)
  {
    var once := Restore(rules, other);
    RestoreAt(rules, other);
    RestoreAt(once, changes);
    SameShapeJoins(rules, once, Restore(once, changes));
    forall i, j | At(rules, i, j)
      ensures RefAt(Restore(once, changes), i, j) == RestoredRef(RestoredRef(RefAt(rules, i, j), other, i, j), changes, i, j)
    {
      assert SameRule(rules[i], once[i]) && At(once, i, j);
    }
  }

  /** Two routes that a log makes equal are made equal by it after any other log, too. */
  lemma {:induction false} RouteStaysEqual(a: seq<Rule>, b: seq<Rule>, changes: seq<Change>, other: seq<Change>)
    requires Restore(a, changes) == Restore(b, changes)
    ensures Restore(Restore(a, other), changes) == Restore(Restore(b, other), changes)
  {
    RestoreAt(a, changes);
    RestoreAt(b, changes);
    var same := Restore(a, changes);
    SameShapeJoins(b, same, same);
    SameShapeJoins(a, same, b);
    RestoreTwiceAt(a, other, changes);
    RestoreTwiceAt(b, other, changes);
    var a2, b2 := Restore(Restore(a, other), changes), Restore(Restore(b, other), changes);
    SameShapeJoins(a, a2, a2);
    SameShapeJoins(a2, a, b);
    SameShapeJoins(a2, b, b2);
    forall i, j | At(a2, i, j)
      ensures RefAt(a2, i, j) == RefAt(b2, i, j)
    {
      assert SameRule(a2[i], a[i]) && SameRule(a[i], b[i]);
      assert At(a, i, j) && At(b, i, j);
      EntryStaysEqual(RefAt(a, i, j), RefAt(b, i, j), changes, other, i, j);
    }
    EqualEverywhere(a2, b2);
  }

  /** Restoring a route's own log on the route as it was changes nothing. */
  lemma {:induction false} OwnLogRestoresNothing(rules: seq<Rule>, backend: string, weight: int)
    requires Clean(rules)
    ensures Restore(rules, Log(rules, backend, weight)) == rules
  {
    var log := Log(rules, backend, weight);
    RestoreAt(rules, log);
    forall i, j | At(rules, i, j)
      ensures RefAt(rules, i, j) == RefAt(Restore(rules, log), i, j)
    {
      LogRestores(rules, backend, weight, |rules|, RefAt(rules, i, j), i, j);
    }
    EqualEverywhere(rules, Restore(rules, log));
  }

  // ---------------------------------------------------------------------------------------
  // The plugin
  // ---------------------------------------------------------------------------------------

  lemma UndoneShiftStays(env: Environment, s: Routes, inp: Input)
    ensures var r := Normalise(PLUGIN_NAME, inp.target, Execute(env, s, inp));
            r.status == Succeeded ==> Reverse(s, r).state == s
  {
    var p := ExecuteOutcome(env, s, inp);
    if Execute(env, s, inp).status == Succeeded {
      var key := KeyOf(p, inp.target);
      OwnLogRestoresNothing(s[key].rules, p.backend, p.weight);
      assert s[key := s[key]] == s;
    }
  }

  /** What Reverse makes of one route. */
  function ReversedRoute(s: Routes, prev: Result<ShiftLog>, key: RouteKey): Rules
    requires key in s
  {
    if prev.details.payload.None? || |prev.details.payload.value.previous| == 0 || prev.details.payload.value.routeName == "" then s[key]
    else
      var log := prev.details.payload.value;
      if key == RouteKey(if log.routeNamespace == "" then prev.target.namespace else log.routeNamespace, log.routeName) && s[key].Listed?
      then Listed(Restore(s[key].rules, log.previous))
      else s[key]
  }

  lemma ReverseAt(s: Routes, prev: Result<ShiftLog>)
    ensures Reverse(s, prev).state.Keys == s.Keys
    ensures forall key :: key in s ==> Reverse(s, prev).state[key] == ReversedRoute(s, prev, key)
  {
  }

  lemma RoutesStayEqual(r: Result<ShiftLog>, q: Result<ShiftLog>, x: Routes, y: Routes)
    requires Reverse(x, r).state == Reverse(y, r).state
    ensures Reverse(Reverse(x, q).state, r).state == Reverse(Reverse(y, q).state, r).state
  {
    ReverseAt(x, r);
    ReverseAt(y, r);
    ReverseAt(x, q);
    ReverseAt(y, q);
    var x1, y1 := Reverse(x, q).state, Reverse(y, q).state;
    ReverseAt(x1, r);
    ReverseAt(y1, r);
    var x2, y2 := Reverse(x1, r).state, Reverse(y1, r).state;
    forall key | key in x2
      ensures key in y2 && x2[key] == y2[key]
    {
      assert key in Reverse(x, r).state && Reverse(x, r).state[key] == Reverse(y, r).state[key];
      OneRouteStaysEqual(r, q, x, y, key);
    }
    assert x2 == y2;
  }

  lemma OneRouteStaysEqual(r: Result<ShiftLog>, q: Result<ShiftLog>, x: Routes, y: Routes, key: RouteKey)
    requires key in x && key in y && ReversedRoute(x, r, key) == ReversedRoute(y, r, key)
    requires key in Reverse(x, q).state && key in Reverse(y, q).state
    requires Reverse(x, q).state[key] == ReversedRoute(x, q, key) && Reverse(y, q).state[key] == ReversedRoute(y, q, key)
    ensures ReversedRoute(Reverse(x, q).state, r, key) == ReversedRoute(Reverse(y, q).state, r, key)
  {
    if x[key].Listed? && y[key].Listed? && r.details.payload.Some? && q.details.payload.Some? {
      var changes, other := r.details.payload.value.previous, q.details.payload.value.previous;
      if Restore(x[key].rules, changes) == Restore(y[key].rules, changes) {
        RouteStaysEqual(x[key].rules, y[key].rules, changes, other);
      }
    }
  }

  lemma ShiftStaysUndone(env: Environment)
    requires Unblocked(env)
    ensures UndoneStays(PLUGIN_NAME, ShiftPlugin(env))
  {
    forall s: Routes, inp: Input {
      UndoneShiftStays(env, s, inp);
    }
  }

  lemma ShiftOverwrites(env: Environment)
    requires Unblocked(env)
    ensures Overwrites(ShiftPlugin(env), ShiftPlugin(env))
  {
    var plugin := ShiftPlugin(env);
    forall r: Result<ShiftLog>, q: Result<ShiftLog>, x: Routes, y: Routes
      ensures StaysMerged(plugin, plugin, r, q, x, y)
    {
      if Reverse(x, r).state == Reverse(y, r).state {
        RoutesStayEqual(r, q, x, y);
      }
    }
  }

  lemma ShiftIgnoresMarks(env: Environment)
    requires Unblocked(env)
    ensures IgnoresMarks(ShiftPlugin(env))
  {
    forall s: Routes, a: Result<ShiftLog>, b: Result<ShiftLog> | SameExecution(a, b)
      ensures Reverse(s, a).state == Reverse(s, b).state
    {
    }
  }

  lemma MeshShiftIsReplayable(env: Environment)
    requires Unblocked(env)
    ensures Replayable(map[PLUGIN_NAME := ShiftPlugin(env)])
  {
    ShiftIgnoresMarks(env);
    ShiftStaysUndone(env);
    ShiftOverwrites(env);
  }

  /** Any trigger of mesh.shift actions, split at any gate, run over any targets and rolled back in any
      of its halves: one revert of its record, whose calls get through, brings the routes back to what
      they were before it. */
  lemma MeshTriggerReverts(env: Environment, p: Pipeline<Routes, ShiftLog>, targets: seq<Target>, g: nat, s: Routes)
    requires Unblocked(env) && p.registry == map[PLUGIN_NAME := ShiftPlugin(env)]
    requires g <= |p.actions| && forall i :: 0 <= i < |p.actions| ==> p.actions[i].plugin == PLUGIN_NAME
    ensures AfterRevert(p, targets, g, s) == s
  {
    MeshShiftIsLawful(env);
    MeshShiftIsReplayable(env);
    ReversibleTriggerReverts(p, targets, g, s);
  }
}
