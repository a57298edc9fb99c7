/**
 mesh.shift as a plugin of the executor (Execute and Reverse of plugins/mesh-shift/plugin.go). On
 routes with weights the Gateway API admits it meets the undo law.
 */
module MeshPlugin {
  import opened Common
  import opened Executor
  import opened UndoLaw
  import opened MeshShift
  import opened MeshRoundTrip

  const PLUGIN_NAME := "mesh.shift"

  datatype RouteKey = RouteKey(namespace: string, name: string)

  /** The routes of the cluster: no object has an empty name. */
  type Routes = m: map<RouteKey, Rules> | forall k :: k in m ==> k.name != "" && (m[k].Listed? ==> Clean(m[k].rules))
    witness map[]

  /** The decoded parameters; the default for an absent weight, 0, is already in place. */
  datatype Params = Params(name: string, namespace: string, backend: string, weight: int)

  /** The Details of a successful shift. */
  datatype ShiftLog = ShiftLog(routeName: string, routeNamespace: string, previous: seq<Change>)

  /** What the plugin depends on: the decoding of its parameters, whether the API server refuses the
      update of an execution, and whether it fails the read or the update of a reversal. */
  datatype Environment = Environment(decode: string -> Option<Params>, refuses: Input -> bool, blocks: Result<ShiftLog> -> bool)

  /** Every reversal gets through to the API server. */
  ghost predicate Unblocked(env: Environment) {
    forall r: Result<ShiftLog> :: !env.blocks(r)
  }

  function Failure(s: Routes, why: string): RawResult<Routes, ShiftLog> {
    RawResult(s, PLUGIN_NAME, Failed, "", None, Some(why))
  }

  function KeyOf(p: Params, target: Target): RouteKey {
    RouteKey(if p.namespace == "" then target.namespace else p.namespace, p.name)
  }

  function Execute(env: Environment, s: Routes, inp: Input): RawResult<Routes, ShiftLog> {
    var decoded := env.decode(inp.params);
    if decoded.None? then Failure(s, "params")
    else
      var p := decoded.value;
      var key := KeyOf(p, inp.target);
      if key !in s then Failure(s, "route")
      else
        match s[key]
        case Malformed(_) => Failure(s, "rules")
        case Missing => Failure(s, "backend")
        case Listed(rules) =>
          var changes := Log(rules, p.backend, p.weight);
          if !Matches(rules, p.backend) then Failure(s, "backend")
          else if |changes| == 0 then RawResult(s, PLUGIN_NAME, Skipped, "", None, None)
          else if env.refuses(inp) then Failure(s, "update")
          else
            RoundTrip(rules, p.backend, p.weight);
            var shifted: Routes := s[key := Listed(Shift(rules, p.backend, p.weight))];
            RawResult(shifted, PLUGIN_NAME, Succeeded, "",
                      Some(ShiftLog(key.name, key.namespace, changes)), None)
  }

  lemma {:induction false} RestoredStaysExact(ref: Ref, changes: seq<Change>, i: int, j: int)
    requires ref.Ref? ==> Exact(ref.weight)
    ensures var r := RestoredRef(ref, changes, i, j);
            r.Ref? ==> Exact(r.weight)
  {
    if changes != [] {
      RestoredStaysExact(ref, changes[..|changes| - 1], i, j);
    }
  }

  lemma {:induction false} RestoreKeepsClean(rules: seq<Rule>, changes: seq<Change>)
    requires Clean(rules)
    ensures Clean(Restore(rules, changes))
  {
    RestoreAt(rules, changes);
    forall i, j | At(Restore(rules, changes), i, j) && RefAt(Restore(rules, changes), i, j).Ref?
      ensures Exact(RefAt(Restore(rules, changes), i, j).weight)
    {
      assert SameRule(rules[i], Restore(rules, changes)[i]) && At(rules, i, j);
      RestoredStaysExact(RefAt(rules, i, j), changes, i, j);
    }
  }

  function Reverse(s: Routes, prev: Result<ShiftLog>): Reversal<Routes> {
    if prev.details.payload.None? || |prev.details.payload.value.previous| == 0 then Reversal(s, Some("weights"))
    else
      var log := prev.details.payload.value;
      var key := RouteKey(if log.routeNamespace == "" then prev.target.namespace else log.routeNamespace, log.routeName);
      if log.routeName == "" then Reversal(s, Some("name"))
      else if key !in s then Reversal(s, None)
      else
        match s[key]
        case Malformed(_) => Reversal(s, Some("rules"))
        case Missing => Reversal(s, None)
        case Listed(rules) =>
          RestoreKeepsClean(rules, log.previous);
          var restored: Routes := s[key := Listed(Restore(rules, log.previous))];
          Reversal(restored, None)
  }

  /** A reversal that does not get through changes nothing and says so. */
  function TryReverse(env: Environment, s: Routes, prev: Result<ShiftLog>): Reversal<Routes> {
    if env.blocks(prev) then Reversal(s, Some("call")) else Reverse(s, prev)
  }

  function ShiftPlugin(env: Environment): Plugin<Routes, ShiftLog> {
    Plugin((s: Routes, inp: Input) => Execute(env, s, inp), (s: Routes, r: Result<ShiftLog>) => TryReverse(env, s, r), true)
  }

  /** Some entry of the route's rules names this backend, and stands at a weight with this property. */
  ghost predicate SomeEntry(rules: seq<Rule>, backend: string, at: int -> bool) {
    exists i, j :: 0 <= i < |rules| && rules[i].Rule? && 0 <= j < |rules[i].refs| && EntryFor(rules[i].refs[j], backend, at)
  }

  ghost predicate EntryFor(ref: Ref, backend: string, at: int -> bool) {
    ref.Ref? && ref.name == backend && at(if ToInt(ref.weight).1 then ToInt(ref.weight).0 else 1)
  }

  /** Execute succeeds if and only if the named route is there, in the namespace the parameters give or else the
      target's, some entry of the backend is not at the weight yet, and the update is not refused; it is
      skipped if and only if all entries of the backend, and there are some, are at the weight. */
  lemma {:induction false} ExecutesExactly(env: Environment, s: Routes, inp: Input)
    ensures var raw, decoded := Execute(env, s, inp), env.decode(inp.params);
            if decoded.None? then raw.status == Failed
            else
              var p := decoded.value;
              var key := RouteKey(if p.namespace == "" then inp.target.namespace else p.namespace, p.name);
              if key !in s || !s[key].Listed? then raw.status == Failed
              else
                var off := SomeEntry(s[key].rules, p.backend, w => w != p.weight);
                && (raw.status == Succeeded <==> off && !env.refuses(inp))
                && (raw.status == Skipped <==> !off && SomeEntry(s[key].rules, p.backend, w => true))
                && (raw.status == Failed <==> raw.err.Some?)
  {
    var decoded := env.decode(inp.params);
    if decoded.Some? {
      var p := decoded.value;
      var key := KeyOf(p, inp.target);
      if key in s && s[key].Listed? {
        MatchesSomeEntry(s[key].rules, p.backend);
        LogsSomeEntry(s[key].rules, p.backend, p.weight);
      }
    }
  }

  lemma MatchesSomeEntry(rules: seq<Rule>, backend: string)
    ensures Matches(rules, backend) <==> SomeEntry(rules, backend, w => true)
  {
    if Matches(rules, backend) {
      var i :| 0 <= i < |rules| && NamesIn(RefsOf(rules[i]), backend);
      var j :| 0 <= j < |RefsOf(rules[i])| && RefsOf(rules[i])[j].Ref? && RefsOf(rules[i])[j].name == backend;
      assert EntryFor(rules[i].refs[j], backend, w => true);
    }
    if SomeEntry(rules, backend, w => true) {
      var i, j :| 0 <= i < |rules| && rules[i].Rule? && 0 <= j < |rules[i].refs| && EntryFor(rules[i].refs[j], backend, w => true);
      assert NamesIn(RefsOf(rules[i]), backend);
    }
  }

  /** Something is logged exactly when some entry is off. */
  lemma {:induction false} LogsSomeEntry(rules: seq<Rule>, backend: string, weight: int)
    ensures |Log(rules, backend, weight)| > 0 <==> SomeEntry(rules, backend, w => w != weight)
  {
    LogsUpTo(rules, backend, weight, |rules|);
    OffSomewhere(rules, backend, weight, |rules|);
    if SomeEntry(rules, backend, w => w != weight) {
      var i, j :| 0 <= i < |rules| && rules[i].Rule? && 0 <= j < |rules[i].refs| && EntryFor(rules[i].refs[j], backend, w => w != weight);
      assert OffAt(rules[i], backend, weight, j);
      assert RuleOff(rules[i], backend, weight);
    }
    if i :| 0 <= i < |rules| && RuleOff(rules[i], backend, weight) {
      var j :| OffAt(rules[i], backend, weight, j);
      assert EntryFor(rules[i].refs[j], backend, w => w != weight);
    }
  }

  ghost predicate OffAt(rule: Rule, backend: string, weight: int, j: int) {
    0 <= j < |RefsOf(rule)| && Overrides(RefsOf(rule)[j], backend, weight)
  }

  ghost predicate RuleOff(rule: Rule, backend: string, weight: int) {
    exists j :: OffAt(rule, backend, weight, j)
  }

  ghost predicate OffUpTo(rules: seq<Rule>, backend: string, weight: int, n: nat)
    requires n <= |rules|
  {
    n > 0 && (OffUpTo(rules, backend, weight, n - 1) || RuleOff(rules[n - 1], backend, weight))
  }

  lemma {:induction false} OffSomewhere(rules: seq<Rule>, backend: string, weight: int, n: nat)
    requires n <= |rules|
    ensures OffUpTo(rules, backend, weight, n) <==> exists i :: 0 <= i < n && RuleOff(rules[i], backend, weight)
  {
    if n > 0 {
      OffSomewhere(rules, backend, weight, n - 1);
    }
  }

  lemma {:induction false} LogsUpTo(rules: seq<Rule>, backend: string, weight: int, n: nat)
    requires n <= |rules|
    ensures |LogUpTo(rules, backend, weight, n)| > 0 <==> OffUpTo(rules, backend, weight, n)
  {
    if n > 0 {
      var m := n - 1;
      LogsUpTo(rules, backend, weight, m);
      LogsRule(rules, backend, weight, m);
      assert LogUpTo(rules, backend, weight, m + 1) == LogUpTo(rules, backend, weight, m) + WholeRuleLog(rules, backend, weight, m) by {
        LogGrows(rules, backend, weight, m);
      }
    }
  }

  lemma {:induction false} LogsRule(rules: seq<Rule>, backend: string, weight: int, i: nat)
    requires i < |rules|
    ensures |WholeRuleLog(rules, backend, weight, i)| > 0 <==> RuleOff(rules[i], backend, weight)
  {
    LogsInRule(rules, backend, weight, i, |RefsOf(rules[i])|);
    if RuleOff(rules[i], backend, weight) {
      var j :| OffAt(rules[i], backend, weight, j);
    }
  }

  lemma {:induction false} LogsInRule(rules: seq<Rule>, backend: string, weight: int, i: nat, n: nat)
    requires i < |rules| && n <= |RefsOf(rules[i])|
    ensures |RuleLog(rules, backend, weight, i, n)| > 0 <==> exists j :: 0 <= j < n && OffAt(rules[i], backend, weight, j)
  {
    if n > 0 {
      LogsInRule(rules, backend, weight, i, n - 1);
      assert OffAt(rules[i], backend, weight, n - 1) <==> Overrides(RefsOf(rules[i])[n - 1], backend, weight);
    }
  }

  /** A successful execution overrode something on an existing route and logged it; any other leaves
      the routes alone. */
  lemma {:induction false} ExecuteOutcome(env: Environment, s: Routes, inp: Input) returns (p: Params)
    ensures var raw := Execute(env, s, inp);
            var key := KeyOf(p, inp.target);
            && raw.plugin == PLUGIN_NAME && raw.status != Unset
            && (raw.status != Succeeded ==> raw.state == s)
            && (raw.status == Succeeded ==>
                  && key in s && s[key].Listed?
                  && |Log(s[key].rules, p.backend, p.weight)| > 0
                  && raw.state == s[key := Listed(Shift(s[key].rules, p.backend, p.weight))]
                  && raw.payload == Some(ShiftLog(key.name, key.namespace, Log(s[key].rules, p.backend, p.weight))))
  {
    p := if env.decode(inp.params).Some? then env.decode(inp.params).value else Params("", "", "", 0);
  }

  /** Reverse fails if and only if there is no log, or no route name in it, or the route's rules are no list; a
      route that is gone, or has no rules, needs nothing; and no other route is touched. */
  lemma ReversesExactly(s: Routes, prev: Result<ShiftLog>)
    ensures var v, payload := Reverse(s, prev), prev.details.payload;
            if payload.None? || payload.value.previous == [] || payload.value.routeName == "" then v.err.Some? && v.state == s
            else
              var key := RouteKey(if payload.value.routeNamespace == "" then prev.target.namespace else payload.value.routeNamespace,
                                  payload.value.routeName);
              && (v.err.Some? <==> key in s && s[key].Malformed?)
              && (key !in s || !s[key].Listed? ==> v.state == s)
              && v.state.Keys == s.Keys && (forall other :: other in s && other != key ==> v.state[other] == s[other])
  {
  }

  /** Restoring the log of a shift right after it gives back the routes as they were. */
  lemma ReverseRestores(s: Routes, after: Routes, key: RouteKey, backend: string, weight: int, prev: Result<ShiftLog>)
    requires key in s && s[key].Listed? && |Log(s[key].rules, backend, weight)| > 0
    requires after == s[key := Listed(Shift(s[key].rules, backend, weight))]
    requires prev.details.payload == Some(ShiftLog(key.name, key.namespace, Log(s[key].rules, backend, weight)))
    requires key.namespace == "" ==> prev.target.namespace == ""
    ensures Reverse(after, prev) == Reversal(s, None)
  {
    RoundTrip(s[key].rules, backend, weight);
    var undone := after[key := s[key]];
    assert undone == s;
  }

  lemma ExecuteUndone(env: Environment, s: Routes, inp: Input)
    ensures var raw := Execute(env, s, inp);
            var r := Normalise(PLUGIN_NAME, inp.target, raw);
            && r.plugin == PLUGIN_NAME
            && (r.status == Succeeded ==> Reverse(raw.state, r) == Reversal(s, None))
            && (r.status != Succeeded ==> raw.state == s)
  {
    var p := ExecuteOutcome(env, s, inp);
    var raw := Execute(env, s, inp);
    if raw.status == Succeeded {
      ReverseRestores(s, raw.state, KeyOf(p, inp.target), p.backend, p.weight, Normalise(PLUGIN_NAME, inp.target, raw));
    }
  }

  /** No successful execution is followed by a reversal that is blocked. */
  ghost predicate SuccessesUnblocked(env: Environment) {
    forall s: Routes, inp: Input ::
      var raw := Execute(env, s, inp);
      raw.status == Succeeded ==> !env.blocks(Normalise(PLUGIN_NAME, inp.target, raw))
  }

  lemma LawfulReversalsGetThrough(env: Environment, s: Routes, inp: Input)
    requires PluginLawful(PLUGIN_NAME, ShiftPlugin(env))
    ensures var raw := Execute(env, s, inp);
            raw.status == Succeeded ==> !env.blocks(Normalise(PLUGIN_NAME, inp.target, raw))
  {
    var plugin := ShiftPlugin(env);
    var raw := plugin.execute(s, inp);
    assert raw == Execute(env, s, inp);
    var r := Normalise(PLUGIN_NAME, inp.target, raw);
    assert r.status == Succeeded ==> plugin.reverse(raw.state, r) == Reversal(s, None);
  }

  /** The plugin meets the undo law if and only if the reversals of its successes get through. */
  lemma MeshShiftIsLawfulExactly(env: Environment)
    ensures PluginLawful(PLUGIN_NAME, ShiftPlugin(env)) <==> SuccessesUnblocked(env)
  {
    if SuccessesUnblocked(env) {
      forall s: Routes, inp: Input {
        ExecuteUndone(env, s, inp);
      }
    }
    if PluginLawful(PLUGIN_NAME, ShiftPlugin(env)) {
      forall s: Routes, inp: Input {
        LawfulReversalsGetThrough(env, s, inp);
      }
    }
  }

  lemma MeshShiftIsLawful(env: Environment)
    requires Unblocked(env)
    ensures PluginLawful(PLUGIN_NAME, ShiftPlugin(env))
  {
    MeshShiftIsLawfulExactly(env);
  }
}
