/**
 The mesh.shift plugin (plugins/mesh-shift/plugin.go): it overrides the weight of a backend on
 every rule of an HTTPRoute, logs what it replaced, and restores the route from that log.
 */
module MeshShift {
  import opened Common

  /** The weight field of a backendRef: absent, or a number as the JSON decoder left it, or
      anything else. */
  datatype Weight = Absent | Whole(n: int) | Fraction(x: real) | NotANumber(text: string)

  /** An entry of backendRefs; `rest` is everything besides name and weight. A name that is absent
      or no string reads as the empty one. */
  datatype Ref = Ref(name: string, weight: Weight, rest: string) | OpaqueRef(text: string)

  /** An entry of spec.rules; one whose backendRefs are no list is opaque. */
  datatype Rule = Rule(refs: seq<Ref>, rest: string) | OpaqueRule(text: string)

  /** spec.rules of the route. */
  datatype Rules = Missing | Malformed(text: string) | Listed(rules: seq<Rule>)

  /** What one overridden weight was; `had` is false when there was no number. */
  datatype Change = Change(rule: int, ref: int, weight: int, had: bool)

  /** The weight the Gateway API implies for an absent field. */
  const DEFAULT_WEIGHT := 1

  function Truncated(x: real): int {
    if x >= 0.0 then x.Floor else -((-x).Floor)
  }

  /** toInt64 */
  function ToInt(w: Weight): (int, bool) {
    match w
    case Whole(n) => (n, true)
    case Fraction(x) => (Truncated(x), true)
    case _ => (0, false)
  }

  /** A fraction counts as the whole number next to it towards zero; only a number counts at all. */
  lemma ToIntTruncates(w: Weight)
    ensures var (n, had) := ToInt(w);
            && (had <==> w.Whole? || w.Fraction?)
            && (w.Whole? ==> n == w.n)
            && (w.Fraction? && w.x >= 0.0 ==> n as real <= w.x < n as real + 1.0)
            && (w.Fraction? && w.x < 0.0 ==> n as real - 1.0 < w.x <= n as real)
  {
  }

  function Effective(w: Weight): int {
    if ToInt(w).1 then ToInt(w).0 else DEFAULT_WEIGHT
  }

  // ---------------------------------------------------------------------------------------
  // One shift
  // ---------------------------------------------------------------------------------------

  predicate Overrides(ref: Ref, backend: string, weight: int) {
    ref.Ref? && ref.name == backend && Effective(ref.weight) != weight
  }

  function ShiftRef(ref: Ref, backend: string, weight: int): Ref {
    if Overrides(ref, backend, weight) then ref.(weight := Whole(weight)) else ref
  }

  function ShiftRefs(refs: seq<Ref>, backend: string, weight: int): (out: seq<Ref>)
    ensures |out| == |refs|
    ensures forall j :: 0 <= j < |refs| ==> out[j] == ShiftRef(refs[j], backend, weight)
  {
    if refs == [] then []
    else ShiftRefs(refs[..|refs| - 1], backend, weight) + [ShiftRef(refs[|refs| - 1], backend, weight)]
  }

  function ShiftRule(rule: Rule, backend: string, weight: int): Rule {
    if rule.Rule? then rule.(refs := ShiftRefs(rule.refs, backend, weight)) else rule
  }

  function Shift(rules: seq<Rule>, backend: string, weight: int): (out: seq<Rule>)
    ensures |out| == |rules|
    ensures forall i :: 0 <= i < |rules| ==> out[i] == ShiftRule(rules[i], backend, weight)
  {
    if rules == [] then []
    else Shift(rules[..|rules| - 1], backend, weight) + [ShiftRule(rules[|rules| - 1], backend, weight)]
  }

  function RefsOf(rule: Rule): seq<Ref> {
    if rule.Rule? then rule.refs else []
  }

  /** (i, j) names a backendRef of the route. */
  predicate At(rules: seq<Rule>, i: int, j: int) {
    0 <= i < |rules| && 0 <= j < |RefsOf(rules[i])|
  }

  function ChangeFor(rules: seq<Rule>, i: int, j: int): Change
    requires At(rules, i, j) && rules[i].refs[j].Ref?
  {
    var found := ToInt(rules[i].refs[j].weight);
    Change(i, j, found.0, found.1)
  }

  /** What a shift logs for the first bi entries of rule ri. */
  function RuleLog(rules: seq<Rule>, backend: string, weight: int, ri: nat, bi: nat): seq<Change>
    requires ri < |rules| && bi <= |RefsOf(rules[ri])|
  {
    if bi == 0 then []
    else
      RuleLog(rules, backend, weight, ri, bi - 1)
      + if Overrides(rules[ri].refs[bi - 1], backend, weight) then [ChangeFor(rules, ri, bi - 1)] else []
  }

  function WholeRuleLog(rules: seq<Rule>, backend: string, weight: int, ri: nat): seq<Change>
    requires ri < |rules|
  {
    RuleLog(rules, backend, weight, ri, |RefsOf(rules[ri])|)
  }

  /** What it logs for the first ri rules. */
  function LogUpTo(rules: seq<Rule>, backend: string, weight: int, ri: nat): seq<Change>
    requires ri <= |rules|
  {
    if ri == 0 then []
    else LogUpTo(rules, backend, weight, ri - 1) + WholeRuleLog(rules, backend, weight, ri - 1)
  }

  function Log(rules: seq<Rule>, backend: string, weight: int): seq<Change> {
    LogUpTo(rules, backend, weight, |rules|)
  }

  predicate NamesIn(refs: seq<Ref>, backend: string) {
    exists j :: 0 <= j < |refs| && refs[j].Ref? && refs[j].name == backend
  }

  predicate Matches(rules: seq<Rule>, backend: string) {
    exists i :: 0 <= i < |rules| && NamesIn(RefsOf(rules[i]), backend)
  }

  // ---------------------------------------------------------------------------------------
  // Restoring from a log
  // ---------------------------------------------------------------------------------------

  function PutBack(ref: Ref, ch: Change): Ref {
    if ref.Ref? then ref.(weight := if ch.had then Whole(ch.weight) else Absent) else ref
  }

  function RestoreOne(rules: seq<Rule>, ch: Change): (out: seq<Rule>)
    ensures |out| == |rules|
  {
    if !At(rules, ch.rule, ch.ref) then rules
    else
      var rule := rules[ch.rule];
      rules[ch.rule := rule.(refs := rule.refs[ch.ref := PutBack(rule.refs[ch.ref], ch)])]
  }

  function Restore(rules: seq<Rule>, changes: seq<Change>): (out: seq<Rule>)
    ensures |out| == |rules|
  {
    if changes == [] then rules else RestoreOne(Restore(rules, changes[..|changes| - 1]), changes[|changes| - 1])
  }

  // ---------------------------------------------------------------------------------------
  // The plugin's code
  // ---------------------------------------------------------------------------------------

  /** Why a route could not be edited. */
  datatype RouteError = RulesNotAList

  class HTTPRoute {
    var rules: Rules

    constructor (r: Rules)
      ensures rules == r
    {
      rules := r;
    }

    /** applyWeight */
    method ApplyWeight(backend: string, weight: int) returns (matched: bool, changes: seq<Change>, err: Option<RouteError>)
      modifies this
      ensures match old(rules)
              case Malformed(_) => rules == old(rules) && !matched && changes == [] && err == Some(RulesNotAList)
              case Missing => rules == old(rules) && !matched && changes == [] && err == None
              case Listed(was) =>
                && rules == Listed(Shift(was, backend, weight))
                && matched == Matches(was, backend)
                && changes == Log(was, backend, weight)
                && err == None
    {
      if rules.Malformed? {
        return false, [], Some(RulesNotAList);
      }
      if rules.Missing? {
        return false, [], None;
      }
      var list: seq<Rule>;
      matched, list, changes := ApplyToRules(rules.rules, backend, weight);
      if |changes| > 0 {
        rules := Listed(list);
      }
      return matched, changes, None;
    }

    /** The outer loop of applyWeight, over the route's rules. */
    static method ApplyToRules(rules: seq<Rule>, backend: string, weight: int)
        returns (matched: bool, list: seq<Rule>, changes: seq<Change>)
      ensures matched == Matches(rules, backend)
      ensures list == Shift(rules, backend, weight)
      ensures changes == Log(rules, backend, weight)
      ensures |changes| == 0 ==> list == rules
    {
      matched, list, changes := false, rules, [];
      NoneApplied(rules, backend, weight);
      for ri := 0 to |list|
        invariant |list| == |rules| && Applied(rules, backend, weight, ri, matched, list, changes)
      {
        if list[ri].OpaqueRule? {
          OpaqueApplied(rules, backend, weight, ri, matched, list, changes);
          continue;
        }
        var found, refs, more := ApplyToRule(rules, list[ri].refs, ri, backend, weight);
        RuleApplied(rules, backend, weight, ri, matched, list, changes, refs, more);
        matched, changes := matched || found, changes + more;
        list := list[ri := list[ri].(refs := refs)];
      }
      AllApplied(rules, backend, weight, matched, list, changes);
    }

    /** The inner loop of applyWeight, over one rule's backendRefs. */
    static method ApplyToRule(ghost rules: seq<Rule>, refsIn: seq<Ref>, ri: nat, backend: string, weight: int)
        returns (matched: bool, refs: seq<Ref>, changes: seq<Change>)
      requires ri < |rules| && RefsOf(rules[ri]) == refsIn
      ensures matched == NamesIn(refsIn, backend)
      ensures refs == ShiftRefs(refsIn, backend, weight)
      ensures changes == WholeRuleLog(rules, backend, weight, ri)
      ensures |changes| == 0 ==> refs == refsIn
    {
      matched, refs, changes := false, refsIn, [];
      for bi := 0 to |refs|
        invariant |refs| == |refsIn|
        invariant forall j :: 0 <= j < |refs| ==> refs[j] == if j < bi then ShiftRef(refsIn[j], backend, weight) else refsIn[j]
        invariant matched == NamesIn(refsIn[..bi], backend)
        invariant changes == RuleLog(rules, backend, weight, ri, bi)
        invariant |changes| == 0 ==> refs == refsIn
      {
        var ref := refs[bi];
        NamesOneMore(refsIn, bi, backend);
        if ref.OpaqueRef? || ref.name != backend {
          continue;
        }
        matched := true;
        var found := ToInt(ref.weight);
        var effective := if found.1 then found.0 else DEFAULT_WEIGHT;
        if effective == weight {
          continue;
        }
        changes := changes + [Change(ri, bi, found.0, found.1)];
        refs := refs[bi := ref.(weight := Whole(weight))];
      }
      assert refsIn[..|refsIn|] == refsIn;
      assert refs == ShiftRefs(refsIn, backend, weight);
    }

    /** restoreWeights */
    method RestoreWeights(changes: seq<Change>) returns (err: Option<RouteError>)
      modifies this
      ensures match old(rules)
              case Malformed(_) => rules == old(rules) && err == Some(RulesNotAList)
              case Missing => rules == old(rules) && err == None
              case Listed(was) => rules == Listed(Restore(was, changes)) && err == None
    {
      if rules.Malformed? {
        return Some(RulesNotAList);
      }
      if rules.Missing? {
        return None;
      }
      var list := rules.rules;
      for k := 0 to |changes|
        invariant list == Restore(rules.rules, changes[..k])
        invariant rules == old(rules)
      {
        var ch := changes[k];
        assert changes[..k + 1][..k] == changes[..k];
        if ch.rule < 0 || ch.rule >= |list| {
          continue;
        }
        var rule := list[ch.rule];
        if rule.OpaqueRule? || ch.ref < 0 || ch.ref >= |rule.refs| {
          continue;
        }
        var ref := rule.refs[ch.ref];
        if ref.OpaqueRef? {
          assert rule.refs[ch.ref := ref] == rule.refs;
          continue;
        }
        ref := ref.(weight := if ch.had then Whole(ch.weight) else Absent);
        rule := rule.(refs := rule.refs[ch.ref := ref]);
        list := list[ch.rule := rule];
      }
      assert changes[..|changes|] == changes;
      rules := Listed(list);
      return None;
    }
  }

  lemma {:induction false} LogGrows(rules: seq<Rule>, backend: string, weight: int, ri: nat)
    requires ri < |rules|
    ensures LogUpTo(rules, backend, weight, ri + 1) == LogUpTo(rules, backend, weight, ri) + WholeRuleLog(rules, backend, weight, ri)
    ensures rules[ri].OpaqueRule? ==> LogUpTo(rules, backend, weight, ri + 1) == LogUpTo(rules, backend, weight, ri)
  {
  }

  /** The first n rules are shifted, the others untouched. */
  ghost predicate ShiftedUpTo(rules: seq<Rule>, list: seq<Rule>, backend: string, weight: int, n: int) {
    |list| == |rules| && forall i :: 0 <= i < |rules| ==> list[i] == if i < n then ShiftRule(rules[i], backend, weight) else rules[i]
  }

  lemma ShiftedOneMore(rules: seq<Rule>, list: seq<Rule>, backend: string, weight: int, n: nat)
    requires ShiftedUpTo(rules, list, backend, weight, n) && n < |rules|
    ensures list[n] == rules[n]
    ensures ShiftedUpTo(rules, list[n := ShiftRule(rules[n], backend, weight)], backend, weight, n + 1)
    ensures rules[n].OpaqueRule? ==> list[n := ShiftRule(rules[n], backend, weight)] == list
  {
  }

  lemma {:induction false} ShiftedAll(rules: seq<Rule>, list: seq<Rule>, backend: string, weight: int)
    requires ShiftedUpTo(rules, list, backend, weight, |rules|)
    ensures list == Shift(rules, backend, weight)
  {
  }

  /** Where the outer loop stands after n rules. */
  ghost predicate Applied(rules: seq<Rule>, backend: string, weight: int, n: nat, matched: bool, list: seq<Rule>, changes: seq<Change>)
    requires n <= |rules|
  {
    && ShiftedUpTo(rules, list, backend, weight, n)
    && matched == Matches(rules[..n], backend)
    && changes == LogUpTo(rules, backend, weight, n)
    && (|changes| == 0 ==> list == rules)
  }

  lemma {:induction false} NoneApplied(rules: seq<Rule>, backend: string, weight: int)
    ensures Applied(rules, backend, weight, 0, false, rules, [])
  {
  }

  lemma {:induction false} AllApplied(rules: seq<Rule>, backend: string, weight: int, matched: bool, list: seq<Rule>, changes: seq<Change>)
    requires Applied(rules, backend, weight, |rules|, matched, list, changes)
    ensures matched == Matches(rules, backend) && list == Shift(rules, backend, weight) && changes == Log(rules, backend, weight)
  {
    assert rules[..|rules|] == rules;
    ShiftedAll(rules, list, backend, weight);
  }

  lemma {:induction false} OpaqueApplied(rules: seq<Rule>, backend: string, weight: int, n: nat, matched: bool, list: seq<Rule>,
                                         changes: seq<Change>)
    requires n < |rules| && Applied(rules, backend, weight, n, matched, list, changes) && list[n].OpaqueRule?
    ensures Applied(rules, backend, weight, n + 1, matched, list, changes)
  {
    MatchesOneMore(rules, n, backend);
    LogGrows(rules, backend, weight, n);
    ShiftedOneMore(rules, list, backend, weight, n);
  }

  lemma {:induction false} RuleApplied(rules: seq<Rule>, backend: string, weight: int, n: nat, matched: bool, list: seq<Rule>,
                                       changes: seq<Change>, refs: seq<Ref>, more: seq<Change>)
    requires n < |rules| && Applied(rules, backend, weight, n, matched, list, changes) && list[n].Rule?
    requires refs == ShiftRefs(list[n].refs, backend, weight) && more == WholeRuleLog(rules, backend, weight, n)
    requires |more| == 0 ==> refs == list[n].refs
    ensures list[n] == rules[n]
    ensures Applied(rules, backend, weight, n + 1, matched || NamesIn(list[n].refs, backend), list[n := list[n].(refs := refs)], changes + more)
  {
    MatchesOneMore(rules, n, backend);
    LogGrows(rules, backend, weight, n);
    ShiftedOneMore(rules, list, backend, weight, n);
  }

  lemma NamesOneMore(refs: seq<Ref>, j: nat, backend: string)
    requires j < |refs|
    ensures NamesIn(refs[..j + 1], backend) == (NamesIn(refs[..j], backend) || (refs[j].Ref? && refs[j].name == backend))
  {
    if NamesIn(refs[..j], backend) {
      var k :| 0 <= k < j && refs[..j][k].Ref? && refs[..j][k].name == backend;
      assert refs[..j + 1][k] == refs[..j][k];
    }
    assert refs[..j + 1][j] == refs[j];
    assert forall k :: 0 <= k < j ==> refs[..j + 1][k] == refs[..j][k];
  }

  lemma MatchesOneMore(rules: seq<Rule>, i: nat, backend: string)
    requires i < |rules|
    ensures Matches(rules[..i + 1], backend) == (Matches(rules[..i], backend) || NamesIn(RefsOf(rules[i]), backend))
  {
    if Matches(rules[..i], backend) {
      var k :| 0 <= k < i && NamesIn(RefsOf(rules[..i][k]), backend);
      assert rules[..i + 1][k] == rules[..i][k];
    }
    assert rules[..i + 1][i] == rules[i];
    assert forall k :: 0 <= k < i ==> rules[..i + 1][k] == rules[..i][k];
  }
}
