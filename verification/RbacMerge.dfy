/** What the merge of permission rules guarantees. */
module RbacMerge {
  import opened Sorting
  import opened Rbac

  // ---------------------------------------------------------------------------------------
  // Rules the guarantees are about
  // ---------------------------------------------------------------------------------------

  /** Groups and resources are named, and no name holds a character that separates names in a key or
      in the sort key. Kubernetes names hold none of them. */
  predicate WellNamed(rule: Rule) {
    && rule.groups != [] && rule.resources != []
    && Without(rule.groups, UNIT) && Without(rule.groups, BAR) && Without(rule.groups, COMMA)
    && Without(rule.resources, UNIT) && Without(rule.resources, COMMA)
  }

  predicate WellFormed(rules: seq<Rule>) {
    forall i :: 0 <= i < |rules| ==> WellNamed(rules[i])
  }

  lemma CanonicalWellNamed(rule: Rule)
    requires WellNamed(rule)
    ensures WellNamed(Canonical(rule))
  {
    CanonicalElements(rule);
    SameNamesWithout(rule.groups, Canonical(rule).groups);
    SameNamesWithout(rule.resources, Canonical(rule).resources);
  }

  lemma SameNamesWithout(a: seq<string>, b: seq<string>)
    requires a != [] && forall x :: x in a <==> x in b
    ensures b != []
    ensures forall c :: Without(a, c) ==> Without(b, c)
  {
    assert a[0] in b;
    forall c | Without(a, c)
      ensures Without(b, c)
    {
      forall i | 0 <= i < |b|
        ensures c !in b[i]
      {
        assert b[i] in a;
      }
    }
  }

  lemma CanonicalElements(rule: Rule)
    ensures forall g :: g in Canonical(rule).groups <==> g in rule.groups
    ensures forall r :: r in Canonical(rule).resources <==> r in rule.resources
    ensures Increasing(Less, Canonical(rule).groups) && Increasing(Less, Canonical(rule).resources)
  {
    SortedSetSorts(Elems(rule.groups));
    SortedSetSorts(Elems(rule.resources));
  }

  predicate SameScope(a: Rule, b: Rule) {
    a.groups == b.groups && a.resources == b.resources
  }

  /** A key stands for one scope. */
  lemma KeyInjective(a: Rule, b: Rule)
    requires WellNamed(a) && WellNamed(b) && KeyOf(a) == KeyOf(b)
    ensures SameScope(a, b)
  {
    JoinWithout(a.groups, UNIT, BAR);
    JoinWithout(b.groups, UNIT, BAR);
    FirstOccurrence(Join(a.groups, UNIT), Join(a.resources, UNIT), Join(b.groups, UNIT), Join(b.resources, UNIT), BAR);
    JoinInjective(a.groups, b.groups, UNIT);
    JoinInjective(a.resources, b.resources, UNIT);
  }

  lemma RuleLessIsStrict()
    ensures Strict(RuleLess)
  {
    LessIsStrict();
    assert forall a :: !RuleLess(a, a);
    forall a, b, c | RuleLess(a, b) && RuleLess(b, c)
      ensures RuleLess(a, c)
    {
      var ga, gb, gc := Join(a.groups, COMMA), Join(b.groups, COMMA), Join(c.groups, COMMA);
      assert !Less(gb, gb) && !Less(ga, ga);
      assert Less(ga, gb) && Less(gb, gc) ==> Less(ga, gc);
    }
  }

  /** Two scopes are told apart by the sort key. */
  lemma ScopesCompare(a: Rule, b: Rule)
    requires WellNamed(a) && WellNamed(b) && !SameScope(a, b)
    ensures RuleLess(a, b) || RuleLess(b, a)
  {
    if Join(a.groups, COMMA) == Join(b.groups, COMMA) && Join(a.resources, COMMA) == Join(b.resources, COMMA) {
      JoinInjective(a.groups, b.groups, COMMA);
      JoinInjective(a.resources, b.resources, COMMA);
    }
    LessTotal(Join(a.groups, COMMA), Join(b.groups, COMMA));
    LessTotal(Join(a.resources, COMMA), Join(b.resources, COMMA));
  }

  // ---------------------------------------------------------------------------------------
  // What the buckets hold
  // ---------------------------------------------------------------------------------------

  /** Some rule with the scope s allows the verb. */
  ghost predicate HasVerb(rules: seq<Rule>, s: Rule, v: string) {
    exists i :: 0 <= i < |rules| && SameScope(rules[i], s) && v in rules[i].verbs
  }

  ghost predicate HasScope(rules: seq<Rule>, s: Rule) {
    exists i :: 0 <= i < |rules| && SameScope(rules[i], s)
  }

  function ScopeOf(b: Bucket): Rule {
    Rule(b.groups, b.resources, [])
  }

  /** The bucket at k has a scope that occurs and has that key, and its verbs are those of the scope. */
  ghost predicate BucketFits(rules: seq<Rule>, t: Table, k: string) {
    k in t.buckets ==>
      var s := ScopeOf(t.buckets[k]);
      && HasScope(rules, s) && WellNamed(s) && KeyOf(s) == k
      && forall v :: v in t.buckets[k].verbs <==> HasVerb(rules, s, v)
  }

  lemma OneMoreRule(rules: seq<Rule>, last: Rule, s: Rule, v: string)
    ensures HasVerb(rules + [last], s, v) <==> HasVerb(rules, s, v) || (SameScope(last, s) && v in last.verbs)
    ensures HasScope(rules + [last], s) <==> HasScope(rules, s) || SameScope(last, s)
  {
    var all := rules + [last];
    assert all[|rules|] == last;
    assert forall i :: 0 <= i < |rules| ==> all[i] == rules[i];
  }

  lemma AddFits(rules: seq<Rule>, t: Table, last: Rule, k: string)
    requires WellNamed(last)
    requires BucketFits(rules, t, k) && (k !in t.buckets ==> forall i :: 0 <= i < |rules| ==> KeyOf(rules[i]) != k)
    ensures BucketFits(rules + [last], Add(t, last), k)
  {
    var t' := Add(t, last);
    if k in t'.buckets {
      var s := ScopeOf(t'.buckets[k]);
      OneMoreRule(rules, last, s, "");
      if k in t.buckets {
        assert s == ScopeOf(t.buckets[k]);
        if KeyOf(last) == k {
          KeyInjective(last, s);
        }
      } else {
        assert forall i :: 0 <= i < |rules| && SameScope(rules[i], s) ==> KeyOf(rules[i]) == k;
      }
      forall v
        ensures v in t'.buckets[k].verbs <==> HasVerb(rules + [last], s, v)
      {
        OneMoreRule(rules, last, s, v);
      }
    }
  }

  lemma {:induction false} CollectFits(rules: seq<Rule>, k: string)
    requires WellFormed(rules)
    ensures BucketFits(rules, Collect(rules), k)
  {
    if rules != [] {
      var init, last := rules[..|rules| - 1], rules[|rules| - 1];
      CollectFits(init, k);
      CollectKeys(init);
      assert rules == init + [last];
      assert WellNamed(last);
      assert k !in Collect(init).buckets ==> forall i :: 0 <= i < |init| ==> KeyOf(init[i]) != k by {
        assert forall i :: 0 <= i < |init| ==> Keys(init)[i] in Keys(init);
      }
      AddFits(init, Collect(init), last, k);
    }
  }

  // ---------------------------------------------------------------------------------------
  // What comes out
  // ---------------------------------------------------------------------------------------

  /** x is the one rule for its scope: a scope that occurs, with all verbs asked for in it. */
  ghost predicate Merged(rules: seq<Rule>, x: Rule) {
    HasScope(rules, x) && Increasing(Less, x.verbs) && forall v :: v in x.verbs <==> HasVerb(rules, x, v)
  }

  lemma MergedUnique(rules: seq<Rule>, x: Rule, y: Rule)
    requires Merged(rules, x) && Merged(rules, y) && SameScope(x, y)
    ensures x == y
  {
    forall v
      ensures v in x.verbs <==> v in y.verbs
    {
      assert HasVerb(rules, x, v) <==> HasVerb(rules, y, v);
    }
    LessIsStrict();
    SortedListsAgree(Less, x.verbs, y.verbs);
  }

  ghost function Emitted(rules: seq<Rule>): seq<Rule> {
    CollectKeys(rules);
    Emit(Collect(rules), |Collect(rules).order|)
  }

  lemma {:induction false} EmittedAt(rules: seq<Rule>, i: nat)
    requires WellFormed(rules) && i < |Emitted(rules)|
    ensures Merged(rules, Emitted(rules)[i]) && WellNamed(Emitted(rules)[i])
    ensures i < |Collect(rules).order| && KeyOf(Emitted(rules)[i]) == Collect(rules).order[i]
  {
    CollectKeys(rules);
    var t := Collect(rules);
    var k := t.order[i];
    assert k in t.order;
    CollectFits(rules, k);
    var x, s := Emitted(rules)[i], ScopeOf(t.buckets[k]);
    EmitAt(t, |t.order|, i);
    assert SameScope(x, s);
    SortedSetSorts(t.buckets[k].verbs);
    assert HasScope(rules, x) by {
      var j :| 0 <= j < |rules| && SameScope(rules[j], s);
      assert SameScope(rules[j], x);
    }
    forall v
      ensures v in x.verbs <==> HasVerb(rules, x, v)
    {
      assert HasVerb(rules, x, v) <==> HasVerb(rules, s, v);
    }
  }

  lemma EveryScopeEmitted(rules: seq<Rule>, j: nat) returns (i: nat)
    requires WellFormed(rules) && j < |rules|
    ensures i < |Emitted(rules)| && SameScope(Emitted(rules)[i], rules[j])
  {
    CollectKeys(rules);
    var t := Collect(rules);
    assert Keys(rules)[j] in Keys(rules);
    i :| 0 <= i < |t.order| && t.order[i] == KeyOf(rules[j]);
    EmittedAt(rules, i);
    KeyInjective(Emitted(rules)[i], rules[j]);
  }

  lemma EmittedCompare(rules: seq<Rule>, i: nat, j: nat)
    requires WellFormed(rules) && i < j < |Emitted(rules)|
    ensures RuleLess(Emitted(rules)[i], Emitted(rules)[j]) || RuleLess(Emitted(rules)[j], Emitted(rules)[i])
  {
    CollectKeys(rules);
    EmittedAt(rules, i);
    EmittedAt(rules, j);
    assert Collect(rules).order[i] != Collect(rules).order[j];
    ScopesCompare(Emitted(rules)[i], Emitted(rules)[j]);
  }

  lemma EmittedIsMerged(rules: seq<Rule>, x: Rule)
    requires WellFormed(rules)
    ensures x in Emitted(rules) <==> Merged(rules, x)
  {
    var emitted := Emitted(rules);
    if x in emitted {
      var i :| 0 <= i < |emitted| && emitted[i] == x;
      EmittedAt(rules, i);
    }
    if Merged(rules, x) {
      var j :| 0 <= j < |rules| && SameScope(rules[j], x);
      var i := EveryScopeEmitted(rules, j);
      EmittedAt(rules, i);
      MergedUnique(rules, emitted[i], x);
    }
  }

  /** The output, for canonical rules: exactly the merged rules, sorted. */
  lemma {:induction false} SortedMerged(rules: seq<Rule>)
    requires WellFormed(rules)
    ensures Increasing(RuleLess, SortBy(RuleLess, Emitted(rules)))
    ensures forall x :: x in SortBy(RuleLess, Emitted(rules)) <==> Merged(rules, x)
  {
    var emitted := Emitted(rules);
    RuleLessIsStrict();
    assert Comparable(RuleLess, emitted) by {
      forall i, j | 0 <= i < j < |emitted| {
        EmittedCompare(rules, i, j);
      }
    }
    SortIncreasing(RuleLess, emitted);
    SameElements(SortBy(RuleLess, emitted), emitted);
    forall x {
      EmittedIsMerged(rules, x);
    }
  }

  lemma {:induction false} AllCanonicalWellFormed(rules: seq<Rule>)
    requires WellFormed(rules)
    ensures WellFormed(AllCanonical(rules))
  {
    forall i | 0 <= i < |rules|
      ensures WellNamed(AllCanonical(rules)[i])
    {
      CanonicalAt(rules, i);
      CanonicalWellNamed(rules[i]);
    }
  }

  /** Aggregation yields one rule per scope, holding exactly the verbs asked for in that scope, in
      increasing order without repetition; no two rules share a scope. */
  lemma {:induction false} AggregateIsCanonical(rules: seq<Rule>)
    requires WellFormed(rules)
    ensures var out := Aggregate(rules);
            && Increasing(RuleLess, out)
            && (forall i, j :: 0 <= i < j < |out| ==>
                  var (a, b) := (Join(out[i].groups, ','), Join(out[j].groups, ','));
                  Less(a, b) || (a == b && Less(Join(out[i].resources, ','), Join(out[j].resources, ','))))
            && (forall x :: x in out <==> Merged(AllCanonical(rules), x))
            && (forall i, j :: 0 <= i < j < |out| ==> !SameScope(out[i], out[j]))
  {
    AllCanonicalWellFormed(rules);
    SortedMerged(AllCanonical(rules));
    assert Aggregate(rules) == SortBy(RuleLess, Emitted(AllCanonical(rules)));
    RuleLessIsStrict();
    var out := Aggregate(rules);
    forall i, j | 0 <= i < j < |out|
      ensures !SameScope(out[i], out[j])
    {
      assert RuleLess(out[i], out[j]);
      assert !RuleLess(out[j], out[j]);
    }
  }

  // ---------------------------------------------------------------------------------------
  // The permissions
  // ---------------------------------------------------------------------------------------

  predicate Covers(rule: Rule, group: string, resource: string, verb: string) {
    group in rule.groups && resource in rule.resources && verb in rule.verbs
  }

  ghost predicate Grants(rules: seq<Rule>, group: string, resource: string, verb: string) {
    exists i :: 0 <= i < |rules| && Covers(rules[i], group, resource, verb)
  }

  // ---------------------------------------------------------------------------------------
  // Order and repetition
  // ---------------------------------------------------------------------------------------

  ghost predicate SameRules(a: seq<Rule>, b: seq<Rule>) {
    forall r :: r in a <==> r in b
  }

  lemma SameRulesMerge(a: seq<Rule>, b: seq<Rule>, x: Rule)
    requires (forall r :: r in a ==> r in b) && Merged(a, x) && SameRules(a, b)
    ensures Merged(b, x)
  {
    var i :| 0 <= i < |a| && SameScope(a[i], x);
    assert a[i] in b;
    forall v
      ensures HasVerb(a, x, v) <==> HasVerb(b, x, v)
    {
      VerbCarries(a, b, x, v);
      VerbCarries(b, a, x, v);
    }
  }

  lemma VerbCarries(a: seq<Rule>, b: seq<Rule>, x: Rule, v: string)
    requires forall r :: r in a ==> r in b
    ensures HasVerb(a, x, v) ==> HasVerb(b, x, v)
  {
    if HasVerb(a, x, v) {
      var i :| 0 <= i < |a| && SameScope(a[i], x) && v in a[i].verbs;
      assert a[i] in b;
    }
  }

  lemma {:induction false} CanonicalSame(a: seq<Rule>, b: seq<Rule>)
    requires SameRules(a, b)
    ensures SameRules(AllCanonical(a), AllCanonical(b))
  {
    forall r
      ensures r in AllCanonical(a) ==> r in AllCanonical(b)
      ensures r in AllCanonical(b) ==> r in AllCanonical(a)
    {
      CanonicalCarries(a, b, r);
      CanonicalCarries(b, a, r);
    }
  }

  lemma {:induction false} CanonicalCarries(a: seq<Rule>, b: seq<Rule>, r: Rule)
    requires forall x :: x in a ==> x in b
    ensures r in AllCanonical(a) ==> r in AllCanonical(b)
  {
    if r in AllCanonical(a) {
      var i :| 0 <= i < |a| && AllCanonical(a)[i] == r;
      CanonicalAt(a, i);
      assert a[i] in b;
      var j :| 0 <= j < |b| && b[j] == a[i];
      CanonicalAt(b, j);
      assert AllCanonical(b)[j] == r;
    }
  }

  /** Neither the order of plugins and rules nor their repetition makes a difference. */
  lemma AggregateIgnoresOrder(a: seq<Rule>, b: seq<Rule>)
    requires WellFormed(a) && WellFormed(b) && SameRules(a, b)
    ensures Aggregate(a) == Aggregate(b)
  {
    AggregateIsCanonical(a);
    AggregateIsCanonical(b);
    CanonicalSame(a, b);
    forall x
      ensures x in Aggregate(a) <==> x in Aggregate(b)
    {
      if x in Aggregate(a) {
        SameRulesMerge(AllCanonical(a), AllCanonical(b), x);
      }
      if x in Aggregate(b) {
        SameRulesMerge(AllCanonical(b), AllCanonical(a), x);
      }
    }
    RuleLessIsStrict();
    SortedListsAgree(RuleLess, Aggregate(a), Aggregate(b));
  }

  /** What aggregation puts out is well-formed and already canonical. */
  lemma OutputIsCanonical(rules: seq<Rule>, x: Rule)
    requires WellFormed(rules) && x in Aggregate(rules)
    ensures WellNamed(x) && Canonical(x) == x
  {
    AggregateIsCanonical(rules);
    AllCanonicalWellFormed(rules);
    var cs := AllCanonical(rules);
    var i :| 0 <= i < |cs| && SameScope(cs[i], x);
    assert WellNamed(cs[i]);
    CanonicalAt(rules, i);
    CanonicalElements(rules[i]);
    SortedSetIs(Elems(x.groups), x.groups);
    SortedSetIs(Elems(x.resources), x.resources);
  }

  lemma MergedAgain(cs: seq<Rule>, out: seq<Rule>, x: Rule)
    requires forall y :: y in out <==> Merged(cs, y)
    requires forall i, j :: 0 <= i < j < |out| ==> !SameScope(out[i], out[j])
    ensures x in out ==> Merged(out, x)
    ensures Merged(out, x) ==> x in out
  {
    if x in out {
      var i :| 0 <= i < |out| && out[i] == x;
      assert SameScope(out[i], x);
      forall v
        ensures v in x.verbs <==> HasVerb(out, x, v)
      {
        if HasVerb(out, x, v) {
          var j :| 0 <= j < |out| && SameScope(out[j], x) && v in out[j].verbs;
          assert !SameScope(out[i], out[j]) || i == j;
        }
      }
      assert Merged(cs, x);
    }
    if Merged(out, x) {
      var i :| 0 <= i < |out| && SameScope(out[i], x);
      assert out[i] in out;
      forall v
        ensures v in x.verbs <==> v in out[i].verbs
      {
        if HasVerb(out, x, v) {
          var j :| 0 <= j < |out| && SameScope(out[j], x) && v in out[j].verbs;
          assert SameScope(out[i], out[j]);
        }
      }
      assert Merged(cs, out[i]);
      LessIsStrict();
      SortedListsAgree(Less, x.verbs, out[i].verbs);
    }
  }

  /** Aggregating the aggregate changes nothing. */
  lemma AggregateIsIdempotent(rules: seq<Rule>)
    requires WellFormed(rules)
    ensures Aggregate(Aggregate(rules)) == Aggregate(rules)
  {
    var out := Aggregate(rules);
    AggregateIsCanonical(rules);
    forall i | 0 <= i < |out|
      ensures WellNamed(out[i]) && Canonical(out[i]) == out[i]
    {
      OutputIsCanonical(rules, out[i]);
    }
    assert AllCanonical(out) == out by {
      forall i | 0 <= i < |out|
        ensures AllCanonical(out)[i] == out[i]
      {
        CanonicalAt(out, i);
      }
    }
    AggregateIsCanonical(out);
    forall x
      ensures x in Aggregate(out) <==> x in out
    {
      MergedAgain(AllCanonical(rules), out, x);
    }
    RuleLessIsStrict();
    SortedListsAgree(RuleLess, Aggregate(out), out);
  }
}
