/** Exactly when the merge of permission rules grants what the rules grant. */
module RbacExact {
  import opened Sorting
  import opened Rbac
  import opened RbacMerge

  predicate Reaches(rule: Rule, group: string, resource: string) {
    group in rule.groups && resource in rule.resources
  }

  ghost predicate SameReach(a: Rule, b: Rule) {
    forall group, resource :: Reaches(a, group, resource) <==> Reaches(b, group, resource)
  }

  ghost predicate KeyTells(a: Rule, b: Rule) {
    KeyOf(Canonical(a)) == KeyOf(Canonical(b)) ==> SameReach(a, b)
  }

  /** Rules that share a key reach the same resources of the same groups. */
  ghost predicate KeysTell(rules: seq<Rule>) {
    forall i, j :: 0 <= i < |rules| && 0 <= j < |rules| ==> KeyTells(rules[i], rules[j])
  }

  /** Well-named rules are told apart by their keys. */
  lemma WellNamedKeysTell(rules: seq<Rule>)
    requires WellFormed(rules)
    ensures KeysTell(rules)
  {
    forall i, j | 0 <= i < |rules| && 0 <= j < |rules|
      ensures KeyTells(rules[i], rules[j])
    {
      assert WellNamed(rules[i]) && WellNamed(rules[j]);
      CanonicalWellNamed(rules[i]);
      CanonicalWellNamed(rules[j]);
      CanonicalElements(rules[i]);
      CanonicalElements(rules[j]);
      if KeyOf(Canonical(rules[i])) == KeyOf(Canonical(rules[j])) {
        KeyInjective(Canonical(rules[i]), Canonical(rules[j]));
      }
    }
  }

  // ---------------------------------------------------------------------------------------
  // What the buckets hold, whatever the rules are called
  // ---------------------------------------------------------------------------------------

  ghost predicate KeyVerb(rules: seq<Rule>, k: string, v: string) {
    exists i :: 0 <= i < |rules| && KeyOf(rules[i]) == k && v in rules[i].verbs
  }

  ghost predicate KeyScope(rules: seq<Rule>, k: string, s: Rule) {
    exists i :: 0 <= i < |rules| && KeyOf(rules[i]) == k && SameScope(rules[i], s)
  }

  lemma OneMoreKey(rules: seq<Rule>, last: Rule, k: string, v: string, s: Rule)
    ensures KeyVerb(rules + [last], k, v) <==> KeyVerb(rules, k, v) || (KeyOf(last) == k && v in last.verbs)
    ensures KeyScope(rules + [last], k, s) <==> KeyScope(rules, k, s) || (KeyOf(last) == k && SameScope(last, s))
  {
    var all := rules + [last];
    assert all[|rules|] == last;
    assert forall i :: 0 <= i < |rules| ==> all[i] == rules[i];
  }

  /** A bucket has the scope of one of the rules with its key, and the verbs of all of them. */
  lemma {:induction false} BucketHolds(rules: seq<Rule>, k: string)
    ensures k in Collect(rules).buckets <==> k in Keys(rules)
    ensures k in Collect(rules).buckets ==>
              && KeyScope(rules, k, ScopeOf(Collect(rules).buckets[k]))
              && forall v :: v in Collect(rules).buckets[k].verbs <==> KeyVerb(rules, k, v)
  {
    CollectKeys(rules);
    if rules != [] {
      var init, last := rules[..|rules| - 1], rules[|rules| - 1];
      BucketHolds(init, k);
      assert rules == init + [last];
      if k in Collect(rules).buckets {
        OneMoreKey(init, last, k, "", ScopeOf(Collect(rules).buckets[k]));
        forall v
          ensures v in Collect(rules).buckets[k].verbs <==> KeyVerb(rules, k, v)
        {
          OneMoreKey(init, last, k, v, last);
          NoSuchKey(init, k, v);
        }
      }
    }
  }

  lemma {:induction false} NoSuchKey(rules: seq<Rule>, k: string, v: string)
    requires k in Collect(rules).buckets <==> k in Keys(rules)
    ensures k !in Collect(rules).buckets ==> !KeyVerb(rules, k, v)
  {
    assert forall i :: 0 <= i < |rules| ==> Keys(rules)[i] in Keys(rules);
  }

  ghost predicate BucketCovers(t: Table, k: string, group: string, resource: string, verb: string) {
    k in t.buckets && group in t.buckets[k].groups && resource in t.buckets[k].resources && verb in t.buckets[k].verbs
  }

  ghost predicate SomeBucketCovers(t: Table, group: string, resource: string, verb: string) {
    exists k :: BucketCovers(t, k, group, resource, verb)
  }

  lemma {:induction false} EmittedCovers(t: Table, i: nat, group: string, resource: string, verb: string)
    requires Ordered(t) && i < |t.order|
    ensures Covers(Emit(t, |t.order|)[i], group, resource, verb) <==> BucketCovers(t, t.order[i], group, resource, verb)
  {
    assert t.order[i] in t.order;
    EmitAt(t, |t.order|, i);
    SortedSetSorts(t.buckets[t.order[i]].verbs);
  }

  lemma {:induction false} EmissionGrants(t: Table, group: string, resource: string, verb: string)
    requires Ordered(t)
    ensures Grants(Emit(t, |t.order|), group, resource, verb) <==> SomeBucketCovers(t, group, resource, verb)
  {
    var emitted := Emit(t, |t.order|);
    if Grants(emitted, group, resource, verb) {
      var i :| 0 <= i < |emitted| && Covers(emitted[i], group, resource, verb);
      EmittedCovers(t, i, group, resource, verb);
    }
    if k :| BucketCovers(t, k, group, resource, verb) {
      var i :| 0 <= i < |t.order| && t.order[i] == k;
      EmittedCovers(t, i, group, resource, verb);
    }
  }

  lemma SameRulesGrant(a: seq<Rule>, b: seq<Rule>, group: string, resource: string, verb: string)
    requires forall x :: x in a ==> x in b
    ensures Grants(a, group, resource, verb) ==> Grants(b, group, resource, verb)
  {
    if Grants(a, group, resource, verb) {
      var i :| 0 <= i < |a| && Covers(a[i], group, resource, verb);
      assert a[i] in b;
      var j :| 0 <= j < |b| && b[j] == a[i];
      assert Covers(b[j], group, resource, verb);
    }
  }

  /** What the aggregate grants is what some bucket covers. */
  lemma {:induction false} AggregateGrants(rules: seq<Rule>, group: string, resource: string, verb: string)
    ensures Grants(Aggregate(rules), group, resource, verb) <==> SomeBucketCovers(Collect(AllCanonical(rules)), group, resource, verb)
  {
    CollectKeys(AllCanonical(rules));
    var t := Collect(AllCanonical(rules));
    EmissionGrants(t, group, resource, verb);
    SortingGrants(Emit(t, |t.order|), group, resource, verb);
    assert Aggregate(rules) == SortBy(RuleLess, Emit(t, |t.order|));
  }

  lemma {:induction false} SortingGrants(rules: seq<Rule>, group: string, resource: string, verb: string)
    ensures Grants(SortBy(RuleLess, rules), group, resource, verb) <==> Grants(rules, group, resource, verb)
  {
    SameElements(SortBy(RuleLess, rules), rules);
    SameRulesGrant(SortBy(RuleLess, rules), rules, group, resource, verb);
    SameRulesGrant(rules, SortBy(RuleLess, rules), group, resource, verb);
  }

  // ---------------------------------------------------------------------------------------
  // Telling keys suffice
  // ---------------------------------------------------------------------------------------

  lemma {:induction false} CanonicalReach(rules: seq<Rule>, i: nat, group: string, resource: string)
    requires i < |rules|
    ensures Reaches(AllCanonical(rules)[i], group, resource) <==> Reaches(rules[i], group, resource)
    ensures AllCanonical(rules)[i] == Canonical(rules[i]) && AllCanonical(rules)[i].verbs == rules[i].verbs
  {
    CanonicalAt(rules, i);
    CanonicalElements(rules[i]);
  }

  /** The bucket of rule j reaches what rule j reaches. */
  lemma {:induction false} BucketReach(rules: seq<Rule>, j: nat, group: string, resource: string)
    requires KeysTell(rules) && j < |rules|
    ensures var t, k := Collect(AllCanonical(rules)), KeyOf(Canonical(rules[j]));
            k in t.buckets && (group in t.buckets[k].groups && resource in t.buckets[k].resources <==> Reaches(rules[j], group, resource))
  {
    var cs, k := AllCanonical(rules), KeyOf(Canonical(rules[j]));
    CanonicalReach(rules, j, group, resource);
    assert Keys(cs)[j] == k;
    BucketHolds(cs, k);
    var s := ScopeOf(Collect(cs).buckets[k]);
    var i :| 0 <= i < |cs| && KeyOf(cs[i]) == k && SameScope(cs[i], s);
    CanonicalReach(rules, i, group, resource);
    assert KeyTells(rules[i], rules[j]);
  }

  /** The aggregated rules grant exactly what the plugins' rules grant. */
  lemma AggregateIsExact(rules: seq<Rule>, group: string, resource: string, verb: string)
    requires KeysTell(rules)
    ensures Grants(Aggregate(rules), group, resource, verb) <==> Grants(rules, group, resource, verb)
  {
    var cs := AllCanonical(rules);
    var t := Collect(cs);
    AggregateGrants(rules, group, resource, verb);
    if k :| BucketCovers(t, k, group, resource, verb) {
      BucketHolds(cs, k);
      var j :| 0 <= j < |cs| && KeyOf(cs[j]) == k && verb in cs[j].verbs;
      CanonicalReach(rules, j, group, resource);
      BucketReach(rules, j, group, resource);
      assert Covers(rules[j], group, resource, verb);
    }
    if Grants(rules, group, resource, verb) {
      var j :| 0 <= j < |rules| && Covers(rules[j], group, resource, verb);
      CanonicalReach(rules, j, group, resource);
      BucketReach(rules, j, group, resource);
      BucketHolds(cs, KeyOf(cs[j]));
      assert KeyVerb(cs, KeyOf(cs[j]), verb);
      assert BucketCovers(t, KeyOf(cs[j]), group, resource, verb);
    }
  }

  // ---------------------------------------------------------------------------------------
  // And they are needed
  // ---------------------------------------------------------------------------------------

  ghost predicate SameScopes(a: seq<Rule>, b: seq<Rule>) {
    |a| == |b| && forall i :: 0 <= i < |a| ==> SameScope(a[i], b[i])
  }

  lemma {:induction false} CanonicalSameScopes(a: seq<Rule>, b: seq<Rule>)
    requires SameScopes(a, b)
    ensures SameScopes(AllCanonical(a), AllCanonical(b))
  {
    forall i | 0 <= i < |a|
      ensures SameScope(AllCanonical(a)[i], AllCanonical(b)[i])
    {
      assert SameScope(a[i], b[i]);
      CanonicalAt(a, i);
      CanonicalAt(b, i);
    }
  }

  /** Which bucket has which scope does not depend on verbs. */
  lemma {:induction false} SameScopesSameBuckets(a: seq<Rule>, b: seq<Rule>, k: string)
    requires SameScopes(a, b)
    ensures k in Collect(a).buckets <==> k in Collect(b).buckets
    ensures k in Collect(a).buckets ==> SameScope(ScopeOf(Collect(a).buckets[k]), ScopeOf(Collect(b).buckets[k]))
  {
    if a != [] {
      var n := |a| - 1;
      assert SameScope(a[n], b[n]);
      SameScopesSameBuckets(a[..n], b[..n], k);
    }
  }

  ghost predicate ExactFor(rules: seq<Rule>) {
    forall group, resource, verb :: Grants(Aggregate(rules), group, resource, verb) <==> Grants(rules, group, resource, verb)
  }

  /** Exact for these scopes, whichever verbs are asked for in them. */
  ghost predicate ExactWhateverVerbs(rules: seq<Rule>) {
    forall other :: SameScopes(rules, other) ==> ExactFor(other)
  }

  /** The same scopes, but only rule q asks for anything. */
  function OnlyAsks(rules: seq<Rule>, q: nat): (out: seq<Rule>)
    requires q < |rules|
    ensures |out| == |rules|
    ensures forall i :: 0 <= i < |rules| ==> out[i] == rules[i].(verbs := if i == q then ["use"] else [])
  {
    seq(|rules|, i requires 0 <= i < |rules| => rules[i].(verbs := if i == q then ["use"] else []))
  }

  /** If only rule q asks, and the aggregate is exact, q's bucket reaches what q reaches. */
  lemma {:induction false} ExactBucketReach(rules: seq<Rule>, q: nat, group: string, resource: string)
    requires ExactWhateverVerbs(rules) && q < |rules|
    ensures var t, k := Collect(AllCanonical(rules)), KeyOf(Canonical(rules[q]));
            k in t.buckets && (Reaches(ScopeOf(t.buckets[k]), group, resource) <==> Reaches(rules[q], group, resource))
  {
    var asks := OnlyAsks(rules, q);
    var cs, k := AllCanonical(asks), KeyOf(Canonical(rules[q]));
    assert SameScopes(rules, asks) && ExactFor(asks);
    CanonicalSameScopes(rules, asks);
    SameScopesSameBuckets(AllCanonical(rules), cs, k);
    CanonicalReach(asks, q, group, resource);
    BucketHolds(cs, k);
    assert Keys(cs)[q] == k;
    assert "use" in cs[q].verbs && KeyVerb(cs, k, "use");
    AggregateGrants(asks, group, resource, "use");
    if Reaches(rules[q], group, resource) {
      assert Covers(asks[q], group, resource, "use");
      var l :| BucketCovers(Collect(cs), l, group, resource, "use");
      OnlyKeyAsks(rules, q, l);
    } else {
      assert !Grants(asks, group, resource, "use");
      assert !BucketCovers(Collect(cs), k, group, resource, "use");
    }
  }

  lemma OnlyKeyAsks(rules: seq<Rule>, q: nat, k: string)
    requires q < |rules|
    requires var t := Collect(AllCanonical(OnlyAsks(rules, q)));
             k in t.buckets && "use" in t.buckets[k].verbs
    ensures k == KeyOf(Canonical(rules[q]))
  {
    var asks := OnlyAsks(rules, q);
    var cs := AllCanonical(asks);
    BucketHolds(cs, k);
    var i :| 0 <= i < |cs| && KeyOf(cs[i]) == k && "use" in cs[i].verbs;
    CanonicalAt(asks, i);
    CanonicalAt(asks, q);
  }

  /** For given scopes the merge is exact whatever verbs are asked for if and only if scopes that share
      a key reach the same. */
  lemma AggregateIsExactExactly(rules: seq<Rule>)
    ensures ExactWhateverVerbs(rules) <==> KeysTell(rules)
  {
    if ExactWhateverVerbs(rules) {
      forall i, j | 0 <= i < |rules| && 0 <= j < |rules|
        ensures KeyTells(rules[i], rules[j])
      {
        if KeyOf(Canonical(rules[i])) == KeyOf(Canonical(rules[j])) {
          forall group, resource
            ensures Reaches(rules[i], group, resource) <==> Reaches(rules[j], group, resource)
          {
            ExactBucketReach(rules, i, group, resource);
            ExactBucketReach(rules, j, group, resource);
          }
        }
      }
    }
    if KeysTell(rules) {
      forall other | SameScopes(rules, other)
        ensures ExactFor(other)
      {
        SameScopesTell(rules, other);
        forall group, resource, verb {
          AggregateIsExact(other, group, resource, verb);
        }
      }
    }
  }

  lemma SameScopesTell(rules: seq<Rule>, other: seq<Rule>)
    requires KeysTell(rules) && SameScopes(rules, other)
    ensures KeysTell(other)
  {
    forall i, j | 0 <= i < |other| && 0 <= j < |other|
      ensures KeyTells(other[i], other[j])
    {
      assert SameScope(rules[i], other[i]) && SameScope(rules[j], other[j]) && KeyTells(rules[i], rules[j]);
      assert forall group, resource :: Reaches(other[i], group, resource) <==> Reaches(rules[i], group, resource);
      assert forall group, resource :: Reaches(other[j], group, resource) <==> Reaches(rules[j], group, resource);
    }
  }

  /** A rule without groups shares its key with a rule for the core group on the same resources, and
      reaches nothing: in any list that holds both, some verb leaks or is lost. */
  lemma EmptyGroupsLeakVerbs(rules: seq<Rule>, i: nat, j: nat)
    requires i < |rules| && j < |rules| && rules[i].groups == [""] && rules[j].groups == []
    requires rules[i].resources == rules[j].resources != []
    ensures !ExactWhateverVerbs(rules)
  {
    AggregateIsExactExactly(rules);
    SortedSetIs(Elems([""]), [""]);
    SortedSetIs(Elems([]), []);
    assert KeyOf(Canonical(rules[i])) == KeyOf(Canonical(rules[j]));
    assert Reaches(rules[i], "", rules[i].resources[0]) && !Reaches(rules[j], "", rules[i].resources[0]);
    assert !KeyTells(rules[i], rules[j]);
  }
}
