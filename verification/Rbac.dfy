/**
 Merging the permissions plugins ask for (internal/action/rbac.go): exact, canonical, independent
 of the order of plugins, and idempotent.
 */
module Rbac {
  import opened Sorting

  datatype Rule = Rule(groups: seq<string>, resources: seq<string>, verbs: seq<string>)

  datatype Bucket = Bucket(groups: seq<string>, resources: seq<string>, verbs: set<string>)

  /** The buckets by key, and the keys in the order they were first seen. */
  datatype Table = Table(buckets: map<string, Bucket>, order: seq<string>)

  /** The unit separator, and what stands between groups and resources in a key. */
  const UNIT := '\U{1F}'
  const BAR := '|'
  const COMMA := ','

  function Elems(s: seq<string>): set<string> {
    set x | x in s
  }

  // ---------------------------------------------------------------------------------------
  // Sorted lists of sets
  // ---------------------------------------------------------------------------------------

  /** Some list of the members, each once. */
  ghost function ListOf(s: set<string>): (out: seq<string>)
    ensures Distinct(out) && forall x :: x in out <==> x in s
    decreases |s|
  {
    if s == {} then []
    else
      var x :| x in s;
      assert forall y :: y in s <==> y == x || y in s - {x};
      ListOf(s - {x}) + [x]
  }

  ghost predicate Sorts(out: seq<string>, s: set<string>) {
    Increasing(Less, out) && forall x :: x in out <==> x in s
  }

  lemma SomeListSorts(s: set<string>)
    ensures exists out :: Sorts(out, s)
  {
    DistinctSort(ListOf(s));
    assert Sorts(SortBy(Less, ListOf(s)), s);
  }

  /** The members in increasing order; there is only one such list. */
  ghost function SortedSet(s: set<string>): seq<string> {
    SomeListSorts(s);
    var out :| Sorts(out, s);
    out
  }

  lemma SortedSetSorts(s: set<string>)
    ensures Increasing(Less, SortedSet(s)) && forall x :: x in SortedSet(s) <==> x in s
  {
    assert Sorts(SortedSet(s), s);
  }

  lemma SortedSetIs(s: set<string>, out: seq<string>)
    requires Increasing(Less, out) && forall x :: x in out <==> x in s
    ensures out == SortedSet(s)
  {
    LessIsStrict();
    SortedSetSorts(s);
    SortedListsAgree(Less, out, SortedSet(s));
  }

  /** dedupeSort */
  method DedupeSort(list: seq<string>) returns (out: seq<string>)
    ensures out == SortedSet(Elems(list))
  {
    var seen: set<string> := {};
    out := [];
    for i := 0 to |list|
      invariant Distinct(out)
      invariant forall x :: x in out <==> x in seen
      invariant forall x :: x in seen <==> x in list[..i]
    {
      assert list[..i + 1] == list[..i] + [list[i]];
      if list[i] in seen {
        continue;
      }
      seen := seen + {list[i]};
      out := out + [list[i]];
    }
    assert list[..|list|] == list;
    DistinctSort(out);
    out := SortBy(Less, out);
    SortedSetIs(Elems(list), out);
  }

  /** setToSorted: the set's members in whatever order the map gives them, then sorted. */
  method SetToSorted(members: set<string>) returns (out: seq<string>)
    ensures out == SortedSet(members)
  {
    out := [];
    var rest := members;
    while rest != {}
      invariant Distinct(out)
      invariant forall x :: x in members <==> x in out || x in rest
      invariant forall x :: x in out ==> x !in rest
      decreases |rest|
    {
      var x :| x in rest;
      rest := rest - {x};
      out := out + [x];
    }
    DistinctSort(out);
    out := SortBy(Less, out);
    SortedSetIs(members, out);
  }

  // ---------------------------------------------------------------------------------------
  // What aggregation computes
  // ---------------------------------------------------------------------------------------

  function Key(groups: seq<string>, resources: seq<string>): string {
    Join(groups, UNIT) + [BAR] + Join(resources, UNIT)
  }

  /** The rule with its groups and resources as sorted sets. */
  ghost function Canonical(rule: Rule): Rule {
    Rule(SortedSet(Elems(rule.groups)), SortedSet(Elems(rule.resources)), rule.verbs)
  }

  ghost function AllCanonical(rules: seq<Rule>): (out: seq<Rule>)
    ensures |out| == |rules|
  {
    if rules == [] then [] else AllCanonical(rules[..|rules| - 1]) + [Canonical(rules[|rules| - 1])]
  }

  lemma {:induction false} CanonicalAt(rules: seq<Rule>, i: nat)
    requires i < |rules|
    ensures AllCanonical(rules)[i] == Canonical(rules[i])
  {
    if i < |rules| - 1 {
      CanonicalAt(rules[..|rules| - 1], i);
    }
  }

  function KeyOf(rule: Rule): string {
    Key(rule.groups, rule.resources)
  }

  /** Filing one canonical rule. */
  function Add(t: Table, rule: Rule): Table {
    var k := KeyOf(rule);
    if k in t.buckets then
      t.(buckets := t.buckets[k := t.buckets[k].(verbs := t.buckets[k].verbs + Elems(rule.verbs))])
    else
      Table(t.buckets[k := Bucket(rule.groups, rule.resources, Elems(rule.verbs))], t.order + [k])
  }

  function Collect(rules: seq<Rule>): Table {
    if rules == [] then Table(map[], []) else Add(Collect(rules[..|rules| - 1]), rules[|rules| - 1])
  }

  ghost function EmitOne(t: Table, k: string): Rule
    requires k in t.buckets
  {
    Rule(t.buckets[k].groups, t.buckets[k].resources, SortedSet(t.buckets[k].verbs))
  }

  /** One rule per bucket among the first n keys. */
  ghost function Emit(t: Table, n: nat): (out: seq<Rule>)
    requires n <= |t.order| && forall k :: k in t.order ==> k in t.buckets
    ensures |out| == n
  {
    if n == 0 then [] else Emit(t, n - 1) + [EmitOne(t, t.order[n - 1])]
  }

  lemma {:induction false} EmitAt(t: Table, n: nat, i: nat)
    requires i < n <= |t.order| && forall k :: k in t.order ==> k in t.buckets
    ensures Emit(t, n)[i] == EmitOne(t, t.order[i])
  {
    if i < n - 1 {
      EmitAt(t, n - 1, i);
    }
  }

  /** The comparison rules are sorted by. */
  predicate RuleLess(a: Rule, b: Rule) {
    var ga, gb := Join(a.groups, COMMA), Join(b.groups, COMMA);
    if ga != gb then Less(ga, gb) else Less(Join(a.resources, COMMA), Join(b.resources, COMMA))
  }

  ghost function Aggregate(rules: seq<Rule>): seq<Rule> {
    CollectKeys(AllCanonical(rules));
    SortBy(RuleLess, Emit(Collect(AllCanonical(rules)), |Collect(AllCanonical(rules)).order|))
  }

  function Flatten(plugins: seq<seq<Rule>>): seq<Rule> {
    if plugins == [] then [] else Flatten(plugins[..|plugins| - 1]) + plugins[|plugins| - 1]
  }

  /** The key of each rule. */
  function Keys(rules: seq<Rule>): (out: seq<string>)
    ensures |out| == |rules| && forall i :: 0 <= i < |rules| ==> out[i] == KeyOf(rules[i])
  {
    if rules == [] then [] else Keys(rules[..|rules| - 1]) + [KeyOf(rules[|rules| - 1])]
  }

  /** The order lists exactly the keys of the buckets, each once. */
  ghost predicate Ordered(t: Table) {
    Distinct(t.order) && forall k :: k in t.order <==> k in t.buckets
  }

  lemma AddKeys(t: Table, rule: Rule)
    requires Ordered(t)
    ensures Ordered(Add(t, rule))
    ensures forall k :: k in Add(t, rule).buckets <==> k in t.buckets || k == KeyOf(rule)
  {
  }

  lemma {:induction false} CollectKeys(rules: seq<Rule>)
    ensures Ordered(Collect(rules))
    ensures forall k :: k in Collect(rules).buckets <==> k in Keys(rules)
  {
    if rules != [] {
      var n := |rules| - 1;
      CollectKeys(rules[..n]);
      AddKeys(Collect(rules[..n]), rules[n]);
    }
  }

  /** The merge of permission rules: buckets by key, in first-seen order, then sorted. */
  method AggregatePermissions(plugins: seq<seq<Rule>>) returns (rules: seq<Rule>)
    ensures rules == Aggregate(Flatten(plugins))
  {
    ghost var all := Flatten(plugins);
    var table := CollectAll(plugins);
    CollectKeys(AllCanonical(all));
    rules := EmitAll(table);
    rules := SortBy(RuleLess, rules);
  }

  /** The loop over the plugins. */
  method CollectAll(plugins: seq<seq<Rule>>) returns (table: Table)
    ensures table == Collect(AllCanonical(Flatten(plugins)))
  {
    table := Table(map[], []);
    for p := 0 to |plugins|
      invariant table == Collect(AllCanonical(Flatten(plugins[..p])))
    {
      table := AddRules(table, plugins[p], Flatten(plugins[..p]));
      assert plugins[..p + 1][..p] == plugins[..p];
    }
    assert plugins[..|plugins|] == plugins;
  }

  /** The loop over the keys in first-seen order. */
  method EmitAll(table: Table) returns (rules: seq<Rule>)
    requires Ordered(table)
    ensures rules == Emit(table, |table.order|)
  {
    rules := [];
    for i := 0 to |table.order|
      invariant rules == Emit(table, i)
    {
      var b := table.buckets[table.order[i]];
      var verbs := SetToSorted(b.verbs);
      rules := rules + [Rule(b.groups, b.resources, verbs)];
    }
  }

  /** What has been collected from the first n rules. */
  ghost function CollectFirst(rules: seq<Rule>, n: nat): Table
    requires n <= |rules|
  {
    Collect(AllCanonical(rules[..n]))
  }

  lemma CollectOneMore(rules: seq<Rule>, n: nat)
    requires n < |rules|
    ensures CollectFirst(rules, n + 1) == Add(CollectFirst(rules, n), Canonical(rules[n]))
  {
    assert rules[..n + 1][..n] == rules[..n];
    var out := AllCanonical(rules[..n + 1]);
    assert out[..|out| - 1] == AllCanonical(rules[..n]);
  }

  lemma {:induction false} CollectPrefix(before: seq<Rule>, rules: seq<Rule>)
    ensures CollectFirst(before + rules, |before|) == Collect(AllCanonical(before))
    ensures CollectFirst(before + rules, |before + rules|) == Collect(AllCanonical(before + rules))
  {
    assert (before + rules)[..|before|] == before;
    assert (before + rules)[..|before + rules|] == before + rules;
  }

  /** The loop over one plugin's rules, which come after the rules in `before`. */
  method AddRules(table: Table, rules: seq<Rule>, ghost before: seq<Rule>) returns (after: Table)
    requires table == Collect(AllCanonical(before))
    ensures after == Collect(AllCanonical(before + rules))
  {
    after := table;
    ghost var all := before + rules;
    CollectPrefix(before, rules);
    for i := 0 to |rules|
      invariant after == CollectFirst(all, |before| + i)
    {
      CollectOneMore(all, |before| + i);
      assert all[|before| + i] == rules[i];
      after := AddRule(after, rules[i]);
    }
  }

  /** What it does for one rule. */
  method AddRule(table: Table, rule: Rule) returns (after: Table)
    ensures after == Add(table, Canonical(rule))
  {
    var groups := DedupeSort(rule.groups);
    var resources := DedupeSort(rule.resources);
    var k := Key(groups, resources);
    var b := if k in table.buckets then table.buckets[k] else Bucket(groups, resources, {});
    var order := if k in table.buckets then table.order else table.order + [k];
    b := AddVerbs(b, rule.verbs);
    assert {} + Elems(rule.verbs) == Elems(rule.verbs);
    after := Table(table.buckets[k := b], order);
  }

  method AddVerbs(bucket: Bucket, verbs: seq<string>) returns (b: Bucket)
    ensures b == bucket.(verbs := bucket.verbs + Elems(verbs))
  {
    b := bucket;
    for i := 0 to |verbs|
      invariant b == bucket.(verbs := b.verbs)
      invariant forall x :: x in b.verbs <==> x in bucket.verbs || x in verbs[..i]
    {
      b := b.(verbs := b.verbs + {verbs[i]});
      assert verbs[..i + 1] == verbs[..i] + [verbs[i]];
    }
    assert verbs[..|verbs|] == verbs;
  }
}
