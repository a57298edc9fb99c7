/**
 What mesh.shift promises about a route.
 */
module MeshRoundTrip {
  import opened MeshShift

  /*
   A shift reaches its weight and touches nothing else, and restoring the logs of any stack of
   shifts, last shift first, gives the route back exactly when every overridden weight was absent or
   an integer.
  */

  function RefAt(rules: seq<Rule>, i: int, j: int): Ref
    requires At(rules, i, j)
  {
    rules[i].refs[j]
  }

  /** The same rules with the same number of entries, which differ at most in their refs. */
  ghost predicate SameShape(a: seq<Rule>, b: seq<Rule>) {
    |a| == |b| && forall i :: 0 <= i < |a| ==> SameRule(a[i], b[i])
  }

  predicate SameRule(a: Rule, b: Rule) {
    if a.Rule? then b.Rule? && a.rest == b.rest && |a.refs| == |b.refs| else a == b
  }

  lemma EqualEverywhere(a: seq<Rule>, b: seq<Rule>)
    requires SameShape(a, b)
    requires forall i, j :: At(a, i, j) ==> RefAt(a, i, j) == RefAt(b, i, j)
    ensures a == b
  {
    forall i | 0 <= i < |a|
      ensures a[i] == b[i]
    {
      assert SameRule(a[i], b[i]);
      if a[i].Rule? {
        forall j | 0 <= j < |a[i].refs|
          ensures a[i].refs[j] == b[i].refs[j]
        {
          assert At(a, i, j) && RefAt(a, i, j) == RefAt(b, i, j);
        }
        assert a[i].refs == b[i].refs;
      }
    }
  }

  // ---------------------------------------------------------------------------------------
  // One shift
  // ---------------------------------------------------------------------------------------

  lemma {:induction false} ShiftAt(rules: seq<Rule>, backend: string, weight: int)
    ensures SameShape(rules, Shift(rules, backend, weight))
    ensures forall i, j :: At(rules, i, j) ==> RefAt(Shift(rules, backend, weight), i, j) == ShiftRef(RefAt(rules, i, j), backend, weight)
  {
    forall i | 0 <= i < |rules|
      ensures SameRule(rules[i], Shift(rules, backend, weight)[i])
    {
      assert Shift(rules, backend, weight)[i] == ShiftRule(rules[i], backend, weight);
    }
  }

  /** After a shift every entry of the backend stands at the weight, and every other entry is what
      it was. */
  lemma {:induction false} ShiftReachesOnlyItsBackend(rules: seq<Rule>, backend: string, weight: int, i: int, j: int)
    requires At(rules, i, j)
    ensures var before, after := RefAt(rules, i, j), Shift(rules, backend, weight);
            && At(after, i, j)
            && (if before.Ref? && before.name == backend
                then RefAt(after, i, j) == before.(weight := RefAt(after, i, j).weight) && Effective(RefAt(after, i, j).weight) == weight
                else RefAt(after, i, j) == before)
  {
    ShiftAt(rules, backend, weight);
    assert SameRule(rules[i], Shift(rules, backend, weight)[i]);
  }

  // ---------------------------------------------------------------------------------------
  // Restoring, entry by entry
  // ---------------------------------------------------------------------------------------

  /** What a log does to the entry at (i, j). */
  function RestoredRef(ref: Ref, changes: seq<Change>, i: int, j: int): Ref {
    if changes == [] then ref
    else
      var before, ch := RestoredRef(ref, changes[..|changes| - 1], i, j), changes[|changes| - 1];
      if ch.rule == i && ch.ref == j then PutBack(before, ch) else before
  }

  lemma {:induction false} RestoreAt(rules: seq<Rule>, changes: seq<Change>)
    ensures SameShape(rules, Restore(rules, changes))
    ensures forall i, j :: At(rules, i, j) ==> RefAt(Restore(rules, changes), i, j) == RestoredRef(RefAt(rules, i, j), changes, i, j)
  {
    if changes != [] {
      var n := |changes| - 1;
      RestoreAt(rules, changes[..n]);
      var before := Restore(rules, changes[..n]);
      forall i | 0 <= i < |rules|
        ensures SameRule(rules[i], Restore(rules, changes)[i])
      {
        assert SameRule(rules[i], before[i]);
      }
      forall i, j | At(rules, i, j)
        ensures RefAt(Restore(rules, changes), i, j) == RestoredRef(RefAt(rules, i, j), changes, i, j)
      {
        assert SameRule(rules[i], before[i]) && RefAt(before, i, j) == RestoredRef(RefAt(rules, i, j), changes[..n], i, j);
      }
    }
  }

  lemma {:induction false} RestoredAppend(ref: Ref, first: seq<Change>, second: seq<Change>, i: int, j: int)
    ensures RestoredRef(ref, first + second, i, j) == RestoredRef(RestoredRef(ref, first, i, j), second, i, j)
  {
    if second == [] {
      assert first + second == first;
    } else {
      var n := |second| - 1;
      RestoredAppend(ref, first, second[..n], i, j);
      assert (first + second)[..|first + second| - 1] == first + second[..n];
    }
  }

  /** The log of the first bi entries of rule ri puts back exactly those among them that the shift
      overrode. */
  lemma {:induction false} RuleLogRestores(rules: seq<Rule>, backend: string, weight: int, ri: nat, bi: nat, ref: Ref, i: int, j: int)
    requires ri < |rules| && bi <= |RefsOf(rules[ri])| && At(rules, i, j)
    ensures RestoredRef(ref, RuleLog(rules, backend, weight, ri, bi), i, j) ==
            if i == ri && j < bi && Overrides(RefAt(rules, i, j), backend, weight) then PutBack(ref, ChangeFor(rules, i, j)) else ref
  {
    if bi > 0 {
      RuleLogRestores(rules, backend, weight, ri, bi - 1, ref, i, j);
      if Overrides(rules[ri].refs[bi - 1], backend, weight) {
        RestoredAppend(ref, RuleLog(rules, backend, weight, ri, bi - 1), [ChangeFor(rules, ri, bi - 1)], i, j);
        var before := RestoredRef(ref, RuleLog(rules, backend, weight, ri, bi - 1), i, j);
        assert [ChangeFor(rules, ri, bi - 1)][..0] == [];
        assert RestoredRef(before, [], i, j) == before;
        assert RuleLog(rules, backend, weight, ri, bi) == RuleLog(rules, backend, weight, ri, bi - 1) + [ChangeFor(rules, ri, bi - 1)];
      } else {
        assert RuleLog(rules, backend, weight, ri, bi) == RuleLog(rules, backend, weight, ri, bi - 1);
      }
    }
  }

  /** What the log of the first ri rules does to an entry. */
  function PutBackUpTo(rules: seq<Rule>, backend: string, weight: int, ri: nat, ref: Ref, i: int, j: int): Ref
    requires ri <= |rules| && At(rules, i, j)
  {
    if i < ri && Overrides(RefAt(rules, i, j), backend, weight) then PutBack(ref, ChangeFor(rules, i, j)) else ref
  }

  lemma {:induction false} OneRuleRestores(rules: seq<Rule>, backend: string, weight: int, ri: nat, first: seq<Change>, ref: Ref, i: int, j: int)
    requires ri < |rules| && At(rules, i, j) && RestoredRef(ref, first, i, j) == PutBackUpTo(rules, backend, weight, ri, ref, i, j)
    ensures RestoredRef(ref, first + WholeRuleLog(rules, backend, weight, ri), i, j) == PutBackUpTo(rules, backend, weight, ri + 1, ref, i, j)
  {
    RestoredAppend(ref, first, WholeRuleLog(rules, backend, weight, ri), i, j);
    RuleLogRestores(rules, backend, weight, ri, |RefsOf(rules[ri])|, RestoredRef(ref, first, i, j), i, j);
  }

  lemma {:induction false} LogRestores(rules: seq<Rule>, backend: string, weight: int, ri: nat, ref: Ref, i: int, j: int)
    requires ri <= |rules| && At(rules, i, j)
    ensures RestoredRef(ref, LogUpTo(rules, backend, weight, ri), i, j) == PutBackUpTo(rules, backend, weight, ri, ref, i, j)
  {
    if ri > 0 {
      var n := ri - 1;
      LogRestores(rules, backend, weight, n, ref, i, j);
      var first, more := LogUpTo(rules, backend, weight, n), WholeRuleLog(rules, backend, weight, n);
      OneRuleRestores(rules, backend, weight, n, first, ref, i, j);
      assert LogUpTo(rules, backend, weight, n + 1) == first + more by {
        LogGrows(rules, backend, weight, n);
      }
    }
  }

  // ---------------------------------------------------------------------------------------
  // A stack of shifts
  // ---------------------------------------------------------------------------------------

  datatype Weighting = Weighting(backend: string, weight: int)

  function ShiftAll(rules: seq<Rule>, shifts: seq<Weighting>): seq<Rule>
    decreases |shifts|
  {
    if shifts == [] then rules else ShiftAll(Shift(rules, shifts[0].backend, shifts[0].weight), shifts[1..])
  }

  /** The log of each shift, in the order they were made. */
  function LogsOf(rules: seq<Rule>, shifts: seq<Weighting>): (logs: seq<seq<Change>>)
    ensures |logs| == |shifts|
    decreases |shifts|
  {
    if shifts == [] then []
    else
      var s := shifts[0];
      [Log(rules, s.backend, s.weight)] + LogsOf(Shift(rules, s.backend, s.weight), shifts[1..])
  }

  /** Restore every log, the last one first. */
  function RestoreAll(rules: seq<Rule>, logs: seq<seq<Change>>): seq<Rule>
    decreases |logs|
  {
    if logs == [] then rules else Restore(RestoreAll(rules, logs[1..]), logs[0])
  }

  predicate Exact(w: Weight) {
    w.Absent? || w.Whole?
  }

  /** Some shift of the stack overrides this entry. */
  ghost predicate Overridden(ref: Ref, shifts: seq<Weighting>) {
    exists k :: 0 <= k < |shifts| && Overrides(ref, shifts[k].backend, shifts[k].weight)
  }

  /** What an overridden entry comes back as. */
  function Recorded(ref: Ref): Ref {
    if ref.OpaqueRef? then ref
    else ref.(weight := if ToInt(ref.weight).1 then Whole(ToInt(ref.weight).0) else Absent)
  }

  lemma OverriddenFirst(ref: Ref, shifts: seq<Weighting>)
    requires shifts != []
    ensures Overridden(ref, shifts) <==> Overrides(ref, shifts[0].backend, shifts[0].weight) || Overridden(ref, shifts[1..])
  {
    if Overridden(ref, shifts[1..]) {
      var k :| 0 <= k < |shifts[1..]| && Overrides(ref, shifts[1..][k].backend, shifts[1..][k].weight);
      assert shifts[k + 1] == shifts[1..][k];
    }
    if Overridden(ref, shifts) {
      var k :| 0 <= k < |shifts| && Overrides(ref, shifts[k].backend, shifts[k].weight);
      if k > 0 {
        assert shifts[1..][k - 1] == shifts[k];
      }
    }
  }

  /** Every entry is what it was, or what the log kept of it if some shift overrode it. */
  ghost predicate KeptOrRecorded(rules: seq<Rule>, shifts: seq<Weighting>, after: seq<Rule>) {
    && SameShape(rules, after)
    && forall i, j :: At(rules, i, j) ==>
         RefAt(after, i, j) == if Overridden(RefAt(rules, i, j), shifts) then Recorded(RefAt(rules, i, j)) else RefAt(rules, i, j)
  }

  /** One more shift outside, undone last. */
  lemma {:induction false} OuterShift(rules: seq<Rule>, shifts: seq<Weighting>, shifted: seq<Rule>, inner: seq<Rule>)
    requires shifts != [] && shifted == Shift(rules, shifts[0].backend, shifts[0].weight) && KeptOrRecorded(shifted, shifts[1..], inner)
    ensures KeptOrRecorded(rules, shifts, Restore(inner, Log(rules, shifts[0].backend, shifts[0].weight)))
  {
    var s := shifts[0];
    ShiftAt(rules, s.backend, s.weight);
    var log := Log(rules, s.backend, s.weight);
    RestoreAt(inner, log);
    var after := Restore(inner, log);
    forall i | 0 <= i < |rules|
      ensures SameRule(rules[i], after[i])
    {
      assert SameRule(rules[i], shifted[i]) && SameRule(shifted[i], inner[i]) && SameRule(inner[i], after[i]);
    }
    forall i, j | At(rules, i, j)
      ensures RefAt(after, i, j) == if Overridden(RefAt(rules, i, j), shifts) then Recorded(RefAt(rules, i, j)) else RefAt(rules, i, j)
    {
      assert SameRule(rules[i], shifted[i]) && SameRule(shifted[i], inner[i]);
      LogRestores(rules, s.backend, s.weight, |rules|, RefAt(inner, i, j), i, j);
      OverriddenFirst(RefAt(rules, i, j), shifts);
    }
  }

  /** After any stack of shifts and the restoration of its logs. */
  lemma {:induction false} StackAt(rules: seq<Rule>, shifts: seq<Weighting>)
    ensures KeptOrRecorded(rules, shifts, RestoreAll(ShiftAll(rules, shifts), LogsOf(rules, shifts)))
    decreases |shifts|
  {
    if shifts == [] {
      assert forall i, j :: At(rules, i, j) ==> !Overridden(RefAt(rules, i, j), shifts);
    } else {
      var s, rest := shifts[0], shifts[1..];
      var shifted := Shift(rules, s.backend, s.weight);
      StackAt(shifted, rest);
      OuterShift(rules, shifts, shifted, RestoreAll(ShiftAll(shifted, rest), LogsOf(shifted, rest)));
      assert LogsOf(rules, shifts)[0] == Log(rules, s.backend, s.weight) && LogsOf(rules, shifts)[1..] == LogsOf(shifted, rest);
    }
  }

  /** No shift of the stack overrides an entry whose weight the log cannot hold. */
  ghost predicate LogsAreExact(rules: seq<Rule>, shifts: seq<Weighting>) {
    forall i, j :: At(rules, i, j) && Overridden(RefAt(rules, i, j), shifts) ==> Exact(RefAt(rules, i, j).weight)
  }

  /** The stacked round trip, and the only thing that can spoil it. */
  lemma {:induction false} StackedRoundTrip(rules: seq<Rule>, shifts: seq<Weighting>)
    ensures RestoreAll(ShiftAll(rules, shifts), LogsOf(rules, shifts)) == rules <==> LogsAreExact(rules, shifts)
  {
    var after := RestoreAll(ShiftAll(rules, shifts), LogsOf(rules, shifts));
    StackAt(rules, shifts);
    if LogsAreExact(rules, shifts) {
      EqualEverywhere(rules, after);
    }
    if after == rules {
      forall i, j | At(rules, i, j) && Overridden(RefAt(rules, i, j), shifts)
        ensures Exact(RefAt(rules, i, j).weight)
      {
        assert RefAt(after, i, j) == Recorded(RefAt(rules, i, j));
      }
    }
  }

  /** A route whose weights are absent or integers, which is all the Gateway API admits. */
  ghost predicate Clean(rules: seq<Rule>) {
    forall i, j :: At(rules, i, j) && RefAt(rules, i, j).Ref? ==> Exact(RefAt(rules, i, j).weight)
  }

  lemma {:induction false} CleanRoundTrip(rules: seq<Rule>, shifts: seq<Weighting>)
    requires Clean(rules)
    ensures RestoreAll(ShiftAll(rules, shifts), LogsOf(rules, shifts)) == rules
  {
    StackedRoundTrip(rules, shifts);
  }

  /** One shift and the restoration of its log. */
  lemma {:induction false} RoundTrip(rules: seq<Rule>, backend: string, weight: int)
    requires Clean(rules)
    ensures Restore(Shift(rules, backend, weight), Log(rules, backend, weight)) == rules
    ensures Clean(Shift(rules, backend, weight))
  {
    var one := [Weighting(backend, weight)];
    assert one[1..] == [];
    CleanRoundTrip(rules, one);
    assert ShiftAll(Shift(rules, backend, weight), []) == Shift(rules, backend, weight);
    assert LogsOf(rules, one) == [Log(rules, backend, weight)];
    assert LogsOf(rules, one)[1..] == [];
    assert RestoreAll(ShiftAll(rules, one), []) == ShiftAll(rules, one);
    ShiftAt(rules, backend, weight);
    forall i, j | At(Shift(rules, backend, weight), i, j) && RefAt(Shift(rules, backend, weight), i, j).Ref?
      ensures Exact(RefAt(Shift(rules, backend, weight), i, j).weight)
    {
      assert SameRule(rules[i], Shift(rules, backend, weight)[i]) && At(rules, i, j);
    }
  }
}
