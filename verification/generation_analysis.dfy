/** Classification of sibling components under a bounded number of comparisons (src/generation.rs). */
module GenerationAnalysis {
  import opened Common
  import opened Ordering
  import opened Generations
  import opened GenerationComponents

  // ----- specification of one component -----

  predicate InEntries(v: Entries, comp: seq<Pr>) {
    StrictlyAscending(comp) && comp != [] && forall p :: p in comp ==> p in v
  }

  /** Pairs (s, t) with s < t < n and s < i. */
  function PairsBefore(n: nat, i: nat): nat
    requires i <= n
  {
    if i == 0 then 0 else PairsBefore(n, i - 1) + (n - i)
  }

  lemma {:induction false} PairsGrow(n: nat, i: nat, k: nat)
    requires i <= k <= n
    ensures PairsBefore(n, i) <= PairsBefore(n, k)
    decreases k - i
  {
    if i < k {
      PairsGrow(n, i, k - 1);
    }
  }

  /** The comparison of positions i < j, unless the global bound is spent. */
  function RelationAt(v: Entries, comp: seq<Pr>, used: nat, oracle: Oracle, i: nat, j: nat): Relation
    requires InEntries(v, comp) && i < j < |comp|
  {
    var number := used + PairsBefore(|comp|, i) + (j - i - 1);
    if number >= MAX_COMPARISONS then Unknown
    else oracle(number, v[comp[i]].provenance.sourceHead, v[comp[j]].provenance.sourceHead)
  }

  predicate Holds(relation: Relation, reversed: bool) {
    match relation
    case Identical => true
    case Ahead => !reversed
    case Behind => reversed
    case _ => false
  }

  /** The generation at position i is proved to contain the one at position j. */
  predicate Contains(v: Entries, comp: seq<Pr>, used: nat, oracle: Oracle, i: nat, j: nat)
    requires InEntries(v, comp) && i < |comp| && j < |comp|
  {
    if i == j then true
    else if j < i then Holds(RelationAt(v, comp, used, oracle, j, i), false)
    else Holds(RelationAt(v, comp, used, oracle, i, j), true)
  }

  ghost predicate IsMaximum(v: Entries, comp: seq<Pr>, used: nat, oracle: Oracle, i: nat)
    requires InEntries(v, comp) && i < |comp|
  {
    forall j :: 0 <= j < |comp| ==> Contains(v, comp, used, oracle, i, j)
  }

  ghost function Maxima(v: Entries, comp: seq<Pr>, used: nat, oracle: Oracle): (m: set<Pr>)
    requires InEntries(v, comp)
    ensures forall i :: 0 <= i < |comp| ==> (comp[i] in m <==> IsMaximum(v, comp, used, oracle, i))
    ensures forall p :: p in m ==> p in comp
  {
    set i | 0 <= i < |comp| && IsMaximum(v, comp, used, oracle, i) :: comp[i]
  }

  /** Members whose reviewed link names every other member. */
  function Linked(v: Entries, comp: seq<Pr>): set<Pr>
    requires InEntries(v, comp)
  {
    set c | c in comp && forall other :: other in comp ==> other == c || other in v[c].fact.supersedes
  }

  function CreatedAt(v: Entries, p: Pr): string
    requires p in v
  {
    match v[p].fact.createdAt case Some(stamp) => stamp case None => ""
  }

  predicate Older(v: Entries, a: Pr, b: Pr)
    requires a in v && b in v
  {
    LexLess(CreatedAt(v, a), CreatedAt(v, b)) || (CreatedAt(v, a) == CreatedAt(v, b) && a < b)
  }

  lemma OlderIsTotal(v: Entries, a: Pr, b: Pr, c: Pr)
    requires a in v && b in v && c in v
    ensures a != b ==> (Older(v, a, b) <==> !Older(v, b, a))
    ensures !Older(v, a, a)
    ensures Older(v, a, b) && Older(v, b, c) ==> Older(v, a, c)
  {
    LexLessIsTotal(CreatedAt(v, a), CreatedAt(v, b));
    LexLessIsTotal(CreatedAt(v, a), CreatedAt(v, a));
    if LexLess(CreatedAt(v, a), CreatedAt(v, b)) && LexLess(CreatedAt(v, b), CreatedAt(v, c)) {
      LexLessIsTransitive(CreatedAt(v, a), CreatedAt(v, b), CreatedAt(v, c));
    }
  }

  /** The last element in creation order. */
  ghost predicate IsNewest(v: Entries, s: set<Pr>, p: Pr)
    requires s <= v.Keys
  {
    p in s && forall q :: q in s && q != p ==> Older(v, q, p)
  }

  lemma {:induction false} NewestExists(v: Entries, s: set<Pr>)
    requires s <= v.Keys && s != {}
    ensures exists p :: IsNewest(v, s, p)
    ensures forall p, q :: IsNewest(v, s, p) && IsNewest(v, s, q) ==> p == q
    decreases |s|
  {
    var x :| x in s;
    var rest := s - {x};
    if rest == {} {
      assert s == {x};
      assert IsNewest(v, s, x);
    } else {
      NewestExists(v, rest);
      var y :| IsNewest(v, rest, y);
      OlderIsTotal(v, x, y, x);
      if Older(v, x, y) {
        assert IsNewest(v, s, y);
      } else {
        assert Older(v, y, x);
        forall q | q in s && q != x
          ensures Older(v, q, x)
        {
          assert q in rest && (q != y ==> Older(v, q, y));
          OlderIsTotal(v, q, y, x);
        }
        assert IsNewest(v, s, x);
      }
    }
    forall p, q | IsNewest(v, s, p) && IsNewest(v, s, q)
      ensures p == q
    {
      OlderIsTotal(v, p, q, p);
    }
  }

  ghost function Newest(v: Entries, s: set<Pr>): (p: Pr)
    requires s <= v.Keys && s != {}
    ensures IsNewest(v, s, p)
  {
    NewestExists(v, s);
    var p :| IsNewest(v, s, p);
    p
  }

  datatype Verdict = Alone | Canonical(pr: Pr, authority: Authority) | Ambiguous

  ghost function VerdictOf(v: Entries, comp: seq<Pr>, used: nat, oracle: Oracle): (r: Verdict)
    requires InEntries(v, comp)
    ensures r.Canonical? ==> r.pr in comp
  {
    var linked := Linked(v, comp);
    var maxima := Maxima(v, comp, used, oracle);
    if |comp| == 1 then Alone
    else if linked != {} then
      (if |linked| == 1 then Canonical(Newest(v, linked), ReviewedLink) else Ambiguous)
    else if maxima != {} then Canonical(Newest(v, maxima), SourceContainment)
    else Ambiguous
  }

  function UsedAfter(v: Entries, comp: seq<Pr>, used: nat): nat
    requires InEntries(v, comp)
  {
    if |comp| == 1 || Linked(v, comp) != {} then used
    else Min(MAX_COMPARISONS, used + PairsBefore(|comp|, |comp|))
  }

  /** The component has more pairs than comparisons are left. */
  predicate Overflows(v: Entries, comp: seq<Pr>, used: nat)
    requires InEntries(v, comp)
  {
    |comp| > 1 && Linked(v, comp) == {} && used + PairsBefore(|comp|, |comp|) > MAX_COMPARISONS
  }

  function FindingFor(v: Entries, comp: seq<Pr>, verdict: Verdict, p: Pr): Finding
    requires p in v && (verdict.Canonical? ==> verdict.pr in v)
  {
    match verdict
    case Alone => CurrentFinding(p, comp)
    case Canonical(canonical, authority) =>
      if p == canonical then CurrentFinding(p, comp)
      else
        var evidence := Evidence(p, v[p].fact.providerHead, canonical, v[canonical].fact.providerHead, authority, true);
        Finding(p, SupersededGeneration, DurableSupersession, Preserve, Some(evidence), Some(canonical), comp)
    case Ambiguous => Finding(p, AmbiguousGeneration, TemporaryDeferral, Preserve, None, None, comp)
  }

  function CurrentFinding(p: Pr, comp: seq<Pr>): Finding {
    Finding(p, CurrentGeneration, Active, Preserve, None, Some(p), comp)
  }

  function FindingsFor(v: Entries, comp: seq<Pr>, verdict: Verdict, ps: seq<Pr>): Findings
    requires (forall p :: p in ps ==> p in v) && (verdict.Canonical? ==> verdict.pr in v)
  {
    map p | p in ps :: FindingFor(v, comp, verdict, p)
  }

  // ----- specification of a whole list -----

  predicate AllInEntries(v: Entries, cs: seq<seq<Pr>>) {
    forall i :: 0 <= i < |cs| ==> InEntries(v, cs[i])
  }

  /** Comparisons spent on the first i components. */
  function UsedBefore(v: Entries, cs: seq<seq<Pr>>, i: nat): (used: nat)
    requires AllInEntries(v, cs) && i <= |cs|
    ensures used <= MAX_COMPARISONS
  {
    if i == 0 then 0 else UsedAfter(v, cs[i - 1], UsedBefore(v, cs, i - 1))
  }

  /** One of the first n components had more pairs than comparisons were left. */
  predicate SomeOverflow(v: Entries, cs: seq<seq<Pr>>, n: nat)
    requires AllInEntries(v, cs) && n <= |cs|
  {
    n > 0 && (SomeOverflow(v, cs, n - 1) || Overflows(v, cs[n - 1], UsedBefore(v, cs, n - 1)))
  }

  ghost function VerdictAt(v: Entries, cs: seq<seq<Pr>>, oracle: Oracle, i: nat): (r: Verdict)
    requires AllInEntries(v, cs) && i < |cs|
    ensures r.Canonical? ==> r.pr in cs[i]
  {
    VerdictOf(v, cs[i], UsedBefore(v, cs, i), oracle)
  }

  ghost function FindingsUpTo(v: Entries, cs: seq<seq<Pr>>, oracle: Oracle, n: nat): Findings
    requires AllInEntries(v, cs) && n <= |cs|
  {
    if n == 0 then map[] else
      FindingsUpTo(v, cs, oracle, n - 1) + FindingsFor(v, cs[n - 1], VerdictAt(v, cs, oracle, n - 1), cs[n - 1])
  }

  lemma ComponentsAreInEntries(v: Entries)
    ensures AllInEntries(v, ComponentList(v, v.Keys))
  {
    ComponentListIsCorrect(v, v.Keys);
    var cs := ComponentList(v, v.Keys);
    forall i | 0 <= i < |cs|
      ensures InEntries(v, cs[i])
    {
      ListedComponentIsInEntries(v, cs, i);
    }
  }

  lemma ListedComponentIsInEntries(v: Entries, cs: seq<seq<Pr>>, i: nat)
    requires IsComponentList(v, v.Keys, cs) && i < |cs|
    ensures InEntries(v, cs[i])
  {
    forall p | p in cs[i]
      ensures p in v
    {
    }
  }

  ghost function Analysis(facts: seq<Fact>, oracle: Oracle): Findings {
    var v := ValidEntries(facts);
    var cs := ComponentList(v, v.Keys);
    ComponentsAreInEntries(v);
    InvalidFindings(facts) + FindingsUpTo(v, cs, oracle, |cs|)
  }

  // ----- the program -----

  /** Every pair before position (i, j), left to right, is recorded. */
  ghost predicate Compared(v: Entries, comp: seq<Pr>, used: nat, oracle: Oracle, relations: map<(Pr, Pr), Relation>, i: nat, j: nat)
    requires InEntries(v, comp)
  {
    forall s, t :: 0 <= s < t < |comp| && (s < i || (s == i && t < j)) ==>
      (comp[s], comp[t]) in relations && relations[(comp[s], comp[t])] == RelationAt(v, comp, used, oracle, s, t)
  }

  lemma ComparedGrows(v: Entries, comp: seq<Pr>, used: nat, oracle: Oracle, relations: map<(Pr, Pr), Relation>, i: nat, j: nat)
    requires InEntries(v, comp) && i < j < |comp| && Compared(v, comp, used, oracle, relations, i, j)
    ensures
      var grown := relations[(comp[i], comp[j]) := RelationAt(v, comp, used, oracle, i, j)];
      Compared(v, comp, used, oracle, grown, i, j + 1)
  {
  }

  /** Ask the oracle about every pair of a component, left to right, within the bound. */
  method CompareAll(v: Entries, comp: seq<Pr>, used0: nat, oracle: Oracle)
    returns (relations: map<(Pr, Pr), Relation>, used: nat, truncated: bool)
    requires InEntries(v, comp) && used0 <= MAX_COMPARISONS
    ensures Compared(v, comp, used0, oracle, relations, |comp|, 0)
    ensures used == Min(MAX_COMPARISONS, used0 + PairsBefore(|comp|, |comp|))
    ensures truncated == (used0 + PairsBefore(|comp|, |comp|) > MAX_COMPARISONS)
  {
    relations, used, truncated := map[], used0, false;
    for i := 0 to |comp|
      invariant Compared(v, comp, used0, oracle, relations, i, 0)
      invariant used == Min(MAX_COMPARISONS, used0 + PairsBefore(|comp|, i))
      invariant truncated == (used0 + PairsBefore(|comp|, i) > MAX_COMPARISONS)
    {
      relations, used, truncated := CompareRow(v, comp, used0, oracle, i, relations, used, truncated);
    }
  }

  /** The comparisons of position i with every later one. */
  method CompareRow(v: Entries, comp: seq<Pr>, ghost used0: nat, oracle: Oracle, i: nat,
                    relations0: map<(Pr, Pr), Relation>, used1: nat, truncated1: bool)
    returns (relations: map<(Pr, Pr), Relation>, used: nat, truncated: bool)
    requires InEntries(v, comp) && used0 <= MAX_COMPARISONS && i < |comp|
    requires Compared(v, comp, used0, oracle, relations0, i, 0)
    requires used1 == Min(MAX_COMPARISONS, used0 + PairsBefore(|comp|, i))
    requires truncated1 == (used0 + PairsBefore(|comp|, i) > MAX_COMPARISONS)
    ensures Compared(v, comp, used0, oracle, relations, i + 1, 0)
    ensures used == Min(MAX_COMPARISONS, used0 + PairsBefore(|comp|, i + 1))
    ensures truncated == (used0 + PairsBefore(|comp|, i + 1) > MAX_COMPARISONS)
  {
    relations, used, truncated := relations0, used1, truncated1;
    ghost var number := used0 + PairsBefore(|comp|, i);
    for j := i + 1 to |comp|
      invariant Compared(v, comp, used0, oracle, relations, i, j)
      invariant number == used0 + PairsBefore(|comp|, i) + (j - i - 1)
      invariant used == Min(MAX_COMPARISONS, number) && truncated == (number > MAX_COMPARISONS)
    {
      var relation := Unknown;
      if used >= MAX_COMPARISONS {
        truncated := true;
      } else {
        relation := oracle(used, v[comp[i]].provenance.sourceHead, v[comp[j]].provenance.sourceHead);
        used := used + 1;
      }
      number := number + 1;
      ComparedGrows(v, comp, used0, oracle, relations, i, j);
      relations := relations[(comp[i], comp[j]) := relation];
    }
  }

  /** The containment test of the program, which looks a pair up by its lower number. */
  predicate ContainsPr(relations: map<(Pr, Pr), Relation>, candidate: Pr, other: Pr) {
    if candidate == other then true
    else
      var (low, high, reversed) := if other < candidate then (other, candidate, false) else (candidate, other, true);
      (low, high) in relations && Holds(relations[(low, high)], reversed)
  }

  lemma MaximumByNumber(v: Entries, comp: seq<Pr>, used: nat, oracle: Oracle, relations: map<(Pr, Pr), Relation>, i: nat)
    requires InEntries(v, comp) && Compared(v, comp, used, oracle, relations, |comp|, 0) && i < |comp|
    ensures (forall other :: other in comp ==> ContainsPr(relations, comp[i], other)) <==> IsMaximum(v, comp, used, oracle, i)
  {
    forall j | 0 <= j < |comp|
      ensures ContainsPr(relations, comp[i], comp[j]) == Contains(v, comp, used, oracle, i, j)
    {
      assert i < j ==> comp[i] < comp[j];
      assert j < i ==> comp[j] < comp[i];
    }
  }

  ghost function MaximaBefore(v: Entries, comp: seq<Pr>, used: nat, oracle: Oracle, n: nat): set<Pr>
    requires InEntries(v, comp) && n <= |comp|
  {
    set i | 0 <= i < n && IsMaximum(v, comp, used, oracle, i) :: comp[i]
  }

  lemma MaximaBeforeNext(v: Entries, comp: seq<Pr>, used: nat, oracle: Oracle, n: nat)
    requires InEntries(v, comp) && n < |comp|
    ensures MaximaBefore(v, comp, used, oracle, n + 1)
         == MaximaBefore(v, comp, used, oracle, n) + if IsMaximum(v, comp, used, oracle, n) then {comp[n]} else {}
  {
  }

  method FindMaxima(v: Entries, comp: seq<Pr>, ghost used: nat, ghost oracle: Oracle, relations: map<(Pr, Pr), Relation>)
    returns (maxima: seq<Pr>)
    requires InEntries(v, comp)
    requires Compared(v, comp, used, oracle, relations, |comp|, 0)
    ensures Elements(maxima) == Maxima(v, comp, used, oracle)
  {
    maxima := [];
    for i := 0 to |comp|
      invariant Elements(maxima) == MaximaBefore(v, comp, used, oracle, i)
    {
      var all := forall other :: other in comp ==> ContainsPr(relations, comp[i], other);
      MaximumByNumber(v, comp, used, oracle, relations, i);
      MaximaBeforeNext(v, comp, used, oracle, i);
      if all {
        assert Elements(maxima + [comp[i]]) == Elements(maxima) + {comp[i]};
        maxima := maxima + [comp[i]];
      }
    }
  }

  /** Sort by creation, take the last. */
  method PickNewest(v: Entries, ps: seq<Pr>) returns (newest: Pr)
    requires ps != [] && forall p :: p in ps ==> p in v
    ensures IsNewest(v, Elements(ps), newest)
  {
    newest := ps[0];
    for i := 1 to |ps|
      invariant newest in ps[..i]
      invariant forall q :: q in ps[..i] && q != newest ==> Older(v, q, newest)
    {
      assert ps[..i + 1] == ps[..i] + [ps[i]];
      ghost var before := newest;
      if Older(v, newest, ps[i]) {
        newest := ps[i];
      }
      forall q | q in ps[..i + 1] && q != newest
        ensures Older(v, q, newest)
      {
        OlderIsTotal(v, q, before, newest);
        OlderIsTotal(v, before, ps[i], before);
      }
    }
    assert ps[..|ps|] == ps;
  }

  method Classify(v: Entries, comp: seq<Pr>, used0: nat, oracle: Oracle) returns (verdict: Verdict, used: nat, truncated: bool)
    requires InEntries(v, comp) && used0 <= MAX_COMPARISONS
    ensures verdict == VerdictOf(v, comp, used0, oracle)
    ensures used == UsedAfter(v, comp, used0)
    ensures truncated <==> Overflows(v, comp, used0)
  {
    if |comp| == 1 {
      return Alone, used0, false;
    }
    var linked := Linked(v, comp);
    if linked != {} {
      if |linked| == 1 {
        var canonical :| canonical in linked;
        OneElement(linked, canonical);
        assert Newest(v, linked) in linked;
        return Canonical(canonical, ReviewedLink), used0, false;
      }
      return Ambiguous, used0, false;
    }
    var relations;
    relations, used, truncated := CompareAll(v, comp, used0, oracle);
    var maxima := FindMaxima(v, comp, used0, oracle, relations);
    if maxima != [] {
      assert maxima[0] in Elements(maxima);
      assert forall p :: p in maxima ==> p in Elements(maxima);
      var canonical := PickNewest(v, maxima);
      NewestExists(v, Elements(maxima));
      return Canonical(canonical, SourceContainment), used, truncated;
    }
    return Ambiguous, used, truncated;
  }

  lemma OneElement(s: set<Pr>, x: Pr)
    requires x in s && |s| == 1
    ensures s == {x}
  {
    assert |s - {x}| == 0;
    assert s == {x} + (s - {x});
  }

  lemma RecordOne(findings: Findings, v: Entries, comp: seq<Pr>, verdict: Verdict, ps: seq<Pr>, p: Pr)
    requires (forall q :: q in ps ==> q in v) && p in v && (verdict.Canonical? ==> verdict.pr in v)
    ensures findings + FindingsFor(v, comp, verdict, ps + [p])
         == (findings + FindingsFor(v, comp, verdict, ps))[p := FindingFor(v, comp, verdict, p)]
  {
    var (a, b) := (FindingsFor(v, comp, verdict, ps), FindingsFor(v, comp, verdict, ps + [p]));
    assert b == a[p := FindingFor(v, comp, verdict, p)];
  }

  /** Record the verdict of one component for each of its members. */
  method Record(findings0: Findings, v: Entries, comp: seq<Pr>, verdict: Verdict) returns (findings: Findings)
    requires InEntries(v, comp) && (verdict.Canonical? ==> verdict.pr in comp)
    ensures findings == findings0 + FindingsFor(v, comp, verdict, comp)
  {
    findings := findings0;
    for i := 0 to |comp|
      invariant findings == findings0 + FindingsFor(v, comp, verdict, comp[..i])
    {
      assert comp[..i + 1] == comp[..i] + [comp[i]];
      RecordOne(findings0, v, comp, verdict, comp[..i], comp[i]);
      findings := findings[comp[i] := FindingFor(v, comp, verdict, comp[i])];
    }
    assert comp[..|comp|] == comp;
  }

  lemma MergeAssociates(a: Findings, b: Findings, c: Findings)
    ensures (a + b) + c == a + (b + c)
  {
  }

  method Analyze(facts: seq<Fact>, oracle: Oracle) returns (findings: Findings, used: nat, truncated: bool)
    ensures findings == Analysis(facts, oracle)
    ensures
      var v := ValidEntries(facts);
      var cs := ComponentList(v, v.Keys);
      && AllInEntries(v, cs)
      && used == UsedBefore(v, cs, |cs|) <= MAX_COMPARISONS
      && (truncated <==> SomeOverflow(v, cs, |cs|))
  {
    var v := ValidEntries(facts);
    var components := FindComponents(v);
    ComponentsAreInEntries(v);
    findings, used, truncated := ClassifyAll(v, components, InvalidFindings(facts), oracle);
  }

  method ClassifyAll(v: Entries, components: seq<seq<Pr>>, invalid: Findings, oracle: Oracle)
    returns (findings: Findings, used: nat, truncated: bool)
    requires AllInEntries(v, components)
    ensures findings == invalid + FindingsUpTo(v, components, oracle, |components|)
    ensures used == UsedBefore(v, components, |components|)
    ensures truncated <==> SomeOverflow(v, components, |components|)
  {
    findings, used, truncated := invalid, 0, false;
    assert findings == invalid + map[];
    for i := 0 to |components|
      invariant findings == invalid + FindingsUpTo(v, components, oracle, i)
      invariant used == UsedBefore(v, components, i)
      invariant truncated <==> SomeOverflow(v, components, i)
    {
      var verdict, cut;
      verdict, used, cut := Classify(v, components[i], used, oracle);
      MergeAssociates(invalid, FindingsUpTo(v, components, oracle, i), FindingsFor(v, components[i], verdict, components[i]));
      findings := Record(findings, v, components[i], verdict);
      truncated := truncated || cut;
    }
  }
}
