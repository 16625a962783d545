/** What the classification guarantees to admission and to the lifecycle policy (src/generation.rs). */
module GenerationTheorems {
  import opened Common
  import opened Ordering
  import opened Generations
  import opened GenerationComponents
  import opened GenerationAnalysis

  // ----- where a finding comes from -----

  lemma {:induction false} FindingOfMember(v: Entries, cs: seq<seq<Pr>>, oracle: Oracle, n: nat, i: nat, p: Pr)
    requires AllInEntries(v, cs) && i < n <= |cs| && p in cs[i]
    requires forall j :: i < j < n ==> p !in cs[j]
    ensures p in FindingsUpTo(v, cs, oracle, n)
    ensures FindingsUpTo(v, cs, oracle, n)[p] == FindingFor(v, cs[i], VerdictAt(v, cs, oracle, i), p)
  {
    if i < n - 1 {
      FindingOfMember(v, cs, oracle, n - 1, i, p);
      OthersKeepTheFinding(v, cs, oracle, n, p);
    }
  }

  lemma OthersKeepTheFinding(v: Entries, cs: seq<seq<Pr>>, oracle: Oracle, n: nat, p: Pr)
    requires AllInEntries(v, cs) && 0 < n <= |cs| && p !in cs[n - 1] && p in FindingsUpTo(v, cs, oracle, n - 1)
    ensures p in FindingsUpTo(v, cs, oracle, n)
    ensures FindingsUpTo(v, cs, oracle, n)[p] == FindingsUpTo(v, cs, oracle, n - 1)[p]
  {
  }

  lemma ComponentIndex(v: Entries, p: Pr) returns (i: nat)
    requires p in v
    ensures AllInEntries(v, ComponentList(v, v.Keys))
    ensures i < |ComponentList(v, v.Keys)| && p in ComponentList(v, v.Keys)[i]
    ensures Elements(ComponentList(v, v.Keys)[i]) == ComponentOf(v, p)
  {
    ComponentListIsCorrect(v, v.Keys);
    ComponentsAreInEntries(v);
    var cs := ComponentList(v, v.Keys);
    i :| 0 <= i < |cs| && p in cs[i];
  }

  lemma FindingIsTheVerdict(facts: seq<Fact>, oracle: Oracle, p: Pr) returns (comp: seq<Pr>, verdict: Verdict, used: nat)
    requires p in ValidEntries(facts)
    ensures InEntries(ValidEntries(facts), comp) && Elements(comp) == ComponentOf(ValidEntries(facts), p) && p in comp
    ensures verdict == VerdictOf(ValidEntries(facts), comp, used, oracle)
    ensures forall q :: q in comp ==>
      q in Analysis(facts, oracle) && Analysis(facts, oracle)[q] == FindingFor(ValidEntries(facts), comp, verdict, q)
  {
    var v := ValidEntries(facts);
    var cs := ComponentList(v, v.Keys);
    var i := ComponentIndex(v, p);
    comp, verdict, used := cs[i], VerdictAt(v, cs, oracle, i), UsedBefore(v, cs, i);
    FindingsAt(facts, oracle, i);
  }

  /** Every member of component i gets the verdict of that component. */
  lemma FindingsAt(facts: seq<Fact>, oracle: Oracle, i: nat)
    requires i < |ComponentList(ValidEntries(facts), ValidEntries(facts).Keys)|
    ensures AllInEntries(ValidEntries(facts), ComponentList(ValidEntries(facts), ValidEntries(facts).Keys))
    ensures
      var v := ValidEntries(facts);
      var cs := ComponentList(v, v.Keys);
      forall q :: q in cs[i] ==>
        q in Analysis(facts, oracle) && Analysis(facts, oracle)[q] == FindingFor(v, cs[i], VerdictAt(v, cs, oracle, i), q)
  {
    var v := ValidEntries(facts);
    var cs := ComponentList(v, v.Keys);
    ComponentsAreInEntries(v);
    ComponentListIsCorrect(v, v.Keys);
    forall q | q in cs[i]
      ensures q in Analysis(facts, oracle) && Analysis(facts, oracle)[q] == FindingFor(v, cs[i], VerdictAt(v, cs, oracle, i), q)
    {
      FindingOfMember(v, cs, oracle, |cs|, i, q);
    }
  }

  // ----- admission -----

  /** A pull request without a finding is an ordinary one. */
  predicate Admits(findings: Findings, p: Pr) {
    p in findings ==> findings[p].disposition.CurrentGeneration?
  }

  lemma OneVerdictAdmitsOne(v: Entries, comp: seq<Pr>, verdict: Verdict, used: nat, oracle: Oracle, a: Pr, b: Pr)
    requires InEntries(v, comp) && a in comp && b in comp && a != b
    requires verdict == VerdictOf(v, comp, used, oracle)
    ensures !(FindingFor(v, comp, verdict, a).disposition.CurrentGeneration?
           && FindingFor(v, comp, verdict, b).disposition.CurrentGeneration?)
  {
    assert |comp| > 1;
  }

  /** Of two siblings, linked directly or through others, at most one is ever admitted. */
  lemma SiblingsAreNeverBothAdmitted(facts: seq<Fact>, oracle: Oracle, a: Pr, b: Pr)
    requires a in ValidEntries(facts) && b in ValidEntries(facts) && a != b
    requires Connected(ValidEntries(facts), a, b)
    ensures !(Admits(Analysis(facts, oracle), a) && Admits(Analysis(facts, oracle), b))
  {
    var comp, verdict, used := FindingIsTheVerdict(facts, oracle, a);
    assert a in Elements(comp) && b in Elements(comp);
    OneVerdictAdmitsOne(ValidEntries(facts), comp, verdict, used, oracle, a, b);
  }

  lemma InvalidMetadataIsNeverAdmitted(facts: seq<Fact>, oracle: Oracle, f: Fact)
    requires DistinctPrs(facts) && f in facts && f.metadataError.Some?
    ensures !Admits(Analysis(facts, oracle), f.pr)
  {
    var v := ValidEntries(facts);
    var i :| 0 <= i < |facts| && facts[i] == f;
    assert f.pr !in v by {
      if f.pr in v {
        ValidEntriesAreFacts(facts, f.pr);
        var j :| 0 <= j < |facts| && facts[j] == v[f.pr].fact;
        assert false;
      }
    }
    OnlyMembersHaveFindings(v, ComponentList(v, v.Keys), oracle, f.pr);
    InvalidFindingsAreInvalid(facts, f.pr);
  }

  lemma OnlyMembersHaveFindings(v: Entries, cs: seq<seq<Pr>>, oracle: Oracle, p: Pr)
    requires cs == ComponentList(v, v.Keys) && p !in v
    ensures AllInEntries(v, cs) && p !in FindingsUpTo(v, cs, oracle, |cs|)
  {
    ComponentsAreInEntries(v);
    NoFindingWithoutEntry(v, cs, oracle, |cs|, p);
  }

  lemma {:induction false} NoFindingWithoutEntry(v: Entries, cs: seq<seq<Pr>>, oracle: Oracle, n: nat, p: Pr)
    requires AllInEntries(v, cs) && n <= |cs| && p !in v
    ensures p !in FindingsUpTo(v, cs, oracle, n)
  {
    if n > 0 {
      NoFindingWithoutEntry(v, cs, oracle, n - 1, p);
      assert InEntries(v, cs[n - 1]);
    }
  }

  // ----- lifecycle -----

  function WithPolicy(f: Finding, action: Action): Finding {
    f.(action := if f.lifecycle.DurableSupersession? && f.supersession.Some? && f.supersession.value.closureEligible
                 then action else Preserve)
  }

  function AllWithPolicy(findings: Findings, action: Action): Findings {
    map p | p in findings :: WithPolicy(findings[p], action)
  }

  /** One complete classification, whose actions the repository policy sets in place. */
  class IntegrityStatus {
    var findings: Findings

    constructor (facts: seq<Fact>, oracle: Oracle)
      ensures findings == Analysis(facts, oracle)
    {
      var found, used, truncated := Analyze(facts, oracle);
      findings := found;
    }

    method ApplyLifecyclePolicy(action: Action)
      modifies this
      ensures findings == AllWithPolicy(old(findings), action)
    {
      var order := Sorted(findings.Keys);
      for i := 0 to |order|
        invariant findings.Keys == old(findings).Keys
        invariant forall p :: p in findings ==>
          findings[p] == if p in order[..i] then WithPolicy(old(findings)[p], action) else old(findings)[p]
      {
        assert order[i] in order && order[i] !in order[..i];
        assert order[..i + 1] == order[..i] + [order[i]];
        findings := findings[order[i] := WithPolicy(findings[order[i]], action)];
      }
      assert order[..|order|] == order;
    }

    method RequireAdmissible(p: Pr) returns (ok: bool)
      ensures ok <==> Admits(findings, p)
    {
      ok := p !in findings || findings[p].disposition.CurrentGeneration?;
    }
  }

  type Containment = (string, string) -> bool

  /** `holds(x, y)`: the history of x contains y. Every definite answer is true of it. */
  ghost predicate SoundOracle(oracle: Oracle, holds: Containment) {
    forall n, x, y ::
      match oracle(n, x, y)
      case Ahead => holds(y, x)
      case Behind => holds(x, y)
      case Identical => holds(x, y) && holds(y, x)
      case _ => true
  }

  lemma ContainsIsSound(v: Entries, comp: seq<Pr>, used: nat, oracle: Oracle, holds: Containment, i: nat, j: nat)
    requires InEntries(v, comp) && i < |comp| && j < |comp| && i != j
    requires SoundOracle(oracle, holds) && Contains(v, comp, used, oracle, i, j)
    ensures holds(v[comp[i]].provenance.sourceHead, v[comp[j]].provenance.sourceHead)
  {
    var (low, high) := if i < j then (i, j) else (j, i);
    var n := used + PairsBefore(|comp|, low) + (high - low - 1);
    var (x, y) := (v[comp[low]].provenance.sourceHead, v[comp[high]].provenance.sourceHead);
    assert n < MAX_COMPARISONS && RelationAt(v, comp, used, oracle, low, high) == oracle(n, x, y);
  }

  /** The canonical sibling named by a closing finding, and why nothing is lost with it. */
  ghost predicate WorkIsKept(v: Entries, findings: Findings, holds: Containment, p: Pr)
    requires p in v && p in findings && findings[p].supersession.Some?
  {
    var e := findings[p].supersession.value;
    && e.canonicalPr in v && e.canonicalPr in findings
    && Connected(v, p, e.canonicalPr)
    && findings[e.canonicalPr].disposition.CurrentGeneration?
    && !findings[e.canonicalPr].action.Close?
    && e.canonicalHead == v[e.canonicalPr].fact.providerHead && e.supersededHead == v[p].fact.providerHead
    && (e.authority.SourceContainment? ==> holds(v[e.canonicalPr].provenance.sourceHead, v[p].provenance.sourceHead))
    && (e.authority.ReviewedLink? ==> p in v[e.canonicalPr].fact.supersedes)
  }

  lemma VerdictKeepsWork(v: Entries, comp: seq<Pr>, verdict: Verdict, used: nat, oracle: Oracle, holds: Containment, p: Pr)
    requires SoundOracle(oracle, holds) && InEntries(v, comp) && p in comp
    requires verdict == VerdictOf(v, comp, used, oracle) && verdict.Canonical? && verdict.pr != p
    ensures verdict.authority.SourceContainment? ==> holds(v[verdict.pr].provenance.sourceHead, v[p].provenance.sourceHead)
    ensures verdict.authority.ReviewedLink? ==> p in v[verdict.pr].fact.supersedes
  {
    var c := verdict.pr;
    if verdict.authority.SourceContainment? {
      var i :| 0 <= i < |comp| && comp[i] == c;
      var j :| 0 <= j < |comp| && comp[j] == p;
      assert comp[i] in Maxima(v, comp, used, oracle);
      assert IsMaximum(v, comp, used, oracle, i);
      ContainsIsSound(v, comp, used, oracle, holds, i, j);
    } else {
      assert c in Linked(v, comp);
    }
  }

  /** Whatever is closed is contained in, or was linked by, a sibling that stays open. */
  lemma ClosedWorkIsKept(facts: seq<Fact>, oracle: Oracle, action: Action, holds: Containment, p: Pr)
    requires SoundOracle(oracle, holds)
    requires p in ValidEntries(facts) && p in Analysis(facts, oracle)
    ensures
      var findings := AllWithPolicy(Analysis(facts, oracle), action);
      findings[p].action.Close? ==> findings[p].supersession.Some? && WorkIsKept(ValidEntries(facts), findings, holds, p)
  {
    var v := ValidEntries(facts);
    var findings := AllWithPolicy(Analysis(facts, oracle), action);
    var comp, verdict, used := FindingIsTheVerdict(facts, oracle, p);
    if findings[p].action.Close? {
      assert verdict.Canonical? && verdict.pr != p;
      assert verdict.pr in Elements(comp);
      VerdictKeepsWork(v, comp, verdict, used, oracle, holds, p);
    }
  }

  /** Closing everything the policy marks leaves every component with an open pull request. */
  lemma EveryComponentKeepsOneOpen(facts: seq<Fact>, oracle: Oracle, action: Action, p: Pr) returns (open: Pr)
    requires p in ValidEntries(facts)
    ensures open in ValidEntries(facts) && Connected(ValidEntries(facts), p, open)
    ensures open in Analysis(facts, oracle) && !AllWithPolicy(Analysis(facts, oracle), action)[open].action.Close?
  {
    var comp, verdict, used := FindingIsTheVerdict(facts, oracle, p);
    open := if verdict.Canonical? then verdict.pr else p;
    assert open in Elements(comp);
  }

  // ----- maxima, missing answers and order -----

  /** Two maxima contain one another, so their comparison answered `Identical`. */
  lemma MaximaAreIdentical(v: Entries, comp: seq<Pr>, used: nat, oracle: Oracle, i: nat, j: nat)
    requires InEntries(v, comp) && i < j < |comp|
    requires comp[i] in Maxima(v, comp, used, oracle) && comp[j] in Maxima(v, comp, used, oracle)
    ensures RelationAt(v, comp, used, oracle, i, j).Identical?
  {
    assert IsMaximum(v, comp, used, oracle, i) && IsMaximum(v, comp, used, oracle, j);
    assert Contains(v, comp, used, oracle, i, j) && Contains(v, comp, used, oracle, j, i);
  }

  /** Some answers of `full` are missing in `weak`; no other answer differs. */
  ghost predicate Withholds(weak: Oracle, full: Oracle) {
    forall n, x, y :: weak(n, x, y) == full(n, x, y) || weak(n, x, y).Unknown?
  }

  lemma MissingAnswersKeepMaxima(v: Entries, comp: seq<Pr>, used: nat, weak: Oracle, full: Oracle)
    requires InEntries(v, comp) && Withholds(weak, full)
    ensures Maxima(v, comp, used, weak) <= Maxima(v, comp, used, full)
  {
    forall i | 0 <= i < |comp| && IsMaximum(v, comp, used, weak, i)
      ensures IsMaximum(v, comp, used, full, i)
    {
      forall j | 0 <= j < |comp|
        ensures Contains(v, comp, used, full, i, j)
      {
        assert Contains(v, comp, used, weak, i, j);
      }
    }
    forall p | p in Maxima(v, comp, used, weak)
      ensures p in Maxima(v, comp, used, full)
    {
      var i :| 0 <= i < |comp| && comp[i] == p;
    }
  }

  lemma MissingAnswersKeepTheVerdict(v: Entries, comp: seq<Pr>, used: nat, weak: Oracle, full: Oracle)
    requires InEntries(v, comp) && Withholds(weak, full)
    ensures
      var verdict := VerdictOf(v, comp, used, weak);
      && (verdict.Canonical? && verdict.authority.SourceContainment? ==>
          && verdict.pr in Maxima(v, comp, used, full)
          && VerdictOf(v, comp, used, full).Canonical?)
      && (verdict.Canonical? && verdict.authority.ReviewedLink? ==> VerdictOf(v, comp, used, full) == verdict)
  {
    MissingAnswersKeepMaxima(v, comp, used, weak, full);
  }

  /** Two maxima hold the same history when the definite answers are true. */
  lemma MaximaHoldTheSame(v: Entries, comp: seq<Pr>, used: nat, oracle: Oracle, holds: Containment, c: Pr, d: Pr)
    requires InEntries(v, comp) && SoundOracle(oracle, holds) && c != d
    requires c in Maxima(v, comp, used, oracle) && d in Maxima(v, comp, used, oracle)
    ensures holds(v[c].provenance.sourceHead, v[d].provenance.sourceHead)
    ensures holds(v[d].provenance.sourceHead, v[c].provenance.sourceHead)
  {
    var i :| 0 <= i < |comp| && comp[i] == c;
    var j :| 0 <= j < |comp| && comp[j] == d;
    assert IsMaximum(v, comp, used, oracle, i) && IsMaximum(v, comp, used, oracle, j);
    ContainsIsSound(v, comp, used, oracle, holds, i, j);
    ContainsIsSound(v, comp, used, oracle, holds, j, i);
  }

  /**
   Over a whole classification: what is canonical although answers are missing would be
   canonical with all answers, or hold exactly the history of what would be. Whoever is
   ambiguous with all answers stays so.
   */
  lemma MissingAnswersCrownNobodyNew(facts: seq<Fact>, weak: Oracle, full: Oracle, holds: Containment, p: Pr)
    requires Withholds(weak, full) && SoundOracle(full, holds)
    requires p in ValidEntries(facts) && p in Analysis(facts, weak) && Analysis(facts, weak)[p].canonicalPr.Some?
    ensures p in Analysis(facts, full) && Analysis(facts, full)[p].canonicalPr.Some?
    ensures
      var v := ValidEntries(facts);
      var (c, d) := (Analysis(facts, weak)[p].canonicalPr.value, Analysis(facts, full)[p].canonicalPr.value);
      && c in v && d in v
      && (c != d ==>
          && holds(v[c].provenance.sourceHead, v[d].provenance.sourceHead)
          && holds(v[d].provenance.sourceHead, v[c].provenance.sourceHead))
  {
    var v := ValidEntries(facts);
    var cs := ComponentList(v, v.Keys);
    var i := ComponentIndex(v, p);
    FindingsAt(facts, weak, i);
    FindingsAt(facts, full, i);
    VerdictsHoldTheSame(v, cs[i], UsedBefore(v, cs, i), weak, full, holds);
  }

  lemma VerdictsHoldTheSame(v: Entries, comp: seq<Pr>, used: nat, weak: Oracle, full: Oracle, holds: Containment)
    requires InEntries(v, comp) && Withholds(weak, full) && SoundOracle(full, holds)
    ensures
      var (x, y) := (VerdictOf(v, comp, used, weak), VerdictOf(v, comp, used, full));
      && (x.Alone? ==> y.Alone?)
      && (x.Canonical? ==>
          && y.Canonical?
          && (x.pr != y.pr ==>
              && holds(v[x.pr].provenance.sourceHead, v[y.pr].provenance.sourceHead)
              && holds(v[y.pr].provenance.sourceHead, v[x.pr].provenance.sourceHead)))
  {
    MissingAnswersKeepTheVerdict(v, comp, used, weak, full);
    var (x, y) := (VerdictOf(v, comp, used, weak), VerdictOf(v, comp, used, full));
    if x.Canonical? && x.pr != y.pr {
      MaximaHoldTheSame(v, comp, used, full, holds, x.pr, y.pr);
    }
  }

  // ----- the shared budget -----

  /** Pairs that the first n components would compare without a bound. */
  ghost function PairsWanted(v: Entries, cs: seq<seq<Pr>>, n: nat): nat
    requires AllInEntries(v, cs) && n <= |cs|
  {
    if n == 0 then 0
    else
      PairsWanted(v, cs, n - 1)
      + if |cs[n - 1]| == 1 || Linked(v, cs[n - 1]) != {} then 0 else PairsBefore(|cs[n - 1]|, |cs[n - 1]|)
  }

  lemma {:induction false} PairsOf(n: nat, i: nat)
    requires i <= n
    ensures 2 * PairsBefore(n, i) == i * (2 * n - i - 1)
  {
    if i > 0 {
      PairsOf(n, i - 1);
    }
  }

  /** The budget is spent up to 64 comparisons, and reported as truncated exactly when more were wanted. */
  lemma {:induction false} BudgetIsShared(v: Entries, cs: seq<seq<Pr>>, n: nat)
    requires AllInEntries(v, cs) && n <= |cs|
    ensures UsedBefore(v, cs, n) == Min(MAX_COMPARISONS, PairsWanted(v, cs, n))
    ensures SomeOverflow(v, cs, n) <==> PairsWanted(v, cs, n) > MAX_COMPARISONS
  {
    if n > 0 {
      BudgetIsShared(v, cs, n - 1);
    }
  }

  /** The order in which the facts are listed changes no finding. */
  lemma OrderOfFactsIsIrrelevant(facts: seq<Fact>, other: seq<Fact>, oracle: Oracle)
    requires DistinctPrs(facts) && DistinctPrs(other)
    requires forall f :: f in facts <==> f in other
    ensures Analysis(facts, oracle) == Analysis(other, oracle)
  {
    EntriesIgnoreOrder(facts, other);
  }

  // ----- which pull requests are contested -----

  /** Facts as the metadata parser makes them: an error leaves no provenance. */
  predicate Parsed(facts: seq<Fact>) {
    forall f :: f in facts && f.metadataError.Some? ==> f.provenance.None?
  }

  predicate SiblingFacts(a: Fact, b: Fact) {
    a.provenance.Some? && b.provenance.Some? && SameStreamSlot(a.provenance.value, b.provenance.value)
  }

  method DuplicateStreamPrs(facts: seq<Fact>) returns (duplicates: set<Pr>)
    ensures forall p :: p in duplicates <==> Contested(facts, p)
  {
    duplicates := {};
    for i := 0 to |facts|
      invariant forall p :: p in duplicates <==> MarkedBefore(facts, i, i + 1, p)
    {
      for j := i + 1 to |facts|
        invariant forall p :: p in duplicates <==> MarkedBefore(facts, i, j, p)
      {
        ghost var before := duplicates;
        if SiblingFacts(facts[i], facts[j]) {
          duplicates := duplicates + {facts[i].pr, facts[j].pr};
        }
        MarkedNext(facts, i, j, before, duplicates);
      }
      forall p
        ensures MarkedBefore(facts, i, |facts|, p) <==> MarkedBefore(facts, i + 1, i + 2, p)
      {
      }
    }
    forall p
      ensures MarkedBefore(facts, |facts|, |facts| + 1, p) <==> Contested(facts, p)
    {
      MarkedMeans(facts, p);
    }
  }

  ghost predicate Contested(facts: seq<Fact>, p: Pr) {
    exists i, j :: 0 <= i < |facts| && 0 <= j < |facts| && i != j && facts[i].pr == p && SiblingFacts(facts[i], facts[j])
  }

  ghost predicate Marked(facts: seq<Fact>, s: int, t: int, p: Pr) {
    0 <= s < t < |facts| && SiblingFacts(facts[s], facts[t]) && (p == facts[s].pr || p == facts[t].pr)
  }

  /** A pair that marks p was looked at before the pair (i, j). */
  ghost predicate MarkedBefore(facts: seq<Fact>, i: int, j: int, p: Pr) {
    exists s, t :: Marked(facts, s, t, p) && (s < i || (s == i && t < j))
  }

  lemma MarkedNext(facts: seq<Fact>, i: nat, j: nat, before: set<Pr>, after: set<Pr>)
    requires i < j < |facts|
    requires forall p :: p in before <==> MarkedBefore(facts, i, j, p)
    requires after == if SiblingFacts(facts[i], facts[j]) then before + {facts[i].pr, facts[j].pr} else before
    ensures forall p :: p in after <==> MarkedBefore(facts, i, j + 1, p)
  {
    forall p
      ensures p in after <==> MarkedBefore(facts, i, j + 1, p)
    {
      if p in after && p !in before {
        assert Marked(facts, i, j, p);
      }
    }
  }

  lemma MarkedMeans(facts: seq<Fact>, p: Pr)
    ensures MarkedBefore(facts, |facts|, |facts| + 1, p) <==> Contested(facts, p)
  {
    if MarkedBefore(facts, |facts|, |facts| + 1, p) {
      var s, t :| Marked(facts, s, t, p);
      SameStreamSlotIsSymmetric(facts[s].provenance.value, facts[t].provenance.value);
      assert SiblingFacts(facts[s], facts[t]) && SiblingFacts(facts[t], facts[s]);
    }
    if Contested(facts, p) {
      var i, j :| 0 <= i < |facts| && 0 <= j < |facts| && i != j && facts[i].pr == p && SiblingFacts(facts[i], facts[j]);
      SameStreamSlotIsSymmetric(facts[i].provenance.value, facts[j].provenance.value);
      assert Marked(facts, if i < j then i else j, if i < j then j else i, p);
    }
  }

  /** A contested pull request is one whose component has another member. */
  lemma ContestedMeansNotAlone(facts: seq<Fact>, i: nat)
    requires DistinctPrs(facts) && Parsed(facts) && i < |facts| && facts[i].provenance.Some?
    ensures facts[i].pr in ValidEntries(facts)
    ensures (exists j :: 0 <= j < |facts| && i != j && SiblingFacts(facts[i], facts[j])) <==>
            ComponentOf(ValidEntries(facts), facts[i].pr) != {facts[i].pr}
  {
    var v := ValidEntries(facts);
    var p := facts[i].pr;
    ValidEntriesAreTheValidFacts(facts, facts[i]);
    ConnectedIsReflexive(v, p);
    if j :| 0 <= j < |facts| && i != j && SiblingFacts(facts[i], facts[j]) {
      ValidEntriesAreTheValidFacts(facts, facts[j]);
      assert Adjacent(v, p, facts[j].pr) && facts[j].pr != p;
      ConnectedExtends(v, p, p, facts[j].pr);
      assert facts[j].pr in ComponentOf(v, p);
    }
    if ComponentOf(v, p) != {p} {
      var q :| q in ComponentOf(v, p) && q != p;
      var path :| IsPath(v, path, p, q);
      var r := LeavingStep(v, path, p, q);
      ValidEntriesAreFacts(facts, r);
      var j :| 0 <= j < |facts| && facts[j] == v[r].fact;
      assert SiblingFacts(facts[i], facts[j]);
    }
  }

  lemma {:induction false} LeavingStep(v: Entries, path: seq<Pr>, p: Pr, q: Pr) returns (r: Pr)
    requires IsPath(v, path, p, q) && p != q
    ensures r != p && Adjacent(v, p, r)
    decreases |path|
  {
    assert Adjacent(v, path[0], path[1]);
    if path[1] != p {
      r := path[1];
    } else {
      r := LeavingStep(v, path[1..], p, q);
    }
  }
}
