/**
 Who is canonical, superseded or ambiguous, in terms of the facts and of the answers of
 the provider (src/generation.rs): reviewed links first, then containment.
 */
module GenerationOutcomes {
  import opened Common
  import opened Ordering
  import opened Generations
  import opened GenerationComponents
  import opened GenerationAnalysis
  import opened GenerationTheorems

  /** The reviewed link of c names every other member of its component. */
  ghost predicate NamesAll(v: Entries, component: set<Pr>, c: Pr) {
    c in component && c in v && forall q :: q in component && q != c ==> q in v[c].fact.supersedes
  }

  /** c is current; every other member is superseded by it, with exact evidence that permits closing. */
  ghost predicate Crowned(facts: seq<Fact>, oracle: Oracle, component: set<Pr>, c: Pr, authority: Authority) {
    var (v, findings) := (ValidEntries(facts), Analysis(facts, oracle));
    && c in component && component <= findings.Keys && component <= v.Keys
    && findings[c].disposition == CurrentGeneration && findings[c].lifecycle == Active && findings[c].canonicalPr == Some(c)
    && (forall q :: q in component ==> findings[q].pr == q && Elements(findings[q].related) == component)
    && forall q :: q in component && q != c ==>
      && findings[q].disposition == SupersededGeneration && findings[q].lifecycle == DurableSupersession
      && findings[q].canonicalPr == Some(c)
      && findings[q].supersession ==
         Some(Evidence(q, v[q].fact.providerHead, c, v[c].fact.providerHead, authority, true))
  }

  /** Nobody is admitted, and no policy closes anybody. */
  ghost predicate LeftAlone(facts: seq<Fact>, oracle: Oracle, component: set<Pr>) {
    forall q :: q in component ==>
      && q in Analysis(facts, oracle)
      && Analysis(facts, oracle)[q].disposition == AmbiguousGeneration
      && Elements(Analysis(facts, oracle)[q].related) == component
      && !Admits(Analysis(facts, oracle), q)
      && forall action: Action :: WithPolicy(Analysis(facts, oracle)[q], action).action == Preserve
  }

  /** Closing is exact: with a crowned member all others are closed, and it is not. */
  lemma CrownedClosesTheOthers(facts: seq<Fact>, oracle: Oracle, component: set<Pr>, c: Pr, authority: Authority, action: Action, q: Pr)
    requires Crowned(facts, oracle, component, c, authority) && q in component
    ensures AllWithPolicy(Analysis(facts, oracle), action)[q].action == if q == c then Preserve else action
    ensures Admits(Analysis(facts, oracle), q) <==> q == c
  {
  }

  // ----- from a verdict to its findings -----

  /** The findings of one component are those of its verdict. */
  ghost predicate Follows(facts: seq<Fact>, oracle: Oracle, comp: seq<Pr>, verdict: Verdict) {
    var (v, findings) := (ValidEntries(facts), Analysis(facts, oracle));
    && InEntries(v, comp) && (verdict.Canonical? ==> verdict.pr in comp)
    && forall q :: q in comp ==> q in findings && findings[q] == FindingFor(v, comp, verdict, q)
  }

  lemma CanonicalIsCrowned(facts: seq<Fact>, oracle: Oracle, comp: seq<Pr>, verdict: Verdict)
    requires Follows(facts, oracle, comp, verdict) && verdict.Canonical?
    ensures Crowned(facts, oracle, Elements(comp), verdict.pr, verdict.authority)
  {
  }

  lemma AmbiguousIsLeftAlone(facts: seq<Fact>, oracle: Oracle, comp: seq<Pr>, verdict: Verdict)
    requires Follows(facts, oracle, comp, verdict) && verdict.Ambiguous?
    ensures LeftAlone(facts, oracle, Elements(comp))
  {
  }

  /** The component of p in the list, with the comparisons spent before it. */
  lemma ComponentOfMember(facts: seq<Fact>, oracle: Oracle, p: Pr) returns (i: nat)
    requires p in ValidEntries(facts)
    ensures AllInEntries(ValidEntries(facts), ComponentList(ValidEntries(facts), ValidEntries(facts).Keys))
    ensures
      var v := ValidEntries(facts);
      var cs := ComponentList(v, v.Keys);
      && i < |cs| && p in cs[i] && Elements(cs[i]) == ComponentOf(v, p)
      && Follows(facts, oracle, cs[i], VerdictOf(v, cs[i], UsedBefore(v, cs, i), oracle))
  {
    i := ComponentIndex(ValidEntries(facts), p);
    FindingsAt(facts, oracle, i);
  }

  // ----- links -----

  lemma LinkedAre(v: Entries, comp: seq<Pr>, c: Pr)
    requires InEntries(v, comp)
    ensures c in Linked(v, comp) <==> NamesAll(v, Elements(comp), c)
  {
  }

  lemma TwoMembers(s: set<Pr>, a: Pr, b: Pr)
    requires a in s && b in s && a != b
    ensures |s| > 1
  {
    assert |s - {a}| > 0 by { assert b in s - {a}; }
  }

  lemma LongerThanOne(v: Entries, comp: seq<Pr>, a: Pr, b: Pr)
    requires InEntries(v, comp) && a in comp && b in comp && a != b
    ensures |comp| > 1
  {
  }

  lemma ConflictIsAmbiguous(v: Entries, comp: seq<Pr>, used: nat, oracle: Oracle, a: Pr, b: Pr)
    requires InEntries(v, comp) && a != b && NamesAll(v, Elements(comp), a) && NamesAll(v, Elements(comp), b)
    ensures VerdictOf(v, comp, used, oracle).Ambiguous?
  {
    LinkedAre(v, comp, a);
    LinkedAre(v, comp, b);
    TwoMembers(Linked(v, comp), a, b);
    LongerThanOne(v, comp, a, b);
  }

  /** Two members that each name all others conflict: nobody is admitted, nobody is closed, whatever the provider answers. */
  lemma ConflictingLinksAdmitNobody(facts: seq<Fact>, oracle: Oracle, a: Pr, b: Pr)
    requires a in ValidEntries(facts) && a != b
    requires NamesAll(ValidEntries(facts), ComponentOf(ValidEntries(facts), a), a)
    requires NamesAll(ValidEntries(facts), ComponentOf(ValidEntries(facts), a), b)
    ensures LeftAlone(facts, oracle, ComponentOf(ValidEntries(facts), a))
  {
    var v := ValidEntries(facts);
    var cs := ComponentList(v, v.Keys);
    var i := ComponentOfMember(facts, oracle, a);
    ConflictIsAmbiguous(v, cs[i], UsedBefore(v, cs, i), oracle, a, b);
    AmbiguousIsLeftAlone(facts, oracle, cs[i], VerdictOf(v, cs[i], UsedBefore(v, cs, i), oracle));
  }

  lemma OneLinkDecides(v: Entries, comp: seq<Pr>, used: nat, oracle: Oracle, c: Pr)
    requires InEntries(v, comp) && |comp| > 1 && NamesAll(v, Elements(comp), c)
    requires forall d :: NamesAll(v, Elements(comp), d) ==> d == c
    ensures VerdictOf(v, comp, used, oracle) == Canonical(c, ReviewedLink)
  {
    LinkedAre(v, comp, c);
    forall d
      ensures d in Linked(v, comp) <==> d == c
    {
      LinkedAre(v, comp, d);
    }
    assert Linked(v, comp) == {c};
    assert Newest(v, Linked(v, comp)) in Linked(v, comp);
  }

  /** Exactly one member that names all others is the canonical one, by its reviewed link. */
  lemma OneLinkIsCanonical(facts: seq<Fact>, oracle: Oracle, c: Pr)
    requires c in ValidEntries(facts) && ComponentOf(ValidEntries(facts), c) != {c}
    requires NamesAll(ValidEntries(facts), ComponentOf(ValidEntries(facts), c), c)
    requires forall d :: NamesAll(ValidEntries(facts), ComponentOf(ValidEntries(facts), c), d) ==> d == c
    ensures Crowned(facts, oracle, ComponentOf(ValidEntries(facts), c), c, ReviewedLink)
  {
    var v := ValidEntries(facts);
    var cs := ComponentList(v, v.Keys);
    var i := ComponentOfMember(facts, oracle, c);
    NotAlone(v, cs[i], c);
    OneLinkDecides(v, cs[i], UsedBefore(v, cs, i), oracle, c);
    CanonicalIsCrowned(facts, oracle, cs[i], VerdictOf(v, cs[i], UsedBefore(v, cs, i), oracle));
  }

  lemma NotAlone(v: Entries, comp: seq<Pr>, p: Pr)
    requires InEntries(v, comp) && p in comp
    ensures |comp| == 1 <==> Elements(comp) == {p}
  {
    if |comp| != 1 {
      assert comp[0] in comp && comp[1] in comp && comp[0] != comp[1];
      assert comp[0] in Elements(comp) && comp[1] in Elements(comp);
    }
  }

  /** A member without siblings is current, and stays open. */
  lemma AloneIsCurrent(facts: seq<Fact>, oracle: Oracle, p: Pr, action: Action)
    requires p in ValidEntries(facts) && ComponentOf(ValidEntries(facts), p) == {p}
    ensures p in Analysis(facts, oracle) && Analysis(facts, oracle)[p].disposition == CurrentGeneration
    ensures AllWithPolicy(Analysis(facts, oracle), action)[p].action == Preserve
  {
    var v := ValidEntries(facts);
    var cs := ComponentList(v, v.Keys);
    var i := ComponentOfMember(facts, oracle, p);
    NotAlone(v, cs[i], p);
  }

  // ----- containment -----

  /**
   The provider was asked, within the bound, about the members at i and j, the one with
   the smaller number first, and answered that the one at i contains the other.
   */
  ghost predicate Answered(v: Entries, comp: seq<Pr>, used: nat, oracle: Oracle, i: nat, j: nat)
    requires InEntries(v, comp) && i < |comp| && j < |comp|
  {
    if i == j then true
    else
      var (low, high) := if i < j then (i, j) else (j, i);
      var call := used + PairsBefore(|comp|, low) + (high - low - 1);
      var answer := oracle(call, v[comp[low]].provenance.sourceHead, v[comp[high]].provenance.sourceHead);
      call < 64 && (answer == Identical || answer == if i < j then Behind else Ahead)
  }

  ghost predicate AnsweredForAll(v: Entries, comp: seq<Pr>, used: nat, oracle: Oracle, i: nat)
    requires InEntries(v, comp) && i < |comp|
  {
    forall j :: 0 <= j < |comp| ==> Answered(v, comp, used, oracle, i, j)
  }

  lemma ContainsIsAnswered(v: Entries, comp: seq<Pr>, used: nat, oracle: Oracle, i: nat, j: nat)
    requires InEntries(v, comp) && i < |comp| && j < |comp|
    ensures Contains(v, comp, used, oracle, i, j) <==> Answered(v, comp, used, oracle, i, j)
  {
  }

  lemma MaximaAreAnswered(v: Entries, comp: seq<Pr>, used: nat, oracle: Oracle, i: nat)
    requires InEntries(v, comp) && i < |comp|
    ensures comp[i] in Maxima(v, comp, used, oracle) <==> AnsweredForAll(v, comp, used, oracle, i)
  {
    forall j | 0 <= j < |comp|
      ensures Contains(v, comp, used, oracle, i, j) <==> Answered(v, comp, used, oracle, i, j)
    {
      ContainsIsAnswered(v, comp, used, oracle, i, j);
    }
    if AnsweredForAll(v, comp, used, oracle, i) {
      assert IsMaximum(v, comp, used, oracle, i);
    }
    if IsMaximum(v, comp, used, oracle, i) {
      assert AnsweredForAll(v, comp, used, oracle, i);
    }
  }

  ghost predicate SomeoneIsAnsweredForAll(v: Entries, comp: seq<Pr>, used: nat, oracle: Oracle)
    requires InEntries(v, comp)
  {
    exists i :: 0 <= i < |comp| && AnsweredForAll(v, comp, used, oracle, i)
  }

  /** The member at k was answered to contain all others, and is the newest of those. */
  ghost predicate IsNewestAnswered(v: Entries, comp: seq<Pr>, used: nat, oracle: Oracle, k: nat)
    requires InEntries(v, comp)
  {
    && k < |comp| && AnsweredForAll(v, comp, used, oracle, k)
    && forall i :: 0 <= i < |comp| && i != k && AnsweredForAll(v, comp, used, oracle, i) ==> CreatedBefore(v, comp[i], comp[k])
  }

  /** Created at an earlier time, an unset time being the earliest; of one time, the smaller number. */
  predicate CreatedBefore(v: Entries, a: Pr, b: Pr)
    requires a in v && b in v
  {
    var (x, y) := (v[a].fact.createdAt, v[b].fact.createdAt);
    if x.None? || x.value == "" then (y.Some? && y.value != "") || a < b
    else y.Some? && (LexLess(x.value, y.value) || (x == y && a < b))
  }

  lemma OlderIsCreatedBefore(v: Entries, a: Pr, b: Pr)
    requires a in v && b in v
    ensures Older(v, a, b) <==> CreatedBefore(v, a, b)
  {
  }

  lemma ContainmentDecides(v: Entries, comp: seq<Pr>, used: nat, oracle: Oracle) returns (k: nat)
    requires InEntries(v, comp) && |comp| > 1 && forall c :: !NamesAll(v, Elements(comp), c)
    ensures SomeoneIsAnsweredForAll(v, comp, used, oracle) ==>
      && IsNewestAnswered(v, comp, used, oracle, k)
      && VerdictOf(v, comp, used, oracle) == Canonical(comp[k], SourceContainment)
    ensures !SomeoneIsAnsweredForAll(v, comp, used, oracle) ==> VerdictOf(v, comp, used, oracle).Ambiguous?
  {
    forall c
      ensures c !in Linked(v, comp)
    {
      LinkedAre(v, comp, c);
    }
    assert Linked(v, comp) == {};
    var maxima := Maxima(v, comp, used, oracle);
    forall i | 0 <= i < |comp|
      ensures comp[i] in maxima <==> AnsweredForAll(v, comp, used, oracle, i)
    {
      MaximaAreAnswered(v, comp, used, oracle, i);
    }
    k := 0;
    if SomeoneIsAnsweredForAll(v, comp, used, oracle) {
      var i :| 0 <= i < |comp| && AnsweredForAll(v, comp, used, oracle, i);
      assert comp[i] in maxima;
      k := NewestIsAnswered(v, comp, used, oracle);
    } else {
      forall p
        ensures p !in maxima
      {
        if p in comp {
          var i :| 0 <= i < |comp| && comp[i] == p;
        }
      }
      assert maxima == {};
    }
  }

  lemma NewestIsAnswered(v: Entries, comp: seq<Pr>, used: nat, oracle: Oracle) returns (k: nat)
    requires InEntries(v, comp) && Maxima(v, comp, used, oracle) != {}
    ensures IsNewestAnswered(v, comp, used, oracle, k) && comp[k] == Newest(v, Maxima(v, comp, used, oracle))
  {
    var maxima := Maxima(v, comp, used, oracle);
    var newest := Newest(v, maxima);
    k :| 0 <= k < |comp| && comp[k] == newest;
    MaximaAreAnswered(v, comp, used, oracle, k);
    forall i | 0 <= i < |comp| && i != k && AnsweredForAll(v, comp, used, oracle, i)
      ensures CreatedBefore(v, comp[i], comp[k])
    {
      MaximaAreAnswered(v, comp, used, oracle, i);
      OlderIsCreatedBefore(v, comp[i], newest);
    }
  }

  /**
   Without a link that names all others, somebody is canonical if and only if the provider
   answered that some member contains every other; the newest of those is. Otherwise nobody
   is admitted and nobody is closed. `used` counts the comparisons of earlier components.
   */
  lemma ContainmentCrownsTheNewest(facts: seq<Fact>, oracle: Oracle, p: Pr) returns (comp: seq<Pr>, used: nat, k: nat)
    requires p in ValidEntries(facts) && ComponentOf(ValidEntries(facts), p) != {p}
    requires forall c :: !NamesAll(ValidEntries(facts), ComponentOf(ValidEntries(facts), p), c)
    ensures InEntries(ValidEntries(facts), comp) && Elements(comp) == ComponentOf(ValidEntries(facts), p) && p in comp
    ensures
      var v := ValidEntries(facts);
      if SomeoneIsAnsweredForAll(v, comp, used, oracle) then
        && IsNewestAnswered(v, comp, used, oracle, k)
        && Crowned(facts, oracle, ComponentOf(v, p), comp[k], SourceContainment)
      else LeftAlone(facts, oracle, ComponentOf(v, p))
    ensures IsSpentBefore(ValidEntries(facts), comp, used)
  {
    var v := ValidEntries(facts);
    var cs := ComponentList(v, v.Keys);
    var i := ComponentOfMember(facts, oracle, p);
    comp, used := cs[i], UsedBefore(v, cs, i);
    NotAlone(v, comp, p);
    k := ContainmentDecides(v, comp, used, oracle);
    var verdict := VerdictOf(v, comp, used, oracle);
    if verdict.Canonical? {
      CanonicalIsCrowned(facts, oracle, comp, verdict);
    } else {
      AmbiguousIsLeftAlone(facts, oracle, comp, verdict);
    }
  }

  /** The component stands in the list, behind components that spent so many comparisons. */
  ghost predicate IsSpentBefore(v: Entries, comp: seq<Pr>, used: nat) {
    var cs := ComponentList(v, v.Keys);
    AllInEntries(v, cs) && exists i :: 0 <= i < |cs| && cs[i] == comp && used == UsedBefore(v, cs, i)
  }

  // ----- a complete and truthful provider -----

  /** Every answer is exactly what containment says. */
  ghost predicate ExactOracle(oracle: Oracle, holds: Containment) {
    forall n, x, y ::
      oracle(n, x, y) ==
        if holds(x, y) && holds(y, x) then Identical
        else if holds(y, x) then Ahead
        else if holds(x, y) then Behind
        else Diverged
  }

  /** No component needs a comparison beyond the bound. */
  ghost predicate WithinBound(v: Entries) {
    var cs := ComponentList(v, v.Keys);
    AllInEntries(v, cs) && PairsWanted(v, cs, |cs|) <= MAX_COMPARISONS
  }

  lemma {:induction false} WantedGrows(v: Entries, cs: seq<seq<Pr>>, i: nat, n: nat)
    requires AllInEntries(v, cs) && i <= n <= |cs|
    ensures PairsWanted(v, cs, i) <= PairsWanted(v, cs, n)
  {
    if i < n {
      WantedGrows(v, cs, i, n - 1);
    }
  }

  lemma CallsStayWithinBound(v: Entries, cs: seq<seq<Pr>>, i: nat, low: nat, high: nat)
    requires AllInEntries(v, cs) && i < |cs| && PairsWanted(v, cs, |cs|) <= MAX_COMPARISONS
    requires |cs[i]| > 1 && Linked(v, cs[i]) == {} && low < high < |cs[i]|
    ensures UsedBefore(v, cs, i) + PairsBefore(|cs[i]|, low) + (high - low - 1) < MAX_COMPARISONS
  {
    BudgetIsShared(v, cs, i);
    WantedGrows(v, cs, i + 1, |cs|);
    PairsGrow(|cs[i]|, low + 1, |cs[i]|);
  }

  /** The history of m contains that of every other member. */
  ghost predicate HoldsAll(v: Entries, component: set<Pr>, holds: Containment, m: Pr) {
    m in component && component <= v.Keys
    && forall q :: q in component && q != m ==> holds(v[m].provenance.sourceHead, v[q].provenance.sourceHead)
  }

  lemma ExactAnswers(v: Entries, comp: seq<Pr>, used: nat, oracle: Oracle, holds: Containment, i: nat)
    requires InEntries(v, comp) && i < |comp| && ExactOracle(oracle, holds)
    requires forall low: nat, high: nat :: low < high < |comp| ==> CallInBound(comp, used, low, high)
    ensures AnsweredForAll(v, comp, used, oracle, i) <==> HoldsAll(v, Elements(comp), holds, comp[i])
  {
    forall j | 0 <= j < |comp| && j != i
      ensures comp[j] != comp[i]
      ensures Answered(v, comp, used, oracle, i, j) <==> holds(v[comp[i]].provenance.sourceHead, v[comp[j]].provenance.sourceHead)
    {
      var (low, high) := if i < j then (i, j) else (j, i);
      assert CallInBound(comp, used, low, high);
    }
    if HoldsAll(v, Elements(comp), holds, comp[i]) {
      forall j | 0 <= j < |comp|
        ensures Answered(v, comp, used, oracle, i, j)
      {
        assert comp[j] in Elements(comp);
      }
    }
    if AnsweredForAll(v, comp, used, oracle, i) {
      forall q | q in Elements(comp) && q != comp[i]
        ensures holds(v[comp[i]].provenance.sourceHead, v[q].provenance.sourceHead)
      {
        var j :| 0 <= j < |comp| && comp[j] == q;
        assert Answered(v, comp, used, oracle, i, j);
      }
    }
  }

  predicate CallInBound(comp: seq<Pr>, used: nat, low: nat, high: nat)
    requires low < high < |comp|
  {
    used + PairsBefore(|comp|, low) + (high - low - 1) < MAX_COMPARISONS
  }

  /**
   With a complete and truthful provider and enough comparisons, a component without such
   a link has a canonical member if and only if some member holds the work of all others.
   */
  lemma ContainmentIsComplete(facts: seq<Fact>, oracle: Oracle, holds: Containment, p: Pr)
    requires ExactOracle(oracle, holds) && WithinBound(ValidEntries(facts))
    requires p in ValidEntries(facts) && ComponentOf(ValidEntries(facts), p) != {p}
    requires forall c :: !NamesAll(ValidEntries(facts), ComponentOf(ValidEntries(facts), p), c)
    ensures
      var (v, component) := (ValidEntries(facts), ComponentOf(ValidEntries(facts), p));
      if exists m :: HoldsAll(v, component, holds, m)
      then exists c :: HoldsAll(v, component, holds, c) && Crowned(facts, oracle, component, c, SourceContainment)
      else LeftAlone(facts, oracle, component)
  {
    var v := ValidEntries(facts);
    var component := ComponentOf(v, p);
    var comp, used, k := ContainmentCrownsTheNewest(facts, oracle, p);
    SomeoneHoldsAllIff(v, comp, used, oracle, holds, p, k);
    if SomeoneIsAnsweredForAll(v, comp, used, oracle) {
      assert HoldsAll(v, component, holds, comp[k]);
    }
  }

  lemma SomeoneHoldsAllIff(v: Entries, comp: seq<Pr>, used: nat, oracle: Oracle, holds: Containment, p: Pr, k: nat)
    requires ExactOracle(oracle, holds) && WithinBound(v) && IsSpentBefore(v, comp, used)
    requires InEntries(v, comp) && p in comp && Elements(comp) != {p} && forall c :: !NamesAll(v, Elements(comp), c)
    ensures SomeoneIsAnsweredForAll(v, comp, used, oracle) <==> exists m :: HoldsAll(v, Elements(comp), holds, m)
    ensures k < |comp| && AnsweredForAll(v, comp, used, oracle, k) ==> HoldsAll(v, Elements(comp), holds, comp[k])
  {
    NoCallIsBeyondBound(v, comp, used, p);
    forall i | 0 <= i < |comp|
      ensures AnsweredForAll(v, comp, used, oracle, i) <==> HoldsAll(v, Elements(comp), holds, comp[i])
    {
      ExactAnswers(v, comp, used, oracle, holds, i);
    }
    if m :| HoldsAll(v, Elements(comp), holds, m) {
      var i :| 0 <= i < |comp| && comp[i] == m;
      assert AnsweredForAll(v, comp, used, oracle, i);
    }
  }

  lemma NoCallIsBeyondBound(v: Entries, comp: seq<Pr>, used: nat, p: Pr)
    requires WithinBound(v) && IsSpentBefore(v, comp, used) && InEntries(v, comp) && p in comp && Elements(comp) != {p}
    requires forall c :: !NamesAll(v, Elements(comp), c)
    ensures forall low: nat, high: nat :: low < high < |comp| ==> CallInBound(comp, used, low, high)
  {
    var cs := ComponentList(v, v.Keys);
    var i :| 0 <= i < |cs| && cs[i] == comp && used == UsedBefore(v, cs, i);
    NotAlone(v, comp, p);
    forall c
      ensures c !in Linked(v, comp)
    {
      LinkedAre(v, comp, c);
    }
    assert Linked(v, comp) == {};
    forall low: nat, high: nat | low < high < |comp|
      ensures CallInBound(comp, used, low, high)
    {
      CallsStayWithinBound(v, cs, i, low, high);
    }
  }

  // ----- siblings -----

  /**
   Siblings have one agent, a common bead and one stack slot: both roots, or both blocked on
   the same parent, and neither is stacked on the other.
   */
  lemma SiblingsShareAgentBeadAndSlot(left: Provenance, right: Provenance)
    ensures SameStreamSlot(left, right) <==>
      && left.agent == right.agent
      && (exists bead :: bead in left.beadIds && bead in right.beadIds)
      && (left.stackState, right.stackState) in {("root", "root"), ("blocked_on_parent", "blocked_on_parent")}
      && left.stackBase == right.stackBase && left.stackBase != right.generation && right.stackBase != left.generation
  {
    if bead :| bead in left.beadIds && bead in right.beadIds {
      assert bead in left.beadIds * right.beadIds;
    }
    if left.beadIds * right.beadIds != {} {
      var bead :| bead in left.beadIds * right.beadIds;
    }
  }
}
