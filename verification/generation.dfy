/** Facts, relations and findings of the sibling-generation classifier (src/generation.rs). */
module Generations {
  import opened Common
  import opened Ordering

  datatype Provenance = Provenance(
    generation: string,
    agent: string,
    sourceHead: string,
    beadIds: set<string>,
    stackBase: string,
    stackState: string)

  datatype Fact = Fact(
    pr: Pr,
    providerHead: string,
    createdAt: Option<string>,
    provenance: Option<Provenance>,
    metadataError: Option<string>,
    supersedes: set<Pr>)

  datatype Entry = Entry(fact: Fact, provenance: Provenance)

  type Entries = map<Pr, Entry>

  /** Provider relation of `base...head`. */
  datatype Relation = Ahead | Behind | Identical | Diverged | Unknown

  /** The comparison oracle may also depend on how often it was asked before. */
  type Oracle = (nat, string, string) -> Relation

  datatype Disposition = CurrentGeneration | SupersededGeneration | AmbiguousGeneration | InvalidMetadata

  datatype Lifecycle = Active | TemporaryDeferral | DurableSupersession | Invalid

  datatype Action = Preserve | ProposeClosure | Close

  datatype Authority = SourceContainment | ReviewedLink

  datatype Evidence = Evidence(
    supersededPr: Pr,
    supersededHead: string,
    canonicalPr: Pr,
    canonicalHead: string,
    authority: Authority,
    closureEligible: bool)

  datatype Finding = Finding(
    pr: Pr,
    disposition: Disposition,
    lifecycle: Lifecycle,
    action: Action,
    supersession: Option<Evidence>,
    canonicalPr: Option<Pr>,
    related: seq<Pr>)

  type Findings = map<Pr, Finding>

  const MAX_COMPARISONS: nat := 64

  predicate SameStreamSlot(left: Provenance, right: Provenance) {
    && left.agent == right.agent
    && left.beadIds * right.beadIds != {}
    && left.generation != right.stackBase
    && right.generation != left.stackBase
    && left.stackState == right.stackState
    && (left.stackState == "root" || left.stackState == "blocked_on_parent")
    && left.stackBase == right.stackBase
  }

  lemma SameStreamSlotIsSymmetric(left: Provenance, right: Provenance)
    ensures SameStreamSlot(left, right) == SameStreamSlot(right, left)
  {
    assert left.beadIds * right.beadIds == right.beadIds * left.beadIds;
  }

  /** Facts with provenance and without a metadata error; a later fact for a PR wins. */
  function ValidEntries(facts: seq<Fact>): Entries {
    if facts == [] then map[] else
      var fact := facts[|facts| - 1];
      var earlier := ValidEntries(facts[..|facts| - 1]);
      if fact.metadataError.None? && fact.provenance.Some?
      then earlier[fact.pr := Entry(fact, fact.provenance.value)]
      else earlier
  }

  lemma {:induction false} ValidEntriesAreFacts(facts: seq<Fact>, p: Pr)
    requires p in ValidEntries(facts)
    ensures
      var e := ValidEntries(facts)[p];
      e.fact in facts && e.fact.pr == p && e.fact.metadataError.None? && e.fact.provenance == Some(e.provenance)
  {
    var n := |facts| - 1;
    var fact := facts[n];
    if !(fact.metadataError.None? && fact.provenance.Some? && fact.pr == p) {
      ValidEntriesAreFacts(facts[..n], p);
    }
  }

  function InvalidFindings(facts: seq<Fact>): Findings {
    if facts == [] then map[] else
      var fact := facts[|facts| - 1];
      var rest := InvalidFindings(facts[..|facts| - 1]);
      if fact.metadataError.Some? then rest[fact.pr := InvalidFinding(fact.pr)] else rest
  }

  lemma {:induction false} InvalidFindingsAreInvalid(facts: seq<Fact>, p: Pr)
    ensures p in InvalidFindings(facts) ==> InvalidFindings(facts)[p] == InvalidFinding(p)
    ensures p in InvalidFindings(facts) <==> exists f :: f in facts && f.pr == p && f.metadataError.Some?
  {
    if facts != [] {
      var n := |facts| - 1;
      InvalidFindingsAreInvalid(facts[..n], p);
      assert facts == facts[..n] + [facts[n]];
    }
  }

  function InvalidFinding(p: Pr): Finding {
    Finding(p, InvalidMetadata, Invalid, Preserve, None, None, [p])
  }

  predicate DistinctPrs(facts: seq<Fact>) {
    forall i, j :: 0 <= i < j < |facts| ==> facts[i].pr != facts[j].pr
  }

  /** With distinct PRs the entries do not depend on the order of the facts. */
  lemma {:induction false} ValidEntriesAreTheValidFacts(facts: seq<Fact>, f: Fact)
    requires DistinctPrs(facts) && f in facts && f.metadataError.None? && f.provenance.Some?
    ensures f.pr in ValidEntries(facts) && ValidEntries(facts)[f.pr] == Entry(f, f.provenance.value)
  {
    var n := |facts| - 1;
    if f != facts[n] {
      assert facts == facts[..n] + [facts[n]];
      ValidEntriesAreTheValidFacts(facts[..n], f);
      var i :| 0 <= i < n && facts[i] == f;
    }
  }

  lemma EntriesIgnoreOrder(facts: seq<Fact>, other: seq<Fact>)
    requires DistinctPrs(facts) && DistinctPrs(other)
    requires forall f :: f in facts <==> f in other
    ensures ValidEntries(facts) == ValidEntries(other)
    ensures InvalidFindings(facts) == InvalidFindings(other)
  {
    EntriesAreAmong(facts, other);
    EntriesAreAmong(other, facts);
  }

  lemma EntriesAreAmong(facts: seq<Fact>, other: seq<Fact>)
    requires DistinctPrs(other)
    requires forall f :: f in facts ==> f in other
    ensures forall p :: p in ValidEntries(facts) ==> p in ValidEntries(other) && ValidEntries(other)[p] == ValidEntries(facts)[p]
    ensures forall p :: p in InvalidFindings(facts) ==> p in InvalidFindings(other) && InvalidFindings(other)[p] == InvalidFindings(facts)[p]
  {
    forall p | p in ValidEntries(facts)
      ensures p in ValidEntries(other) && ValidEntries(other)[p] == ValidEntries(facts)[p]
    {
      ValidEntriesAreFacts(facts, p);
      ValidEntriesAreTheValidFacts(other, ValidEntries(facts)[p].fact);
    }
    forall p | p in InvalidFindings(facts)
      ensures p in InvalidFindings(other) && InvalidFindings(other)[p] == InvalidFindings(facts)[p]
    {
      InvalidFindingsAreInvalid(facts, p);
      InvalidFindingsAreInvalid(other, p);
    }
  }
}

/** Connected components of the sibling relation, and the breadth-first search that finds them. */
module GenerationComponents {
  import opened Common
  import opened Sequences
  import opened Ordering
  import opened Generations

  predicate Adjacent(v: Entries, a: Pr, b: Pr) {
    a in v && b in v && SameStreamSlot(v[a].provenance, v[b].provenance)
  }

  ghost predicate IsPath(v: Entries, path: seq<Pr>, a: Pr, b: Pr) {
    && path != [] && path[0] == a && path[|path| - 1] == b
    && (forall i :: 0 <= i < |path| ==> path[i] in v)
    && forall i, j :: 0 <= i && i + 1 == j < |path| ==> Adjacent(v, path[i], path[j])
  }

  /** Linked directly or through a chain of siblings. */
  ghost predicate Connected(v: Entries, a: Pr, b: Pr) {
    exists path :: IsPath(v, path, a, b)
  }

  lemma ConnectedIsReflexive(v: Entries, a: Pr)
    requires a in v
    ensures Connected(v, a, a)
  {
    assert IsPath(v, [a], a, a);
  }

  lemma ConnectedExtends(v: Entries, a: Pr, b: Pr, c: Pr)
    requires Connected(v, a, b) && Adjacent(v, b, c)
    ensures Connected(v, a, c)
  {
    var path :| IsPath(v, path, a, b);
    assert IsPath(v, path + [c], a, c);
  }

  lemma ConnectedIsTransitive(v: Entries, a: Pr, b: Pr, c: Pr)
    requires Connected(v, a, b) && Connected(v, b, c)
    ensures Connected(v, a, c)
  {
    var path :| IsPath(v, path, b, c);
    WalkPath(v, a, path, b, c);
  }

  lemma {:induction false} WalkPath(v: Entries, a: Pr, path: seq<Pr>, b: Pr, c: Pr)
    requires Connected(v, a, b) && IsPath(v, path, b, c)
    ensures Connected(v, a, c)
    decreases |path|
  {
    if |path| > 1 {
      ConnectedExtends(v, a, b, path[1]);
      WalkPath(v, a, path[1..], path[1], c);
    }
  }

  lemma ConnectedIsSymmetric(v: Entries, a: Pr, b: Pr)
    requires Connected(v, a, b)
    ensures Connected(v, b, a)
  {
    var path :| IsPath(v, path, a, b);
    var n := |path|;
    var back := seq(n, i requires 0 <= i < n => path[n - 1 - i]);
    forall i, j | 0 <= i && i + 1 == j < n
      ensures Adjacent(v, back[i], back[j])
    {
      assert Adjacent(v, path[n - 1 - j], path[n - 1 - i]);
      SameStreamSlotIsSymmetric(v[back[i]].provenance, v[back[j]].provenance);
    }
    assert IsPath(v, back, b, a);
  }

  /** A set that keeps all its neighbours keeps everything connected to it. */
  lemma {:induction false} ClosedSetsKeepPaths(v: Entries, s: set<Pr>, path: seq<Pr>, a: Pr, b: Pr)
    requires Closed(v, s) && a in s && IsPath(v, path, a, b)
    ensures b in s
    decreases |path|
  {
    if |path| > 1 {
      assert Adjacent(v, path[0], path[1]);
      ClosedSetsKeepPaths(v, s, path[1..], path[1], b);
    }
  }

  ghost predicate Closed(v: Entries, s: set<Pr>) {
    forall a, b :: a in s && Adjacent(v, a, b) ==> b in s
  }

  ghost function ComponentOf(v: Entries, a: Pr): (c: set<Pr>)
    ensures forall b :: b in c <==> b in v && Connected(v, a, b)
  {
    set b | b in v && Connected(v, a, b)
  }

  lemma ComponentsAreClasses(v: Entries, a: Pr, b: Pr)
    requires a in v && b in ComponentOf(v, a)
    ensures ComponentOf(v, a) == ComponentOf(v, b)
  {
    ConnectedIsSymmetric(v, a, b);
    forall c | c in v
      ensures c in ComponentOf(v, a) <==> c in ComponentOf(v, b)
    {
      if Connected(v, a, c) {
        ConnectedIsTransitive(v, b, a, c);
      }
      if Connected(v, b, c) {
        ConnectedIsTransitive(v, a, b, c);
      }
    }
  }

  /** The components of a closed set, by ascending least member, each ascending. */
  ghost function ComponentList(v: Entries, unseen: set<Pr>): seq<seq<Pr>>
    requires unseen <= v.Keys
    decreases |unseen|
  {
    if unseen == {} then [] else
      var start := Least(unseen);
      var component := ComponentOf(v, start) * unseen;
      ConnectedIsReflexive(v, start);
      assert start in component && unseen - component <= unseen - {start};
      SubsetIsSmaller(unseen - component, unseen - {start});
      [Ascending(component)] + ComponentList(v, unseen - component)
  }

  function Elements(s: seq<Pr>): (e: set<Pr>)
    ensures forall x :: x in e <==> x in s
  {
    set x | x in s
  }

  /** Each listed component is exactly one class, and the list has no repetition. */
  ghost predicate IsComponentList(v: Entries, unseen: set<Pr>, cs: seq<seq<Pr>>) {
    && (forall i, p :: 0 <= i < |cs| && p in cs[i] ==> p in unseen && Elements(cs[i]) == ComponentOf(v, p))
    && (forall i :: 0 <= i < |cs| ==> cs[i] != [] && StrictlyAscending(cs[i]))
    && (forall p :: p in unseen ==> exists i :: 0 <= i < |cs| && p in cs[i])
    && (forall i, j, p :: 0 <= i < j < |cs| && p in cs[i] ==> p !in cs[j])
  }

  lemma RemovingAComponentStaysClosed(v: Entries, unseen: set<Pr>, start: Pr)
    requires unseen <= v.Keys && Closed(v, unseen) && start in unseen
    ensures ComponentOf(v, start) <= unseen
    ensures Closed(v, unseen - ComponentOf(v, start))
  {
    forall b | b in ComponentOf(v, start)
      ensures b in unseen
    {
      var path :| IsPath(v, path, start, b);
      ClosedSetsKeepPaths(v, unseen, path, start, b);
    }
    forall a, b | a in unseen - ComponentOf(v, start) && Adjacent(v, a, b)
      ensures b !in ComponentOf(v, start)
    {
      if b in ComponentOf(v, start) {
        SameStreamSlotIsSymmetric(v[a].provenance, v[b].provenance);
        ConnectedExtends(v, start, b, a);
      }
    }
  }

  lemma ConsKeepsComponentList(v: Entries, unseen: set<Pr>, start: Pr, component: set<Pr>, rest: seq<seq<Pr>>)
    requires unseen <= v.Keys && start in unseen
    requires component == ComponentOf(v, start) && component <= unseen && start in component
    requires IsComponentList(v, unseen - component, rest)
    ensures IsComponentList(v, unseen, [Ascending(component)] + rest)
  {
    var cs := [Ascending(component)] + rest;
    forall i, p | 0 <= i < |cs| && p in cs[i]
      ensures p in unseen && Elements(cs[i]) == ComponentOf(v, p)
    {
      if i == 0 {
        assert cs[0] == Ascending(component) && Elements(cs[0]) == component;
        ComponentsAreClasses(v, start, p);
      } else {
        assert cs[i] == rest[i - 1];
        assert p in unseen - component;
      }
    }
    forall p | p in unseen
      ensures exists i :: 0 <= i < |cs| && p in cs[i]
    {
      if p in component {
        assert p in cs[0];
      } else {
        assert p in unseen - component;
        var i :| 0 <= i < |rest| && p in rest[i];
        assert p in cs[i + 1];
      }
    }
    forall i, j, p | 0 <= i < j < |cs| && p in cs[i]
      ensures p !in cs[j]
    {
      assert cs[j] == rest[j - 1];
      assert i > 0 ==> p in rest[i - 1];
    }
  }

  lemma {:induction false} ComponentListIsCorrect(v: Entries, unseen: set<Pr>)
    requires unseen <= v.Keys && Closed(v, unseen)
    ensures IsComponentList(v, unseen, ComponentList(v, unseen))
    decreases |unseen|
  {
    if unseen != {} {
      var start := Least(unseen);
      var component := ComponentOf(v, start);
      RemovingAComponentStaysClosed(v, unseen, start);
      assert component * unseen == component;
      ConnectedIsReflexive(v, start);
      SubsetIsSmaller(unseen - component, unseen - {start});
      ComponentListIsCorrect(v, unseen - component);
      ConsKeepsComponentList(v, unseen, start, component, ComponentList(v, unseen - component));
    }
  }

  // ----- the search -----

  lemma NextComponent(v: Entries, unseen: set<Pr>)
    requires unseen <= v.Keys && Closed(v, unseen) && unseen != {}
    ensures
      var component := ComponentOf(v, Least(unseen));
      && Closed(v, unseen - component)
      && |unseen - component| < |unseen|
      && ComponentList(v, unseen) == [Ascending(component)] + ComponentList(v, unseen - component)
  {
    var start := Least(unseen);
    var component := ComponentOf(v, start);
    RemovingAComponentStaysClosed(v, unseen, start);
    ConnectedIsReflexive(v, start);
    SubsetIsSmaller(unseen - component, unseen - {start});
    assert component * unseen == component;
  }

  /** The components listed so far and those of the unseen rest are all there are. */
  ghost predicate Listed(v: Entries, components: seq<seq<Pr>>, unseen: set<Pr>) {
    && unseen <= v.Keys && Closed(v, unseen)
    && components + ComponentList(v, unseen) == ComponentList(v, v.Keys)
  }

  lemma ListNext(v: Entries, components: seq<seq<Pr>>, unseen: set<Pr>)
    requires Listed(v, components, unseen) && unseen != {}
    ensures
      var component := ComponentOf(v, Least(unseen));
      Listed(v, components + [Ascending(component)], unseen - component) && |unseen - component| < |unseen|
  {
    NextComponent(v, unseen);
    var component := ComponentOf(v, Least(unseen));
    var (now, rest) := (Ascending(component), ComponentList(v, unseen - component));
    AppendAssociates(components, [now], rest);
  }

  /** Breadth-first search over the unseen pull requests, least one first. */
  lemma RestOfComponent(v: Entries, start: Pr, unseen: set<Pr>)
    requires start in unseen && start in v
    ensures unseen - {start} + {start} == unseen
    ensures unseen - {start} - ComponentOf(v, start) == unseen - ComponentOf(v, start)
  {
    ConnectedIsReflexive(v, start);
  }

  method FindComponents(v: Entries) returns (components: seq<seq<Pr>>)
    ensures components == ComponentList(v, v.Keys)
  {
    var unseen := v.Keys;
    components := [];
    assert [] + ComponentList(v, v.Keys) == ComponentList(v, v.Keys);
    while unseen != {}
      invariant Listed(v, components, unseen)
      decreases |unseen|
    {
      ListNext(v, components, unseen);
      var start := Least(unseen);
      RestOfComponent(v, start, unseen);
      var component, rest := Flood(v, start, unseen - {start});
      unseen, components := rest, components + [component];
    }
  }

  /** Found, queued and unseen pull requests partition what the search may reach. */
  ghost predicate Searching(v: Entries, start: Pr, others: set<Pr>, found: seq<Pr>, queue: seq<Pr>, unseen: set<Pr>) {
    && unseen <= others <= v.Keys && start in v && start !in others
    && (start in found || start in queue)
    && (forall p :: p in found || p in queue ==> p in v && p !in unseen && Connected(v, start, p))
    && (forall p :: p in others ==> p in found || p in queue || p in unseen)
    && (forall p :: p in found || p in queue ==> p in others || p == start)
    && (forall p, q :: p in found && Adjacent(v, p, q) ==> q in found || q in queue)
  }

  function Peers(v: Entries, current: Pr, unseen: set<Pr>): set<Pr> {
    set peer | peer in unseen && Adjacent(v, current, peer)
  }

  lemma RoundKeepsSearching(v: Entries, start: Pr, others: set<Pr>, found: seq<Pr>, queue: seq<Pr>, unseen: set<Pr>)
    requires Searching(v, start, others, found, queue, unseen) && queue != [] && Closed(v, others + {start})
    ensures
      var peers := Peers(v, queue[0], unseen);
      Searching(v, start, others, found + [queue[0]], queue[1..] + Ascending(peers), unseen - peers)
  {
    var current := queue[0];
    var peers := Peers(v, current, unseen);
    var (found', queue', unseen') := (found + [current], queue[1..] + Ascending(peers), unseen - peers);
    forall p | p in found' || p in queue'
      ensures p in v && p !in unseen' && Connected(v, start, p) && (p in others || p == start)
    {
      if p in peers {
        ConnectedExtends(v, start, current, p);
      } else {
        assert p in found || p in queue;
      }
    }
    assert queue == [current] + queue[1..];
    forall p, q | p in found' && Adjacent(v, p, q)
      ensures q in found' || q in queue'
    {
      if p == current {
        assert current in others + {start};
        assert q in others + {start};
        if q in unseen {
          assert q in peers;
        }
      }
    }
  }

  /** Each round moves one queued pull request out, so unseen plus queued shrinks. */
  method Flood(v: Entries, start: Pr, others: set<Pr>) returns (component: seq<Pr>, unseen: set<Pr>)
    requires start in v && start !in others && others <= v.Keys && Closed(v, others + {start})
    ensures component == Ascending(ComponentOf(v, start))
    ensures unseen == others - ComponentOf(v, start)
  {
    var found, queue := [], [start];
    unseen := others;
    ConnectedIsReflexive(v, start);
    while queue != []
      invariant Searching(v, start, others, found, queue, unseen)
      decreases |unseen| + |queue|
    {
      RoundKeepsSearching(v, start, others, found, queue, unseen);
      var current := queue[0];
      var peers := Sorted(Peers(v, current, unseen));
      found, queue := found + [current], queue[1..];
      unseen, queue := TakePeers(unseen, queue, peers, Peers(v, current, unseen));
    }
    SearchIsComplete(v, start, found);
    var all := set p | p in found;
    assert all == ComponentOf(v, start);
    component := Sorted(all);
  }

  /** Move every peer from the unseen set to the end of the queue. */
  method TakePeers(unseen: set<Pr>, queue: seq<Pr>, peers: seq<Pr>, ghost all: set<Pr>)
    returns (unseen': set<Pr>, queue': seq<Pr>)
    requires peers == Ascending(all) && all <= unseen
    ensures unseen' == unseen - all && queue' == queue + peers
    ensures |unseen'| + |peers| == |unseen|
  {
    unseen', queue' := unseen, queue;
    for i := 0 to |peers|
      invariant forall p :: p in unseen' <==> p in unseen && p !in peers[..i]
      invariant |unseen'| + i == |unseen|
      invariant queue' == queue + peers[..i]
    {
      assert peers[i] in peers && peers[i] !in peers[..i];
      assert peers[..i + 1] == peers[..i] + [peers[i]];
      unseen' := unseen' - {peers[i]};
      queue' := queue' + [peers[i]];
    }
    assert peers[..|peers|] == peers;
  }

  lemma SearchIsComplete(v: Entries, start: Pr, found: seq<Pr>)
    requires start in found
    requires forall p :: p in found ==> p in v && Connected(v, start, p)
    requires forall p, q :: p in found && Adjacent(v, p, q) ==> q in found
    ensures forall p :: p in found <==> p in ComponentOf(v, start)
  {
    var all := set p | p in found;
    forall p | p in ComponentOf(v, start)
      ensures p in found
    {
      var path :| IsPath(v, path, start, p);
      ClosedSetsKeepPaths(v, all, path, start, p);
    }
  }
}
