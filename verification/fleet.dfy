/**
 Fleets of active caravan members (README.md "Core model", src/graph.rs). A caravan
 is a chain: its head targets the default branch, and each later member targets the
 branch of its predecessor.
 */
module Fleets {
  import opened Common
  import opened Ordering
  import opened Sequences

  /** An open member: its branch, the commit of that branch, and the branch it targets. */
  datatype Member = Member(head: string, oid: string, base: string)

  type Fleet = map<Pr, Member>

  predicate UniqueHeads(f: Fleet) {
    forall p, q :: p in f && q in f && f[p].head == f[q].head ==> p == q
  }

  /** q targets the branch of p. Targeting the default branch makes a root instead. */
  predicate IsChild(f: Fleet, d: string, p: Pr, q: Pr) {
    p in f && q in f && f[q].base != d && f[q].base == f[p].head
  }

  predicate NoBranching(f: Fleet, d: string) {
    forall p, q, r :: p in f && q in f && r in f && IsChild(f, d, p, q) && IsChild(f, d, p, r) ==> q == r
  }

  predicate IsRoot(f: Fleet, d: string, p: Pr) {
    p in f && f[p].base == d
  }

  ghost predicate IsPath(f: Fleet, d: string, c: seq<Pr>) {
    && c != [] && c[0] in f
    && forall i, j :: 0 <= i && i + 1 == j < |c| ==> IsChild(f, d, c[i], c[j])
  }

  ghost predicate IsTail(f: Fleet, d: string, p: Pr) {
    forall q :: !IsChild(f, d, p, q)
  }

  /** A whole chain, from a root to a member that nobody targets. */
  ghost predicate IsCaravan(f: Fleet, d: string, c: seq<Pr>) {
    IsPath(f, d, c) && IsRoot(f, d, c[0]) && IsTail(f, d, c[|c| - 1])
  }

  ghost predicate InCaravan(f: Fleet, d: string, p: Pr) {
    exists c :: IsCaravan(f, d, c) && p in c
  }

  /** Every member is in a chain that starts at the default branch. */
  ghost predicate AllInCaravans(f: Fleet, d: string) {
    forall p {:trigger InCaravan(f, d, p)} :: p in f ==> InCaravan(f, d, p)
  }

  /** No structural problem: branches are unique, chains do not fork, and every member is in a chain. */
  ghost predicate WellFormed(f: Fleet, d: string) {
    UniqueHeads(f) && NoBranching(f, d) && AllInCaravans(f, d)
  }

  lemma PathMember(f: Fleet, d: string, c: seq<Pr>, i: nat)
    requires IsPath(f, d, c) && i < |c|
    ensures c[i] in f
  {
    if i > 0 {
      assert IsChild(f, d, c[i - 1], c[i]);
    }
  }

  /** With unique heads a member has one parent, so a path from a root is fixed by its end. */
  lemma {:induction false} PathsMeetOnlyAsPrefixes(f: Fleet, d: string, a: seq<Pr>, i: nat, b: seq<Pr>, j: nat)
    requires UniqueHeads(f) && IsPath(f, d, a) && IsPath(f, d, b) && IsRoot(f, d, a[0]) && IsRoot(f, d, b[0])
    requires i < |a| && j < |b| && a[i] == b[j]
    ensures i == j && a[..i + 1] == b[..j + 1]
  {
    LaterMembersAreNoRoots(f, d, a);
    LaterMembersAreNoRoots(f, d, b);
    if i == 0 || j == 0 {
      assert a[..1] == [a[0]] && b[..1] == [b[0]];
    } else {
      assert IsChild(f, d, a[i - 1], a[i]) && IsChild(f, d, b[j - 1], b[j]);
      PathsMeetOnlyAsPrefixes(f, d, a, i - 1, b, j - 1);
      assert a[..i + 1] == a[..i] + [a[i]] && b[..j + 1] == b[..j] + [b[j]];
    }
  }

  /** Two paths from one root agree as far as both go. */
  lemma {:induction false} PathsFromOneRoot(f: Fleet, d: string, a: seq<Pr>, b: seq<Pr>, k: nat)
    requires NoBranching(f, d) && IsPath(f, d, a) && IsPath(f, d, b) && a[0] == b[0]
    requires k < |a| && k < |b|
    ensures a[k] == b[k]
  {
    if k > 0 {
      PathsFromOneRoot(f, d, a, b, k - 1);
      assert IsChild(f, d, a[k - 1], a[k]) && IsChild(f, d, b[k - 1], b[k]);
    }
  }

  lemma CaravansAreMaximal(f: Fleet, d: string, c: seq<Pr>, path: seq<Pr>)
    requires NoBranching(f, d) && IsCaravan(f, d, c) && IsPath(f, d, path) && path[0] == c[0]
    ensures |path| <= |c|
  {
    if |c| < |path| {
      var (last, next) := (path[|c| - 1], path[|c|]);
      assert IsChild(f, d, last, next);
      PathsFromOneRoot(f, d, c, path, |c| - 1);
      assert false;
    }
  }

  lemma LaterMembersAreNoRoots(f: Fleet, d: string, c: seq<Pr>)
    requires IsPath(f, d, c)
    ensures forall i :: 0 < i < |c| ==> !IsRoot(f, d, c[i])
  {
    forall i | 0 < i < |c|
      ensures !IsRoot(f, d, c[i])
    {
      assert IsChild(f, d, c[i - 1], c[i]);
    }
  }

  /** Caravans are disjoint. */
  lemma CaravansAreDisjoint(f: Fleet, d: string, a: seq<Pr>, b: seq<Pr>, p: Pr)
    requires UniqueHeads(f) && NoBranching(f, d) && IsCaravan(f, d, a) && IsCaravan(f, d, b) && p in a && p in b
    ensures a == b
  {
    var i :| 0 <= i < |a| && a[i] == p;
    var j :| 0 <= j < |b| && b[j] == p;
    PathsMeetOnlyAsPrefixes(f, d, a, i, b, j);
    assert a[..i + 1][0] == b[..j + 1][0];
    CaravansAreMaximal(f, d, a, b);
    CaravansAreMaximal(f, d, b, a);
    forall k | 0 <= k < |a|
      ensures a[k] == b[k]
    {
      PathsFromOneRoot(f, d, a, b, k);
    }
  }

  /** No member occurs twice in a caravan. */
  lemma CaravanMembersAreDistinct(f: Fleet, d: string, c: seq<Pr>, i: nat, j: nat)
    requires UniqueHeads(f) && IsCaravan(f, d, c) && i < |c| && j < |c| && c[i] == c[j]
    ensures i == j
  {
    PathsMeetOnlyAsPrefixes(f, d, c, i, c, j);
  }

  // ----- the derivation -----

  /** The members that expose a branch. */
  function Owners(f: Fleet, branch: string): set<Pr> {
    set p | p in f && f[p].head == branch
  }

  /** The one member whose branch q targets, if exactly one exposes it. */
  function ParentOf(f: Fleet, d: string, q: Pr): (r: Option<Pr>)
    requires q in f
    ensures r.Some? ==> IsChild(f, d, r.value, q)
  {
    var owners := Owners(f, f[q].base);
    if f[q].base != d && |owners| == 1 then Some(Least(owners)) else None
  }

  function Children(f: Fleet, d: string, p: Pr): set<Pr> {
    set q | q in f && ParentOf(f, d, q) == Some(p)
  }

  /** With unique heads the parent of q is whoever it is a child of. */
  lemma ParentIsTheOwner(f: Fleet, d: string, p: Pr, q: Pr)
    requires UniqueHeads(f) && IsChild(f, d, p, q)
    ensures ParentOf(f, d, q) == Some(p)
  {
    assert Owners(f, f[q].base) == {p};
  }

  lemma NoChildren(f: Fleet, d: string, p: Pr)
    requires UniqueHeads(f) && Children(f, d, p) == {}
    ensures IsTail(f, d, p)
  {
    forall q
      ensures IsChild(f, d, p, q) ==> q in Children(f, d, p)
    {
      if IsChild(f, d, p, q) {
        ParentIsTheOwner(f, d, p, q);
      }
    }
  }

  datatype Problem =
    | DuplicateMember(pr: Pr)
    | MultipleHeads(pr: Pr)
    | DanglingBase(pr: Pr)
    | Branching(pr: Pr)
    | MissingHead(members: seq<Pr>)

  predicate SharesHead(f: Fleet, p: Pr)
    requires p in f
  {
    |Owners(f, f[p].head)| > 1
  }

  predicate Dangles(f: Fleet, d: string, q: Pr)
    requires q in f
  {
    f[q].base != d && Owners(f, f[q].base) == {}
  }

  predicate IsAmbiguous(f: Fleet, d: string, q: Pr)
    requires q in f
  {
    f[q].base != d && |Owners(f, f[q].base)| > 1
  }

  predicate IsClean(f: Fleet, d: string, q: Pr)
    requires q in f
  {
    !SharesHead(f, q) && !Dangles(f, d, q) && !IsAmbiguous(f, d, q) && |Children(f, d, q)| <= 1
  }

  /** No structural problem that one member shows by itself. */
  ghost predicate LocallySound(f: Fleet, d: string) {
    UniqueHeads(f) && NoBranching(f, d) && forall q :: q in f ==> !Dangles(f, d, q)
  }

  predicate Exposes(f: Fleet, p: Pr, branch: string) {
    p in f && f[p].head == branch
  }

  ghost predicate TwoExpose(f: Fleet, branch: string) {
    exists p, r :: Exposes(f, p, branch) && Exposes(f, r, branch) && p != r
  }

  ghost predicate HasTwo(s: set<Pr>) {
    exists p, r :: p in s && r in s && p != r
  }

  /** What each problem that one member shows by itself is about. */
  ghost predicate IsProblem(f: Fleet, d: string, x: Problem) {
    match x
    case DuplicateMember(q) => q in f && TwoExpose(f, f[q].head)
    case DanglingBase(q) => q in f && f[q].base != d && forall p :: !Exposes(f, p, f[q].base)
    case MultipleHeads(q) => q in f && f[q].base != d && TwoExpose(f, f[q].base)
    case Branching(q) => q in f && HasTwo(Children(f, d, q))
    case MissingHead(_) => false
  }

  function SubjectOf(x: Problem): Option<Pr> {
    match x
    case MissingHead(_) => None
    case _ => Some(x.pr)
  }

  lemma ManyOwners(f: Fleet, branch: string)
    ensures |Owners(f, branch)| > 1 <==> TwoExpose(f, branch)
    ensures Owners(f, branch) == {} <==> forall p :: !Exposes(f, p, branch)
  {
    AtMostOne(Owners(f, branch));
    assert forall p :: p in Owners(f, branch) <==> Exposes(f, p, branch);
  }

  lemma ProblemsOf(f: Fleet, d: string, q: Pr)
    requires q in f
    ensures SharesHead(f, q) <==> IsProblem(f, d, DuplicateMember(q))
    ensures Dangles(f, d, q) <==> IsProblem(f, d, DanglingBase(q))
    ensures IsAmbiguous(f, d, q) <==> IsProblem(f, d, MultipleHeads(q))
    ensures |Children(f, d, q)| > 1 <==> IsProblem(f, d, Branching(q))
  {
    ManyOwners(f, f[q].head);
    ManyOwners(f, f[q].base);
    AtMostOne(Children(f, d, q));
  }

  method FindProblems(f: Fleet, d: string, q: Pr) returns (r: seq<Problem>)
    requires q in f
    ensures r == [] <==> IsClean(f, d, q)
    ensures forall x :: x in r <==> IsProblem(f, d, x) && SubjectOf(x) == Some(q)
  {
    ProblemsOf(f, d, q);
    r := [];
    if SharesHead(f, q) {
      r := r + [DuplicateMember(q)];
    }
    if Dangles(f, d, q) {
      r := r + [DanglingBase(q)];
    }
    if IsAmbiguous(f, d, q) {
      r := r + [MultipleHeads(q)];
    }
    if |Children(f, d, q)| > 1 {
      r := r + [Branching(q)];
    }
  }

  /** Members without a parent are roots: they target the default branch, no member, or several. */
  method FindRoots(f: Fleet, d: string) returns (roots: set<Pr>, problems: seq<Problem>)
    ensures forall q :: q in roots <==> q in f && ParentOf(f, d, q).None?
    ensures problems == [] <==> LocallySound(f, d)
    ensures forall x :: x in problems <==> IsProblem(f, d, x)
  {
    var order := Sorted(f.Keys);
    roots, problems := CollectRoots(f, d, order);
    CleanMeansSound(f, d, order);
  }

  method CollectRoots(f: Fleet, d: string, order: seq<Pr>) returns (roots: set<Pr>, problems: seq<Problem>)
    requires forall q :: q in order ==> q in f
    ensures forall q :: q in roots <==> q in order && ParentOf(f, d, q).None?
    ensures problems == [] <==> CleanUpTo(f, d, order, |order|)
    ensures forall x :: x in problems <==> IsProblem(f, d, x) && SubjectOf(x).Some? && SubjectOf(x).value in order
  {
    roots, problems := {}, [];
    for i := 0 to |order|
      invariant forall q :: q in roots <==> q in order[..i] && ParentOf(f, d, q).None?
      invariant problems == [] <==> CleanUpTo(f, d, order, i)
      invariant forall x :: x in problems <==> IsProblem(f, d, x) && SubjectOf(x).Some? && SubjectOf(x).value in order[..i]
    {
      var q := order[i];
      assert order[..i + 1] == order[..i] + [q];
      if ParentOf(f, d, q).None? {
        roots := roots + {q};
      }
      var found := FindProblems(f, d, q);
      OneMoreClean(f, d, order, i);
      problems := problems + found;
    }
    assert order[..|order|] == order;
  }

  ghost predicate CleanUpTo(f: Fleet, d: string, order: seq<Pr>, n: nat)
    requires n <= |order| && forall q :: q in order ==> q in f
  {
    forall k :: 0 <= k < n ==> IsClean(f, d, order[k])
  }

  lemma OneMoreClean(f: Fleet, d: string, order: seq<Pr>, i: nat)
    requires i < |order| && forall q :: q in order ==> q in f
    ensures CleanUpTo(f, d, order, i + 1) <==> CleanUpTo(f, d, order, i) && IsClean(f, d, order[i])
  {
  }

  lemma AtMostOne(s: set<Pr>)
    ensures |s| <= 1 <==> forall a, b :: a in s && b in s ==> a == b
  {
    if s != {} {
      var x :| x in s;
      assert s == {x} + (s - {x});
      if |s| > 1 {
        var y :| y in s - {x};
      }
    }
  }

  lemma CleanMeansSound(f: Fleet, d: string, order: seq<Pr>)
    requires forall q :: q in order <==> q in f
    ensures CleanUpTo(f, d, order, |order|) <==> LocallySound(f, d)
  {
    CleanMembersMeanSound(f, d);
    if CleanUpTo(f, d, order, |order|) {
      forall q | q in f
        ensures IsClean(f, d, q)
      {
        var k :| 0 <= k < |order| && order[k] == q;
      }
    }
  }

  lemma CleanMembersMeanSound(f: Fleet, d: string)
    ensures (forall q :: q in f ==> IsClean(f, d, q)) <==> LocallySound(f, d)
  {
    forall q | q in f
      ensures LocallySound(f, d) ==> IsClean(f, d, q)
    {
      AtMostOne(Owners(f, f[q].head));
      AtMostOne(Owners(f, f[q].base));
      AtMostOne(Children(f, d, q));
    }
    if forall q :: q in f ==> IsClean(f, d, q) {
      forall p, q | p in f && q in f && f[p].head == f[q].head
        ensures p == q
      {
        assert IsClean(f, d, p);
        AtMostOne(Owners(f, f[p].head));
        assert p in Owners(f, f[p].head) && q in Owners(f, f[p].head);
      }
      forall p, q, r | IsChild(f, d, p, q) && IsChild(f, d, p, r)
        ensures q == r
      {
        assert IsClean(f, d, p);
        ParentIsTheOwner(f, d, p, q);
        ParentIsTheOwner(f, d, p, r);
        AtMostOne(Children(f, d, p));
        assert q in Children(f, d, p) && r in Children(f, d, p);
      }
      assert forall q :: q in f && IsClean(f, d, q) ==> !Dangles(f, d, q);
    }
  }

  // ----- the walks -----

  predicate NoRepeats(c: seq<Pr>) {
    forall i, j :: 0 <= i < j < |c| ==> c[i] != c[j]
  }

  predicate IsOnlyChild(f: Fleet, d: string, p: Pr, q: Pr) {
    Children(f, d, p) == {q}
  }

  /** Each next member is the only child of the one before. */
  ghost predicate FollowsOnlyChildren(f: Fleet, d: string, c: seq<Pr>) {
    Chained(c, OnlyChildren(f, d))
  }

  function OnlyChildren(f: Fleet, d: string): (Pr, Pr) -> bool {
    (p: Pr, q: Pr) => IsOnlyChild(f, d, p, q)
  }

  lemma OnlyChild(children: set<Pr>)
    requires |children| == 1
    ensures children == {Least(children)}
  {
    AtMostOne(children);
  }

  lemma OnlyChildGoesOn(f: Fleet, d: string, members: seq<Pr>, next: Pr)
    requires members != [] && FollowsOnlyChildren(f, d, members) && IsOnlyChild(f, d, members[|members| - 1], next)
    ensures FollowsOnlyChildren(f, d, members + [next])
  {
    ChainGrows(members, next, OnlyChildren(f, d));
  }

  /** The member has no only child that is still to be visited. */
  ghost predicate IsExhausted(f: Fleet, d: string, p: Pr, visited: set<Pr>) {
    forall q :: IsOnlyChild(f, d, p, q) ==> q in visited
  }

  /** Whoever is visited, so is whoever it is a child of. */
  ghost predicate ParentClosed(f: Fleet, d: string, visited: set<Pr>) {
    forall p, q :: q in visited && IsChild(f, d, p, q) ==> p in visited
  }

  /** The walk so far. */
  ghost predicate IsWalk(f: Fleet, d: string, root: Pr, visited0: set<Pr>, members: seq<Pr>, visited: set<Pr>) {
    && IsPath(f, d, members) && members[0] == root && NoRepeats(members)
    && visited == visited0 + (set p | p in members)
    && forall p :: p in members ==> p in f && p !in visited0
  }

  lemma ChildIsChild(f: Fleet, d: string, p: Pr, q: Pr)
    requires q in Children(f, d, p)
    ensures IsChild(f, d, p, q)
  {
  }

  lemma WalkGoesOn(f: Fleet, d: string, root: Pr, visited0: set<Pr>, members: seq<Pr>, visited: set<Pr>, next: Pr)
    requires IsWalk(f, d, root, visited0, members, visited)
    requires IsChild(f, d, members[|members| - 1], next) && next !in visited
    ensures IsWalk(f, d, root, visited0, members + [next], visited + {next})
    ensures |f.Keys - (visited + {next})| < |f.Keys - visited|
  {
    PathGoesOn(f, d, members, next);
    NewMemberIsNoRepeat(members, next);
    FewerAreLeft(f.Keys, visited, next);
  }

  lemma PathGoesOn(f: Fleet, d: string, members: seq<Pr>, next: Pr)
    requires IsPath(f, d, members) && IsChild(f, d, members[|members| - 1], next)
    ensures IsPath(f, d, members + [next])
  {
  }

  lemma NewMemberIsNoRepeat(members: seq<Pr>, next: Pr)
    requires NoRepeats(members) && next !in members
    ensures NoRepeats(members + [next])
    ensures (set p | p in members + [next]) == (set p | p in members) + {next}
  {
  }

  lemma FewerAreLeft(all: set<Pr>, visited: set<Pr>, next: Pr)
    requires next in all && next !in visited
    ensures |all - (visited + {next})| < |all - visited|
  {
    var rest := all - (visited + {next});
    SubsetIsSmaller(rest, all - visited);
    assert next in all - visited && next !in rest;
  }

  /** Follow single children from a start until the chain ends or meets a visited member. */
  method WalkLinear(f: Fleet, d: string, root: Pr, visited0: set<Pr>) returns (members: seq<Pr>, visited: set<Pr>)
    requires root in f && root !in visited0
    ensures IsWalk(f, d, root, visited0, members, visited) && FollowsOnlyChildren(f, d, members)
    ensures IsExhausted(f, d, members[|members| - 1], visited)
    ensures StartsWell(f, d, root, visited0) ==> IsCaravan(f, d, members)
  {
    members := [root];
    visited := visited0 + {root};
    while true
      invariant IsWalk(f, d, root, visited0, members, visited) && FollowsOnlyChildren(f, d, members)
      decreases |f.Keys - visited|
    {
      var current := members[|members| - 1];
      var children := Children(f, d, current);
      WalkEnds(f, d, root, visited0, members, visited);
      if |children| != 1 {
        return;
      }
      var next := Least(children);
      OnlyChild(children);
      if next in visited {
        return;
      }
      OnlyChildGoesOn(f, d, members, next);
      ChildIsChild(f, d, current, next);
      WalkGoesOn(f, d, root, visited0, members, visited, next);
      members := members + [next];
      visited := visited + {next};
    }
  }

  ghost predicate StartsWell(f: Fleet, d: string, root: Pr, visited0: set<Pr>) {
    UniqueHeads(f) && NoBranching(f, d) && IsRoot(f, d, root) && ParentClosed(f, d, visited0)
  }

  /** In a fleet of good shape a walk from a root stops only at the end of its caravan. */
  lemma WalkEnds(f: Fleet, d: string, root: Pr, visited0: set<Pr>, members: seq<Pr>, visited: set<Pr>)
    requires IsWalk(f, d, root, visited0, members, visited)
    ensures
      var children := Children(f, d, members[|members| - 1]);
      StartsWell(f, d, root, visited0) && (|children| != 1 || Least(children) in visited) ==> IsCaravan(f, d, members)
  {
    var last := members[|members| - 1];
    var children := Children(f, d, last);
    if StartsWell(f, d, root, visited0) {
      if |children| != 1 {
        SingleChild(f, d, last);
      } else {
        WalkMeetsNoVisited(f, d, members, visited0, Least(children));
      }
    }
  }

  lemma SingleChild(f: Fleet, d: string, p: Pr)
    requires UniqueHeads(f) && NoBranching(f, d) && |Children(f, d, p)| != 1
    ensures IsTail(f, d, p)
  {
    var children := Children(f, d, p);
    AtMostOne(children);
    assert children == {};
    NoChildren(f, d, p);
  }

  lemma WalkMeetsNoVisited(f: Fleet, d: string, members: seq<Pr>, visited0: set<Pr>, next: Pr)
    requires UniqueHeads(f) && NoBranching(f, d) && IsPath(f, d, members) && IsRoot(f, d, members[0])
    requires ParentClosed(f, d, visited0) && forall p :: p in members ==> p !in visited0
    requires IsChild(f, d, members[|members| - 1], next)
    ensures next !in visited0 && next !in members
  {
    assert members[|members| - 1] in members;
    if next in members {
      var j :| 0 <= j < |members| && members[j] == next;
      var longer := members + [next];
      assert IsPath(f, d, longer);
      PathsMeetOnlyAsPrefixes(f, d, longer, |members|, members, j);
      assert false;
    }
  }

  /** A caravan added to visited members keeps parents visited. */
  lemma CaravanKeepsParents(f: Fleet, d: string, visited: set<Pr>, c: seq<Pr>)
    requires UniqueHeads(f) && ParentClosed(f, d, visited) && IsCaravan(f, d, c)
    ensures ParentClosed(f, d, visited + (set p | p in c))
  {
    forall p, q | q in c && IsChild(f, d, p, q)
      ensures p in c
    {
      var i :| 0 <= i < |c| && c[i] == q;
      if i > 0 {
        assert IsChild(f, d, c[i - 1], c[i]);
      }
    }
  }

  // ----- the list of caravans -----

  predicate SortedByHead(cs: seq<seq<Pr>>) {
    && (forall i :: 0 <= i < |cs| ==> cs[i] != [])
    && forall i, j :: 0 <= i < j < |cs| ==> cs[i][0] < cs[j][0]
  }

  ghost predicate Covered(cs: seq<seq<Pr>>, p: Pr) {
    exists c :: c in cs && p in c
  }

  /** The visited members, each in one place of one listed chain. */
  ghost predicate Partition(f: Fleet, d: string, visited: set<Pr>, cs: seq<seq<Pr>>) {
    && SortedByHead(cs)
    && (forall c :: c in cs ==> IsPath(f, d, c) && NoRepeats(c))
    && (forall p {:trigger Covered(cs, p)} :: p in visited <==> Covered(cs, p))
    && (forall a, b, p :: a in cs && b in cs && p in a && p in b ==> a == b)
  }

  /** Insert by the number of the first member. */
  function InsertByHead(cs: seq<seq<Pr>>, c: seq<Pr>): (r: seq<seq<Pr>>)
    requires c != [] && forall i :: 0 <= i < |cs| ==> cs[i] != []
    ensures forall x :: x in r <==> x == c || x in cs
  {
    if cs == [] || c[0] < cs[0][0] then [c] + cs else
      var rest := InsertByHead(cs[1..], c);
      assert cs == [cs[0]] + cs[1..];
      [cs[0]] + rest
  }

  lemma {:induction false} InsertKeepsSorted(cs: seq<seq<Pr>>, c: seq<Pr>)
    requires c != [] && SortedByHead(cs) && forall i :: 0 <= i < |cs| ==> cs[i][0] != c[0]
    ensures SortedByHead(InsertByHead(cs, c))
  {
    if cs != [] && c[0] > cs[0][0] {
      InsertKeepsSorted(cs[1..], c);
      var r := InsertByHead(cs[1..], c);
      forall j | 0 <= j < |r|
        ensures cs[0][0] < r[j][0]
      {
        assert r[j] in r;
        if r[j] != c {
          var k :| 0 <= k < |cs[1..]| && cs[1..][k] == r[j];
          assert cs[k + 1] == r[j];
        }
      }
    }
  }

  lemma InsertKeepsPartition(f: Fleet, d: string, visited: set<Pr>, cs: seq<seq<Pr>>, c: seq<Pr>)
    requires Partition(f, d, visited, cs) && IsPath(f, d, c) && NoRepeats(c)
    requires forall p :: p in c ==> p !in visited
    ensures Partition(f, d, visited + (set p | p in c), InsertByHead(cs, c))
  {
    forall i | 0 <= i < |cs|
      ensures cs[i][0] != c[0]
    {
      assert cs[i] in cs && cs[i][0] in cs[i] && Covered(cs, cs[i][0]);
      assert c[0] in c;
    }
    InsertKeepsSorted(cs, c);
    var r := InsertByHead(cs, c);
    forall p
      ensures p in visited + (set q | q in c) <==> Covered(r, p)
    {
      if p in c {
        assert c in r;
      } else if Covered(cs, p) {
        var x :| x in cs && p in x;
        assert x in r;
      }
    }
    forall a, b, p | a in r && b in r && p in a && p in b
      ensures a == b
    {
      if a != c && p in c {
        assert Covered(cs, p);
      }
      if b != c && p in c {
        assert Covered(cs, p);
      }
    }
  }

  ghost predicate AllCaravans(f: Fleet, d: string, cs: seq<seq<Pr>>) {
    forall c :: c in cs ==> IsCaravan(f, d, c)
  }

  /** A chain ends where its last member has no only child, or one that starts a chain. */
  ghost predicate EndsRightly(f: Fleet, d: string, cs: seq<seq<Pr>>, c: seq<Pr>) {
    c != [] && IsLast(f, d, cs, c[|c| - 1])
  }

  ghost predicate IsLast(f: Fleet, d: string, cs: seq<seq<Pr>>, p: Pr) {
    forall q :: IsOnlyChild(f, d, p, q) ==> exists h :: h in cs && Heads(h, q)
  }

  ghost predicate AllWhole(f: Fleet, d: string, cs: seq<seq<Pr>>) {
    forall c :: c in cs ==> FollowsOnlyChildren(f, d, c) && EndsRightly(f, d, cs, c)
  }

  /** An only child in the list that does not follow its parent starts its chain. */
  lemma ReachedAgain(f: Fleet, d: string, visited: set<Pr>, cs: seq<seq<Pr>>, c: seq<Pr>, q: Pr)
    requires Partition(f, d, visited, cs) && c in cs && q in visited && IsOnlyChild(f, d, c[|c| - 1], q)
    requires forall b :: b in cs ==> FollowsOnlyChildren(f, d, b)
    ensures exists h :: h in cs && Heads(h, q)
  {
    assert Covered(cs, q);
    var h :| h in cs && q in h;
    var i :| 0 <= i < |h| && h[i] == q;
    assert c[|c| - 1] in c && h != [];
    StartsItsChain(f, d, h, i, q, c);
  }

  lemma StartsItsChain(f: Fleet, d: string, h: seq<Pr>, i: nat, q: Pr, c: seq<Pr>)
    requires NoRepeats(h) && FollowsOnlyChildren(f, d, h) && i < |h| && h[i] == q
    requires c != [] && IsOnlyChild(f, d, c[|c| - 1], q) && (c[|c| - 1] in h ==> h == c)
    ensures i == 0
  {
    var last := c[|c| - 1];
    if i > 0 {
      OneParent(f, d, h[i - 1], last, q);
    }
  }

  lemma OneParent(f: Fleet, d: string, p: Pr, r: Pr, q: Pr)
    requires IsOnlyChild(f, d, p, q) && IsOnlyChild(f, d, r, q)
    ensures p == r
  {
    assert q in Children(f, d, p) && q in Children(f, d, r);
  }

  lemma InsertKeepsWhole(f: Fleet, d: string, visited: set<Pr>, cs: seq<seq<Pr>>, c: seq<Pr>)
    requires AllWhole(f, d, cs) && FollowsOnlyChildren(f, d, c) && c != [] && forall i :: 0 <= i < |cs| ==> cs[i] != []
    requires Partition(f, d, visited, InsertByHead(cs, c))
    requires IsExhausted(f, d, c[|c| - 1], visited)
    ensures AllWhole(f, d, InsertByHead(cs, c))
  {
    var r := InsertByHead(cs, c);
    forall b | b in r
      ensures b != [] && EndsRightly(f, d, r, b)
    {
      var last := b[|b| - 1];
      forall q | IsOnlyChild(f, d, last, q)
        ensures exists h :: h in r && Heads(h, q)
      {
        if b == c {
          ReachedAgain(f, d, visited, r, c, q);
        } else {
          assert EndsRightly(f, d, cs, b);
          var h :| h in cs && Heads(h, q);
          assert h in r;
        }
      }
    }
  }

  ghost predicate Adds(cs: seq<seq<Pr>>, c: seq<Pr>, more: seq<seq<Pr>>) {
    forall x :: x in more <==> x == c || x in cs
  }

  /** One walk, listed. */
  method WalkOnce(f: Fleet, d: string, start: Pr, caravans0: seq<seq<Pr>>, visited0: set<Pr>)
    returns (caravans: seq<seq<Pr>>, visited: set<Pr>, members: seq<Pr>)
    requires Partition(f, d, visited0, caravans0) && start in f && start !in visited0 && visited0 <= f.Keys
    ensures Partition(f, d, visited, caravans) && visited0 + {start} <= visited <= f.Keys
    ensures AllWhole(f, d, caravans0) ==> AllWhole(f, d, caravans)
    ensures Heads(members, start) && Adds(caravans0, members, caravans)
    ensures StartsWell(f, d, start, visited0) && AllCaravans(f, d, caravans0) ==>
      AllCaravans(f, d, caravans) && ParentClosed(f, d, visited)
  {
    members, visited := WalkLinear(f, d, start, visited0);
    InsertKeepsPartition(f, d, visited0, caravans0, members);
    assert members[0] in members;
    caravans := InsertByHead(caravans0, members);
    if AllWhole(f, d, caravans0) {
      InsertKeepsWhole(f, d, visited, caravans0, members);
    }
    if StartsWell(f, d, start, visited0) {
      CaravanKeepsParents(f, d, visited0, members);
    }
  }

  /** One walk from each root that no earlier walk met. */
  method WalkRoots(f: Fleet, d: string, roots: set<Pr>) returns (caravans: seq<seq<Pr>>, visited: set<Pr>)
    requires roots <= f.Keys
    ensures Partition(f, d, visited, caravans) && roots <= visited <= f.Keys
    ensures AllWhole(f, d, caravans) && forall c :: c in caravans ==> c[0] in roots
    ensures UniqueHeads(f) && NoBranching(f, d) && (forall q :: q in roots ==> IsRoot(f, d, q)) ==> AllCaravans(f, d, caravans)
  {
    caravans, visited := [], {};
    var order := Sorted(roots);
    for i := 0 to |order|
      invariant Partition(f, d, visited, caravans) && visited <= f.Keys && AllWhole(f, d, caravans)
      invariant forall c :: c in caravans ==> c[0] in roots
      invariant forall q :: q in order[..i] ==> q in visited
      invariant UniqueHeads(f) && NoBranching(f, d) && (forall q :: q in roots ==> IsRoot(f, d, q)) ==>
        AllCaravans(f, d, caravans) && ParentClosed(f, d, visited)
    {
      assert order[i] in order;
      assert order[..i + 1] == order[..i] + [order[i]];
      if order[i] !in visited {
        var members;
        caravans, visited, members := WalkOnce(f, d, order[i], caravans, visited);
      }
    }
    assert order[..|order|] == order;
  }

  /** Walks from the members that no root reaches: cycles and what hangs on them. */
  method WalkRest(f: Fleet, d: string, caravans0: seq<seq<Pr>>, visited0: set<Pr>)
    returns (caravans: seq<seq<Pr>>, problems: seq<Problem>)
    requires Listed(f, d, visited0, caravans0)
    ensures Listed(f, d, f.Keys, caravans)
    ensures IsHeadless(visited0, caravans0, caravans, problems)
    ensures problems == [] <==> visited0 == f.Keys
    ensures problems == [] ==> caravans == caravans0
  {
    caravans, problems := caravans0, [];
    var visited := visited0;
    var order := Sorted(f.Keys);
    for i := 0 to |order|
      invariant Listed(f, d, visited, caravans) && IsHeadless(visited0, caravans0, caravans, problems)
      invariant AllIn(order[..i], visited)
      invariant NoNews(caravans0, visited0, caravans, visited, problems)
    {
      var number := order[i];
      assert number in order;
      ghost var before := visited;
      if number !in visited {
        var (caravans', visited') := (caravans, visited);
        var members;
        caravans, visited, members := WalkHeadless(f, d, number, caravans, visited);
        OneMoreHeadless(visited0, caravans0, caravans', problems, caravans, members);
        HeadlessIsNews(caravans0, visited0, caravans', visited', problems, caravans, visited, number, members);
        problems := problems + [MissingHead(members)];
      }
      OneMoreIn(order, i, before, visited);
    }
    AllVisited(f, d, order, visited, caravans);
    NewsAtTheEnd(f.Keys, caravans0, visited0, caravans, visited, problems);
  }

  /** As long as no member without a head was met, nothing was added. */
  ghost predicate NoNews(caravans0: seq<seq<Pr>>, visited0: set<Pr>, caravans: seq<seq<Pr>>, visited: set<Pr>, problems: seq<Problem>) {
    && visited0 <= visited
    && if problems == [] then caravans == caravans0 && visited == visited0 else visited != visited0
  }

  lemma HeadlessIsNews(caravans0: seq<seq<Pr>>, visited0: set<Pr>, caravans: seq<seq<Pr>>, visited: set<Pr>,
                       problems: seq<Problem>, caravans': seq<seq<Pr>>, visited': set<Pr>, number: Pr, members: seq<Pr>)
    requires NoNews(caravans0, visited0, caravans, visited, problems)
    requires number !in visited && visited + {number} <= visited'
    ensures NoNews(caravans0, visited0, caravans', visited', problems + [MissingHead(members)])
  {
    assert number in visited' && number !in visited0;
  }

  lemma NewsAtTheEnd(all: set<Pr>, caravans0: seq<seq<Pr>>, visited0: set<Pr>, caravans: seq<seq<Pr>>, visited: set<Pr>,
                     problems: seq<Problem>)
    requires NoNews(caravans0, visited0, caravans, visited, problems) && visited == all
    ensures problems == [] <==> visited0 == all
    ensures problems == [] ==> caravans == caravans0
  {
  }

  lemma AllVisited(f: Fleet, d: string, order: seq<Pr>, visited: set<Pr>, cs: seq<seq<Pr>>)
    requires Listed(f, d, visited, cs) && (forall q :: q in order <==> q in f) && AllIn(order[..|order|], visited)
    ensures visited == f.Keys
  {
    assert order[..|order|] == order;
    forall q | q in f
      ensures q in visited
    {
      var k :| 0 <= k < |order| && order[k] == q;
    }
  }

  ghost predicate AllIn(order: seq<Pr>, visited: set<Pr>) {
    forall k :: 0 <= k < |order| ==> order[k] in visited
  }

  lemma OneMoreIn(order: seq<Pr>, i: nat, visited: set<Pr>, visited': set<Pr>)
    requires i < |order| && AllIn(order[..i], visited) && visited <= visited' && order[i] in visited'
    ensures AllIn(order[..i + 1], visited')
  {
    assert order[..i + 1] == order[..i] + [order[i]];
  }

  ghost predicate Listed(f: Fleet, d: string, visited: set<Pr>, cs: seq<seq<Pr>>) {
    Partition(f, d, visited, cs) && visited <= f.Keys && AllWhole(f, d, cs)
  }

  /** The added chains are those that are reported as headless; each starts outside of what the roots reach. */
  ghost predicate IsHeadless(visited0: set<Pr>, caravans0: seq<seq<Pr>>, caravans: seq<seq<Pr>>, problems: seq<Problem>) {
    && (forall c :: c in caravans <==> c in caravans0 || MissingHead(c) in problems)
    && forall x :: x in problems ==> x.MissingHead? && x.members != [] && x.members[0] !in visited0
  }

  lemma OneMoreHeadless(visited0: set<Pr>, caravans0: seq<seq<Pr>>, caravans: seq<seq<Pr>>, problems: seq<Problem>,
                        caravans': seq<seq<Pr>>, members: seq<Pr>)
    requires IsHeadless(visited0, caravans0, caravans, problems)
    requires Adds(caravans, members, caravans')
    requires members != [] && members[0] !in visited0
    ensures IsHeadless(visited0, caravans0, caravans', problems + [MissingHead(members)])
  {
  }

  method WalkHeadless(f: Fleet, d: string, start: Pr, caravans0: seq<seq<Pr>>, visited0: set<Pr>)
    returns (caravans: seq<seq<Pr>>, visited: set<Pr>, members: seq<Pr>)
    requires Listed(f, d, visited0, caravans0) && start in f && start !in visited0
    ensures Listed(f, d, visited, caravans) && visited0 + {start} <= visited
    ensures Heads(members, start) && Adds(caravans0, members, caravans)
  {
    caravans, visited, members := WalkOnce(f, d, start, caravans0, visited0);
  }

  /**
   The caravans of any fleet, in the order of their first members: every member is in one
   place of one of them, followed by its only child wherever it has one that does not
   start a chain itself. The problems are exactly those that single members show, and the
   chains without a head. There is none exactly when the fleet is well formed, and then
   the chains are exactly its caravans.
   */
  method Derive(f: Fleet, d: string) returns (caravans: seq<seq<Pr>>, problems: seq<Problem>)
    ensures Partition(f, d, f.Keys, caravans) && AllWhole(f, d, caravans)
    ensures forall x :: x in problems <==>
      IsProblem(f, d, x) || (x.MissingHead? && x.members in caravans && ParentOf(f, d, x.members[0]).Some?)
    ensures problems == [] <==> WellFormed(f, d)
    ensures problems == [] ==> forall c :: c in caravans <==> IsCaravan(f, d, c)
  {
    var roots, local := FindRoots(f, d);
    var fromRoots, visited := WalkRoots(f, d, roots);
    var headless;
    caravans, headless := WalkRest(f, d, fromRoots, visited);
    problems := local + headless;
    if LocallySound(f, d) {
      RootsOfSound(f, d, roots);
      RootsReachTheCaravans(f, d, roots, fromRoots, visited);
    } else {
      CaravansDoNotDangle(f, d);
    }
  }

  lemma RootsOfSound(f: Fleet, d: string, roots: set<Pr>)
    requires LocallySound(f, d) && forall q :: q in roots <==> q in f && ParentOf(f, d, q).None?
    ensures forall q :: q in roots <==> IsRoot(f, d, q)
  {
    forall q | q in f && f[q].base != d
      ensures ParentOf(f, d, q).Some?
    {
      assert !Dangles(f, d, q);
      var p :| p in Owners(f, f[q].base);
      ParentIsTheOwner(f, d, p, q);
    }
  }

  lemma RootsReachTheCaravans(f: Fleet, d: string, roots: set<Pr>, cs: seq<seq<Pr>>, visited: set<Pr>)
    requires UniqueHeads(f) && NoBranching(f, d) && AllCaravans(f, d, cs)
    requires Partition(f, d, visited, cs) && roots <= visited <= f.Keys && forall q :: q in roots <==> IsRoot(f, d, q)
    ensures visited == f.Keys <==> AllInCaravans(f, d)
    ensures forall c :: c in cs <==> IsCaravan(f, d, c)
  {
    forall c | IsCaravan(f, d, c)
      ensures c in cs
    {
      assert c[0] in roots && Covered(cs, c[0]);
      var b :| b in cs && c[0] in b;
      CaravansAreDisjoint(f, d, c, b, c[0]);
    }
    forall p | p in f
      ensures p in visited <==> InCaravan(f, d, p)
    {
      if p in visited {
        assert Covered(cs, p);
      }
      if InCaravan(f, d, p) {
        var c :| IsCaravan(f, d, c) && p in c;
        assert Covered(cs, p);
      }
    }
  }

  lemma CaravansDoNotDangle(f: Fleet, d: string)
    ensures WellFormed(f, d) ==> LocallySound(f, d)
  {
    if WellFormed(f, d) {
      forall q | q in f
        ensures !Dangles(f, d, q)
      {
        assert InCaravan(f, d, q);
        var c :| IsCaravan(f, d, c) && q in c;
        var i :| 0 <= i < |c| && c[i] == q;
        if i > 0 {
          assert IsChild(f, d, c[i - 1], c[i]);
          assert c[i - 1] in Owners(f, f[q].base);
        }
      }
    }
  }

  // ----- surgery -----

  /** Only the target of the source root changes. */
  function Retarget(f: Fleet, root: Pr, base: string): Fleet
    requires root in f
  {
    f[root := f[root].(base := base)]
  }

  /** Names decide the topology; commits do not. */
  ghost predicate SameNames(f: Fleet, g: Fleet) {
    f.Keys == g.Keys && forall p :: p in f ==> f[p].head == g[p].head && f[p].base == g[p].base
  }

  lemma SameNamesSameCaravans(f: Fleet, g: Fleet, d: string)
    requires SameNames(f, g)
    ensures forall c :: IsCaravan(f, d, c) <==> IsCaravan(g, d, c)
    ensures WellFormed(f, d) <==> WellFormed(g, d)
  {
    assert forall p, q :: IsChild(f, d, p, q) <==> IsChild(g, d, p, q);
    forall c
      ensures IsCaravan(f, d, c) <==> IsCaravan(g, d, c)
    {
      assert IsTail(f, d, if c == [] then 0 else c[|c| - 1]) <==> IsTail(g, d, if c == [] then 0 else c[|c| - 1]);
    }
    assert forall p :: InCaravan(f, d, p) <==> InCaravan(g, d, p);
    if UniqueHeads(f) || UniqueHeads(g) {
      assert UniqueHeads(f) && UniqueHeads(g);
    }
    if NoBranching(f, d) || NoBranching(g, d) {
      assert NoBranching(f, d) && NoBranching(g, d);
    }
  }

  /** Two caravans of a fleet in good shape. */
  ghost predicate Paired(f: Fleet, d: string, target: seq<Pr>, source: seq<Pr>) {
    && UniqueHeads(f) && NoBranching(f, d)
    && IsCaravan(f, d, target) && IsCaravan(f, d, source) && target != source
    && target[|target| - 1] in f
  }

  /** A caravan and one that can be appended to it: the tail is not the default branch itself. */
  ghost predicate Appendable(f: Fleet, d: string, target: seq<Pr>, source: seq<Pr>) {
    Paired(f, d, target, source) && f[target[|target| - 1]].head != d
  }

  ghost function Joined(f: Fleet, target: seq<Pr>, source: seq<Pr>): Fleet
    requires target != [] && source != [] && target[|target| - 1] in f && source[0] in f
  {
    Retarget(f, source[0], f[target[|target| - 1]].head)
  }

  /** The one new edge runs from the target tail to the source root. */
  lemma JoinedEdges(f: Fleet, d: string, target: seq<Pr>, source: seq<Pr>, p: Pr, q: Pr)
    requires Appendable(f, d, target, source)
    ensures IsChild(Joined(f, target, source), d, p, q) <==>
      IsChild(f, d, p, q) || (p == target[|target| - 1] && q == source[0])
  {
    RetargetedEdges(f, d, target[|target| - 1], source[0], p, q);
  }

  lemma RetargetedEdges(f: Fleet, d: string, tail: Pr, root: Pr, p: Pr, q: Pr)
    requires UniqueHeads(f) && tail in f && IsRoot(f, d, root) && f[tail].head != d
    ensures IsChild(Retarget(f, root, f[tail].head), d, p, q) <==> IsChild(f, d, p, q) || (p == tail && q == root)
  {
  }

  lemma PathsSurvive(f: Fleet, d: string, target: seq<Pr>, source: seq<Pr>, c: seq<Pr>)
    requires Appendable(f, d, target, source) && IsPath(f, d, c)
    ensures IsPath(Joined(f, target, source), d, c)
  {
    forall i, j | 0 <= i && i + 1 == j < |c|
      ensures IsChild(Joined(f, target, source), d, c[i], c[j])
    {
      JoinedEdges(f, d, target, source, c[i], c[j]);
    }
  }

  lemma JoinedCaravan(f: Fleet, d: string, target: seq<Pr>, source: seq<Pr>)
    requires Appendable(f, d, target, source)
    ensures IsCaravan(Joined(f, target, source), d, target + source)
  {
    var g := Joined(f, target, source);
    var c := target + source;
    SourceRootIsElsewhere(f, d, target, source);
    forall i, j | 0 <= i && i + 1 == j < |c|
      ensures IsChild(g, d, c[i], c[j])
    {
      JoinedEdges(f, d, target, source, c[i], c[j]);
      if j < |target| {
        assert IsChild(f, d, target[i], target[j]);
      } else if i >= |target| {
        assert IsChild(f, d, source[i - |target|], source[j - |target|]);
      }
    }
    var last := c[|c| - 1];
    assert last == source[|source| - 1];
    forall q
      ensures !IsChild(g, d, last, q)
    {
      JoinedEdges(f, d, target, source, last, q);
      if last == target[|target| - 1] {
        CaravansAreDisjoint(f, d, target, source, last);
      }
    }
  }

  lemma SourceRootIsElsewhere(f: Fleet, d: string, target: seq<Pr>, source: seq<Pr>)
    requires Appendable(f, d, target, source)
    ensures source[0] !in target
  {
    if source[0] in target {
      CaravansAreDisjoint(f, d, target, source, source[0]);
    }
  }

  /** Every other caravan is still there. */
  lemma OtherCaravansSurvive(f: Fleet, d: string, target: seq<Pr>, source: seq<Pr>, c: seq<Pr>)
    requires Appendable(f, d, target, source) && IsCaravan(f, d, c) && c != target && c != source
    ensures IsCaravan(Joined(f, target, source), d, c)
  {
    var g := Joined(f, target, source);
    PathsSurvive(f, d, target, source, c);
    if c[0] == source[0] {
      CaravansAreDisjoint(f, d, c, source, c[0]);
    }
    var last := c[|c| - 1];
    forall q
      ensures !IsChild(g, d, last, q)
    {
      JoinedEdges(f, d, target, source, last, q);
      if last == target[|target| - 1] {
        CaravansAreDisjoint(f, d, c, target, last);
      }
    }
  }

  lemma JoinedKeepsShape(f: Fleet, d: string, target: seq<Pr>, source: seq<Pr>)
    requires Appendable(f, d, target, source)
    ensures UniqueHeads(Joined(f, target, source)) && NoBranching(Joined(f, target, source), d)
  {
    var g := Joined(f, target, source);
    forall p, q, r | p in g && q in g && r in g && IsChild(g, d, p, q) && IsChild(g, d, p, r)
      ensures q == r
    {
      JoinedEdges(f, d, target, source, p, q);
      JoinedEdges(f, d, target, source, p, r);
    }
  }

  lemma MemberStaysInCaravan(f: Fleet, d: string, target: seq<Pr>, source: seq<Pr>, p: Pr)
    requires Appendable(f, d, target, source) && InCaravan(f, d, p)
    ensures InCaravan(Joined(f, target, source), d, p)
  {
    var c :| IsCaravan(f, d, c) && p in c;
    if c == target || c == source {
      JoinedCaravan(f, d, target, source);
      assert p in target + source;
    } else {
      OtherCaravansSurvive(f, d, target, source, c);
    }
  }

  lemma NothingElseAppears(f: Fleet, d: string, target: seq<Pr>, source: seq<Pr>, c: seq<Pr>)
    requires Appendable(f, d, target, source) && IsCaravan(Joined(f, target, source), d, c) && InCaravan(f, d, c[0])
    ensures c == target + source || (IsCaravan(f, d, c) && c != target && c != source)
  {
    var g := Joined(f, target, source);
    JoinedKeepsShape(f, d, target, source);
    JoinedCaravan(f, d, target, source);
    assert IsRoot(f, d, c[0]) && c[0] != source[0];
    var b :| IsCaravan(f, d, b) && c[0] in b;
    LaterMembersAreNoRoots(f, d, b);
    assert b[0] == c[0];
    if b == target {
      assert (target + source)[0] == c[0];
      CaravansAreDisjoint(g, d, c, target + source, c[0]);
    } else {
      OtherCaravansSurvive(f, d, target, source, b);
      CaravansAreDisjoint(g, d, c, b, c[0]);
    }
  }

  /** A caravan that takes no part in the append. */
  ghost predicate IsOther(f: Fleet, d: string, target: seq<Pr>, source: seq<Pr>, c: seq<Pr>) {
    IsCaravan(f, d, c) && c != target && c != source
  }

  lemma JoinedIsWellFormed(f: Fleet, d: string, target: seq<Pr>, source: seq<Pr>)
    requires Appendable(f, d, target, source) && AllInCaravans(f, d)
    ensures WellFormed(Joined(f, target, source), d)
  {
    var g := Joined(f, target, source);
    JoinedKeepsShape(f, d, target, source);
    forall p | p in g
      ensures InCaravan(g, d, p)
    {
      MemberStaysInCaravan(f, d, target, source, p);
    }
  }

  predicate Heads(c: seq<Pr>, p: Pr) {
    c != [] && c[0] == p
  }

  /** Chain c after the splice: the joined one, or one that took no part; none headed by `root`. */
  ghost predicate IsSpliced(f: Fleet, g: Fleet, d: string, target: seq<Pr>, source: seq<Pr>, root: Pr, c: seq<Pr>) {
    && (IsCaravan(g, d, c) <==> c == target + source || IsOther(f, d, target, source, c))
    && (IsCaravan(g, d, c) ==> !Heads(c, root))
  }

  lemma CaravanAfterJoin(f: Fleet, d: string, target: seq<Pr>, source: seq<Pr>, c: seq<Pr>)
    requires Appendable(f, d, target, source) && AllInCaravans(f, d)
    ensures IsSpliced(f, Joined(f, target, source), d, target, source, source[0], c)
  {
    JoinedCaravan(f, d, target, source);
    if IsOther(f, d, target, source, c) {
      OtherCaravansSurvive(f, d, target, source, c);
    }
    if IsCaravan(Joined(f, target, source), d, c) {
      assert c[0] in f && InCaravan(f, d, c[0]);
      NothingElseAppears(f, d, target, source, c);
    }
  }

  /** In g the two caravans of f are one, every other is unchanged, and `root` heads none. */
  ghost predicate Spliced(f: Fleet, g: Fleet, d: string, target: seq<Pr>, source: seq<Pr>, root: Pr) {
    g.Keys == f.Keys && forall c :: IsSpliced(f, g, d, target, source, root, c)
  }

  /**
   Appending changes one edge: the decomposition loses the two caravans and gains
   target members followed by source members; nothing else moves, and the source
   root heads no caravan any more.
   */
  lemma ChainSurgery(f: Fleet, d: string, target: seq<Pr>, source: seq<Pr>)
    requires Appendable(f, d, target, source) && AllInCaravans(f, d)
    ensures WellFormed(Joined(f, target, source), d)
    ensures Spliced(f, Joined(f, target, source), d, target, source, source[0])
  {
    JoinedIsWellFormed(f, d, target, source);
    var (g, root) := (Joined(f, target, source), source[0]);
    forall c
      ensures IsSpliced(f, g, d, target, source, root, c)
    {
      CaravanAfterJoin(f, d, target, source, c);
    }
  }

  /** If the target tail sits on the default branch itself, the new edge makes no chain: the condition is needed. */
  lemma TailOnDefaultBranchJoinsNothing(f: Fleet, d: string, target: seq<Pr>, source: seq<Pr>)
    requires IsCaravan(f, d, target) && IsCaravan(f, d, source)
    requires target[|target| - 1] in f && f[target[|target| - 1]].head == d
    ensures Joined(f, target, source) == f
    ensures !IsCaravan(Joined(f, target, source), d, target + source)
  {
    var c := target + source;
    assert c[|target|] == source[0];
    if IsCaravan(f, d, c) {
      LaterMembersAreNoRoots(f, d, c);
      assert false;
    }
  }
}
