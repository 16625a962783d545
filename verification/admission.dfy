/** Intent-aware admission order (src/admission.rs). */
module Admission {
  import opened Common
  import opened Ordering

  datatype Branch = Branch(repository: string, name: string)

  datatype PullState = Open | Closed | Merged

  datatype Pull = Pull(state: PullState, crossRepository: bool, head: Branch, base: Branch)

  datatype Caravan = Caravan(id: Pr, members: seq<Pr>)

  datatype Graph = Graph(pulls: map<Pr, Pull>, caravans: seq<Caravan>)

  datatype Candidate = Candidate(pr: Pr, rank: Option<nat>, createdAt: Option<string>, reason: string)

  datatype Rejected = Rejected(pr: Pr, rank: Option<nat>, createdAt: Option<string>, blocksOrder: bool, reason: string)

  datatype Status = Status(priorityLabels: nat, candidates: seq<Candidate>, rejected: seq<Rejected>, next: Option<Pr>)

  datatype Selection = Automatic | Explicit | CheckedOut {
    predicate RelaxesOrder() { !Automatic? }
  }

  datatype RowDisposition =
    | BypassedUnjoined
    | BlockedJoined
    | BlockedDependency
    | BlockedRankIndeterminate
    | BlockedAutomaticOrder

  datatype OrderedRow = OrderedRow(pr: Pr, disposition: RowDisposition, joined: bool, reason: string)

  datatype Outcome =
    | Canonical
    | ExplicitAheadOfUnjoined
    | BlockedByOrder
    | BlockedByPreflight
    | AlreadyEnrolled
    | OwnerSelected

  datatype Decision = Decision(
    join: bool,
    selection: Selection,
    outcome: Outcome,
    candidate: Pr,
    canonical: Option<Pr>,
    rows: seq<OrderedRow>,
    bypassed: seq<Pr>,
    blocking: seq<Pr>,
    dependencies: set<Pr>,
    compatibilityClean: bool,
    preflightClean: bool,
    providerMutated: bool,
    idempotent: bool)
  {
    predicate Permits() {
      outcome.Canonical? || outcome.ExplicitAheadOfUnjoined? || outcome.AlreadyEnrolled? || outcome.OwnerSelected?
    }
  }

  const MAX_DEPTH: nat := 64

  // ----- dependencies -----

  /** The open same-repository pull requests whose head is the branch. */
  predicate Exposes(g: Graph, repository: string, branch: string, p: Pr) {
    && p in g.pulls && g.pulls[p].state.Open? && !g.pulls[p].crossRepository
    && g.pulls[p].head == Branch(repository, branch)
  }

  ghost predicate UniqueHeads(g: Graph) {
    forall r, b, p, q :: Exposes(g, r, b, p) && Exposes(g, r, b, q) ==> p == q
  }

  /** A base chain: the first element is the base of the candidate, each next the base of the one before. */
  ghost predicate IsChain(g: Graph, base: Branch, chain: seq<Pr>) {
    && chain != [] && Exposes(g, base.repository, base.name, chain[0])
    && forall i, j :: 0 <= i && i + 1 == j < |chain| ==> BasedOn(g, base.repository, chain[i], chain[j])
  }

  predicate BasedOn(g: Graph, repository: string, child: Pr, parent: Pr) {
    child in g.pulls && Exposes(g, repository, g.pulls[child].base.name, parent)
  }

  ghost predicate DependsOn(g: Graph, base: Branch, p: Pr) {
    exists chain :: IsChain(g, base, chain) && chain[|chain| - 1] == p
  }

  /** Everything the candidate is based on, directly or not, without the candidate. */
  ghost function Closure(g: Graph, candidate: Pr, base: Branch): (c: set<Pr>)
    ensures forall p :: p in c <==> p in g.pulls && p != candidate && DependsOn(g, base, p)
  {
    set p | p in g.pulls && p != candidate && DependsOn(g, base, p)
  }

  function Matching(g: Graph, repository: string, branch: string, candidate: Pr): set<Pr> {
    set p | p in g.pulls && Exposes(g, repository, branch, p) && p != candidate
  }

  lemma ChainGrows(g: Graph, base: Branch, p: Pr, q: Pr)
    requires DependsOn(g, base, p) && BasedOn(g, base.repository, p, q)
    ensures DependsOn(g, base, q)
  {
    var chain :| IsChain(g, base, chain) && chain[|chain| - 1] == p;
    assert IsChain(g, base, chain + [q]) && (chain + [q])[|chain|] == q;
  }

  lemma FirstDependency(g: Graph, base: Branch, q: Pr)
    requires Exposes(g, base.repository, base.name, q)
    ensures DependsOn(g, base, q)
  {
    assert IsChain(g, base, [q]) && [q][0] == q;
  }

  /** The parents of the candidate and of every member of s other than `open` are in s or the candidate. */
  ghost predicate ClosedBut(g: Graph, candidate: Pr, base: Branch, s: set<Pr>, open: Option<Pr>) {
    && (s != {} ==> forall q :: Exposes(g, base.repository, base.name, q) ==> q in s || q == candidate)
    && (s == {} ==> open.None?)
    && forall p, q :: p in s && Some(p) != open && BasedOn(g, base.repository, p, q) ==>
         q in s || q == candidate
  }

  lemma {:induction false} ClosedSetHoldsChain(g: Graph, candidate: Pr, base: Branch, s: set<Pr>, chain: seq<Pr>)
    requires IsChain(g, base, chain)
    requires candidate in g.pulls ==> g.pulls[candidate].base == base
    requires forall q :: Exposes(g, base.repository, base.name, q) ==> q in s || q == candidate
    requires forall p, q :: p in s && BasedOn(g, base.repository, p, q) ==> q in s || q == candidate
    ensures chain[|chain| - 1] in s || chain[|chain| - 1] == candidate
    decreases |chain|
  {
    var n := |chain| - 1;
    if n > 0 {
      assert IsChain(g, base, chain[..n]);
      ClosedSetHoldsChain(g, candidate, base, s, chain[..n]);
      assert BasedOn(g, base.repository, chain[n - 1], chain[n]);
    }
  }

  lemma ClosedSetIsClosure(g: Graph, candidate: Pr, base: Branch, s: set<Pr>)
    requires candidate in g.pulls ==> g.pulls[candidate].base == base
    requires s <= Closure(g, candidate, base)
    requires forall q :: Exposes(g, base.repository, base.name, q) ==> q in s || q == candidate
    requires forall p, q :: p in s && BasedOn(g, base.repository, p, q) ==> q in s || q == candidate
    ensures s == Closure(g, candidate, base)
  {
    forall p | p in Closure(g, candidate, base)
      ensures p in s
    {
      var chain :| IsChain(g, base, chain) && chain[|chain| - 1] == p;
      ClosedSetHoldsChain(g, candidate, base, s, chain);
    }
  }

  /**
   Walk the base chain, at most 64 hops, also through cycles. With unique heads the
   result is the closure exactly when the closure has at most 64 elements.
   */
  method DependencyPrs(g: Graph, candidate: Pr, base: Branch) returns (dependencies: set<Pr>)
    ensures dependencies <= Closure(g, candidate, base)
    ensures UniqueHeads(g) && (candidate in g.pulls ==> g.pulls[candidate].base == base) ==>
      && (dependencies == Closure(g, candidate, base) <==> |Closure(g, candidate, base)| <= MAX_DEPTH)
      && |dependencies| == if |Closure(g, candidate, base)| <= MAX_DEPTH then |Closure(g, candidate, base)| else MAX_DEPTH
  {
    dependencies := {};
    var branch := base.name;
    ghost var last: Option<Pr> := None;
    ghost var exact := UniqueHeads(g) && (candidate in g.pulls ==> g.pulls[candidate].base == base);
    for hop := 0 to MAX_DEPTH
      invariant dependencies <= Closure(g, candidate, base) && |dependencies| == hop
      invariant last.None? ==> dependencies == {} && branch == base.name
      invariant last.Some? ==> last.value in dependencies && last.value in g.pulls && branch == g.pulls[last.value].base.name
      invariant exact ==> ClosedBut(g, candidate, base, dependencies, last)
    {
      var parents := Matching(g, base.repository, branch, candidate);
      if parents == {} {
        if exact {
          WalkEnds(g, candidate, base, dependencies, last, branch);
        }
        return;
      }
      var parent := Least(parents);
      if parent in dependencies {
        if exact {
          WalkEnds(g, candidate, base, dependencies, last, branch);
        }
        return;
      }
      if last.None? {
        FirstDependency(g, base, parent);
      } else {
        ChainGrows(g, base, last.value, parent);
      }
      if exact {
        WalkContinues(g, candidate, base, dependencies, last, branch, parent);
      }
      dependencies := dependencies + {parent};
      last := Some(parent);
      branch := g.pulls[parent].base.name;
    }
    SubsetIsSmaller(dependencies, Closure(g, candidate, base));
  }

  /** The branch has no parent that is new, so nothing is missing. */
  lemma WalkEnds(g: Graph, candidate: Pr, base: Branch, s: set<Pr>, last: Option<Pr>, branch: string)
    requires UniqueHeads(g) && (candidate in g.pulls ==> g.pulls[candidate].base == base)
    requires s <= Closure(g, candidate, base) && |s| <= MAX_DEPTH && ClosedBut(g, candidate, base, s, last)
    requires last.None? ==> s == {} && branch == base.name
    requires last.Some? ==> last.value in s && last.value in g.pulls && branch == g.pulls[last.value].base.name
    requires forall q :: Exposes(g, base.repository, branch, q) ==> q in s || q == candidate || exists r :: r in s && Exposes(g, base.repository, branch, r)
    ensures s == Closure(g, candidate, base)
  {
    forall p, q | p in s && BasedOn(g, base.repository, p, q)
      ensures q in s || q == candidate
    {
    }
    ClosedSetIsClosure(g, candidate, base, s);
  }

  lemma WalkContinues(g: Graph, candidate: Pr, base: Branch, s: set<Pr>, last: Option<Pr>, branch: string, parent: Pr)
    requires UniqueHeads(g) && ClosedBut(g, candidate, base, s, last)
    requires last.None? ==> s == {} && branch == base.name
    requires last.Some? ==> last.value in s && last.value in g.pulls && branch == g.pulls[last.value].base.name
    requires Exposes(g, base.repository, branch, parent)
    ensures ClosedBut(g, candidate, base, s + {parent}, Some(parent))
  {
  }

  // ----- order -----

  /** Rank, then dated before undated, then creation time, then number. */
  datatype Key = Key(rank: nat, undated: bool, created: string, pr: Pr)

  function KeyOf(rank: Option<nat>, createdAt: Option<string>, pr: Pr, unranked: nat): Key {
    Key(match rank case Some(r) => r case None => unranked,
        createdAt.None?,
        match createdAt case Some(stamp) => stamp case None => "",
        pr)
  }

  predicate Before(a: Key, b: Key) {
    || a.rank < b.rank
    || (a.rank == b.rank
        && (|| (!a.undated && b.undated)
            || (a.undated == b.undated
                && (LexLess(a.created, b.created) || (a.created == b.created && a.pr < b.pr)))))
  }

  lemma BeforeIsAStrictTotalOrder(a: Key, b: Key, c: Key)
    ensures !Before(a, a)
    ensures a != b ==> (Before(a, b) <==> !Before(b, a))
    ensures Before(a, b) && Before(b, c) ==> Before(a, c)
  {
    LexLessIsTotal(a.created, b.created);
    LexLessIsTotal(a.created, a.created);
    if LexLess(a.created, b.created) && LexLess(b.created, c.created) {
      LexLessIsTransitive(a.created, b.created, c.created);
    }
  }

  // ----- evaluation -----

  predicate Joined(g: Graph, p: Pr) {
    exists i :: 0 <= i < |g.caravans| && p in g.caravans[i].members
  }

  /** What an evaluation works on, besides the lists. */
  datatype Context = Context(g: Graph, candidate: Pr, key: Key, unranked: nat, dependencies: set<Pr>, selection: Selection)

  predicate CandidateAhead(x: Context, row: Candidate) {
    row.pr != x.candidate && Before(KeyOf(row.rank, row.createdAt, row.pr, x.unranked), x.key)
  }

  predicate RejectedAhead(x: Context, row: Rejected) {
    row.blocksOrder && row.pr != x.candidate && Before(KeyOf(row.rank, row.createdAt, row.pr, x.unranked), x.key)
  }

  function CandidateRow(x: Context, row: Candidate): OrderedRow {
    var joined := Joined(x.g, row.pr);
    OrderedRow(row.pr,
               if joined then BlockedJoined
               else if row.pr in x.dependencies then BlockedDependency
               else if x.selection.RelaxesOrder() then BypassedUnjoined
               else BlockedAutomaticOrder,
               joined, row.reason)
  }

  function RejectedRow(x: Context, row: Rejected): OrderedRow {
    var joined := Joined(x.g, row.pr);
    OrderedRow(row.pr,
               if joined then BlockedJoined
               else if row.pr in x.dependencies then BlockedDependency
               else BlockedRankIndeterminate,
               joined, row.reason)
  }

  function CandidateRows(x: Context, rows: seq<Candidate>): seq<OrderedRow> {
    if rows == [] then [] else
      var n := |rows| - 1;
      CandidateRows(x, rows[..n]) + if CandidateAhead(x, rows[n]) then [CandidateRow(x, rows[n])] else []
  }

  function RejectedRows(x: Context, rows: seq<Rejected>): seq<OrderedRow> {
    if rows == [] then [] else
      var n := |rows| - 1;
      RejectedRows(x, rows[..n]) + if RejectedAhead(x, rows[n]) then [RejectedRow(x, rows[n])] else []
  }

  predicate AscendingRows(rows: seq<OrderedRow>) {
    forall i, j :: 0 <= i < j < |rows| ==> rows[i].pr <= rows[j].pr
  }

  /** Insert behind every row of the same or a smaller number. */
  function InsertRow(rows: seq<OrderedRow>, row: OrderedRow): seq<OrderedRow> {
    if rows == [] || rows[|rows| - 1].pr <= row.pr then rows + [row]
    else InsertRow(rows[..|rows| - 1], row) + [rows[|rows| - 1]]
  }

  function SortRows(rows: seq<OrderedRow>): seq<OrderedRow> {
    if rows == [] then [] else InsertRow(SortRows(rows[..|rows| - 1]), rows[|rows| - 1])
  }

  lemma {:induction false} InsertRowKeepsRows(rows: seq<OrderedRow>, row: OrderedRow, r: OrderedRow)
    ensures r in InsertRow(rows, row) <==> r in rows || r == row
  {
    if rows != [] && rows[|rows| - 1].pr > row.pr {
      InsertRowKeepsRows(rows[..|rows| - 1], row, r);
      assert rows == rows[..|rows| - 1] + [rows[|rows| - 1]];
    }
  }

  lemma {:induction false} InsertRowKeepsAscending(rows: seq<OrderedRow>, row: OrderedRow)
    requires AscendingRows(rows)
    ensures AscendingRows(InsertRow(rows, row))
  {
    if rows != [] && rows[|rows| - 1].pr > row.pr {
      var n := |rows| - 1;
      InsertRowKeepsAscending(rows[..n], row);
      var r := InsertRow(rows[..n], row);
      forall i | 0 <= i < |r|
        ensures r[i].pr <= rows[n].pr
      {
        InsertRowKeepsRows(rows[..n], row, r[i]);
      }
    }
  }

  lemma {:induction false} SortRowsSorts(rows: seq<OrderedRow>)
    ensures AscendingRows(SortRows(rows))
    ensures forall r :: r in SortRows(rows) <==> r in rows
  {
    if rows != [] {
      var n := |rows| - 1;
      SortRowsSorts(rows[..n]);
      InsertRowKeepsAscending(SortRows(rows[..n]), rows[n]);
      forall r
        ensures r in SortRows(rows) <==> r in rows
      {
        InsertRowKeepsRows(SortRows(rows[..n]), rows[n], r);
        assert rows == rows[..n] + [rows[n]];
      }
    }
  }

  function PrsWhere(rows: seq<OrderedRow>, bypassed: bool): seq<Pr> {
    if rows == [] then [] else
      var n := |rows| - 1;
      PrsWhere(rows[..n], bypassed) + if rows[n].disposition.BypassedUnjoined? == bypassed then [rows[n].pr] else []
  }

  function FindCandidate(rows: seq<Candidate>, p: Pr): Option<Candidate> {
    if rows == [] then None else if rows[0].pr == p then Some(rows[0]) else FindCandidate(rows[1..], p)
  }

  function RowsAhead(x: Context, status: Status): seq<OrderedRow> {
    SortRows(CandidateRows(x, status.candidates) + RejectedRows(x, status.rejected))
  }

  function ContextOf(status: Status, g: Graph, candidate: Pr, dependencies: set<Pr>, selection: Selection, row: Candidate): Context {
    var unranked := status.priorityLabels + 1;
    Context(g, candidate, KeyOf(row.rank, row.createdAt, row.pr, unranked), unranked, dependencies, selection)
  }

  function Undecided(status: Status, candidate: Pr, dependencies: set<Pr>, join: bool, selection: Selection): Decision {
    Decision(join, selection, BlockedByOrder, candidate, status.next, [], [], [], dependencies, false, false, false, false)
  }

  function Decide(status: Status, g: Graph, candidate: Pr, dependencies: set<Pr>, join: bool, selection: Selection): Decision {
    var d := Undecided(status, candidate, dependencies, join, selection);
    var row := FindCandidate(status.candidates, candidate);
    if Joined(g, candidate) then d.(outcome := AlreadyEnrolled)
    else if status.next == Some(candidate) then d.(outcome := Canonical)
    else if row.None? then d.(outcome := if selection.CheckedOut? then OwnerSelected else BlockedByOrder)
    else
      DecideByRows(d, RowsAhead(ContextOf(status, g, candidate, dependencies, selection, row.value), status))
  }

  function DecideByRows(d: Decision, rows: seq<OrderedRow>): Decision {
    var blocking := PrsWhere(rows, false);
    d.(rows := rows, bypassed := PrsWhere(rows, true), blocking := blocking,
       outcome := if !d.selection.RelaxesOrder() then BlockedByOrder
                  else if blocking == [] then ExplicitAheadOfUnjoined
                  else if d.selection.CheckedOut? then OwnerSelected
                  else BlockedByOrder)
  }

  method Evaluate(status: Status, g: Graph, candidate: Pr, base: Branch, target: Option<Caravan>, selection: Selection)
    returns (d: Decision)
    ensures d == Decide(status, g, candidate, d.dependencies, target.Some?, selection)
    ensures d.dependencies <= Closure(g, candidate, base)
    ensures UniqueHeads(g) && (candidate in g.pulls ==> g.pulls[candidate].base == base) && |Closure(g, candidate, base)| <= 64 ==>
      d.dependencies == Closure(g, candidate, base)
  {
    var dependencies := DependencyPrs(g, candidate, base);
    d := Undecided(status, candidate, dependencies, target.Some?, selection);
    if Joined(g, candidate) {
      return d.(outcome := AlreadyEnrolled);
    }
    if status.next == Some(candidate) {
      return d.(outcome := Canonical);
    }
    var own := FindCandidate(status.candidates, candidate);
    if own.None? {
      return if selection.CheckedOut? then d.(outcome := OwnerSelected) else d;
    }
    var x := ContextOf(status, g, candidate, dependencies, selection, own.value);
    var rows := [];
    for i := 0 to |status.candidates|
      invariant rows == CandidateRows(x, status.candidates[..i])
    {
      assert status.candidates[..i + 1][..i] == status.candidates[..i];
      if CandidateAhead(x, status.candidates[i]) {
        rows := rows + [CandidateRow(x, status.candidates[i])];
      }
    }
    assert status.candidates[..|status.candidates|] == status.candidates;
    ghost var front := rows;
    for i := 0 to |status.rejected|
      invariant rows == front + RejectedRows(x, status.rejected[..i])
    {
      assert status.rejected[..i + 1][..i] == status.rejected[..i];
      if RejectedAhead(x, status.rejected[i]) {
        rows := rows + [RejectedRow(x, status.rejected[i])];
      }
    }
    assert status.rejected[..|status.rejected|] == status.rejected;
    rows := SortRows(rows);
    var blocking := PrsWhere(rows, false);
    d := d.(rows := rows, bypassed := PrsWhere(rows, true), blocking := blocking);
    if selection.RelaxesOrder() {
      if blocking == [] {
        d := d.(outcome := ExplicitAheadOfUnjoined);
      } else if selection.CheckedOut? {
        d := d.(outcome := OwnerSelected);
      }
    }
  }

  // ----- what is reported -----

  lemma {:induction false} CandidateRowsAre(x: Context, rows: seq<Candidate>, r: OrderedRow)
    ensures r in CandidateRows(x, rows) <==> exists c :: c in rows && CandidateAhead(x, c) && r == CandidateRow(x, c)
  {
    if rows != [] {
      var n := |rows| - 1;
      CandidateRowsAre(x, rows[..n], r);
      assert rows == rows[..n] + [rows[n]];
    }
  }

  lemma {:induction false} RejectedRowsAre(x: Context, rows: seq<Rejected>, r: OrderedRow)
    ensures r in RejectedRows(x, rows) <==> exists c :: c in rows && RejectedAhead(x, c) && r == RejectedRow(x, c)
  {
    if rows != [] {
      var n := |rows| - 1;
      RejectedRowsAre(x, rows[..n], r);
      assert rows == rows[..n] + [rows[n]];
    }
  }

  /** Exactly the candidate rows and the blocking rejected rows with a strictly smaller key. */
  lemma RowsAheadAreTheSmallerKeys(x: Context, status: Status, r: OrderedRow)
    ensures r in RowsAhead(x, status) <==>
      || (exists c :: c in status.candidates && CandidateAhead(x, c) && r == CandidateRow(x, c))
      || (exists c :: c in status.rejected && RejectedAhead(x, c) && r == RejectedRow(x, c))
  {
    var (a, b) := (CandidateRows(x, status.candidates), RejectedRows(x, status.rejected));
    SortRowsSorts(a + b);
    CandidateRowsAre(x, status.candidates, r);
    RejectedRowsAre(x, status.rejected, r);
  }

  lemma {:induction false} PrsWhereAre(rows: seq<OrderedRow>, bypassed: bool, p: Pr)
    ensures p in PrsWhere(rows, bypassed) <==> exists r :: r in rows && r.disposition.BypassedUnjoined? == bypassed && r.pr == p
  {
    if rows != [] {
      var n := |rows| - 1;
      PrsWhereAre(rows[..n], bypassed, p);
      assert rows == rows[..n] + [rows[n]];
    }
  }

  lemma {:induction false} PrsPartition(rows: seq<OrderedRow>)
    ensures |PrsWhere(rows, true)| + |PrsWhere(rows, false)| == |rows|
  {
    if rows != [] {
      PrsPartition(rows[..|rows| - 1]);
    }
  }

  /** Bypassed and blocking rows are all rows, once each. */
  lemma BypassedAndBlockingPartitionTheRows(rows: seq<OrderedRow>, p: Pr)
    ensures |PrsWhere(rows, true)| + |PrsWhere(rows, false)| == |rows|
    ensures p in PrsWhere(rows, true) || p in PrsWhere(rows, false) <==> exists r :: r in rows && r.pr == p
    ensures p in PrsWhere(rows, true) && p in PrsWhere(rows, false) ==>
      exists r, s :: r in rows && s in rows && r.pr == s.pr == p && r != s
  {
    PrsPartition(rows);
    PrsWhereAre(rows, true, p);
    PrsWhereAre(rows, false, p);
  }

  /** An ordinary candidate: not enrolled, not canonical, with a row of its own. */
  predicate Ordinary(status: Status, g: Graph, candidate: Pr) {
    !Joined(g, candidate) && status.next != Some(candidate) && FindCandidate(status.candidates, candidate).Some?
  }

  /** Explicit selection passes exactly when every row ahead is an unjoined, independent candidate row. */
  lemma ExplicitPassesOnlyUnrelatedRows(status: Status, g: Graph, candidate: Pr, dependencies: set<Pr>, join: bool)
    requires Ordinary(status, g, candidate)
    ensures
      var x := ContextOf(status, g, candidate, dependencies, Explicit, FindCandidate(status.candidates, candidate).value);
      Decide(status, g, candidate, dependencies, join, Explicit).Permits() <==>
        && (forall c :: c in status.candidates && CandidateAhead(x, c) ==> !Joined(g, c.pr) && c.pr !in dependencies)
        && (forall c :: c in status.rejected ==> !RejectedAhead(x, c))
  {
    var x := ContextOf(status, g, candidate, dependencies, Explicit, FindCandidate(status.candidates, candidate).value);
    ExplicitPassesWithoutBlockers(status, g, candidate, dependencies, join);
    NoRowBlocksIff(x, status);
  }

  lemma ExplicitPassesWithoutBlockers(status: Status, g: Graph, candidate: Pr, dependencies: set<Pr>, join: bool)
    requires Ordinary(status, g, candidate)
    ensures
      var x := ContextOf(status, g, candidate, dependencies, Explicit, FindCandidate(status.candidates, candidate).value);
      Decide(status, g, candidate, dependencies, join, Explicit).Permits() <==> PrsWhere(RowsAhead(x, status), false) == []
  {
  }

  lemma NoRowBlocksIff(x: Context, status: Status)
    requires x.selection.Explicit?
    ensures PrsWhere(RowsAhead(x, status), false) == [] <==>
      && (forall c :: c in status.candidates && CandidateAhead(x, c) ==> !Joined(x.g, c.pr) && c.pr !in x.dependencies)
      && (forall c :: c in status.rejected ==> !RejectedAhead(x, c))
  {
    var rows := RowsAhead(x, status);
    var blocking := PrsWhere(rows, false);
    if blocking == [] {
      forall c | c in status.candidates && CandidateAhead(x, c)
        ensures !Joined(x.g, c.pr) && c.pr !in x.dependencies
      {
        RowsAheadAreTheSmallerKeys(x, status, CandidateRow(x, c));
        PrsWhereAre(rows, false, c.pr);
      }
      forall c | c in status.rejected
        ensures !RejectedAhead(x, c)
      {
        RowsAheadAreTheSmallerKeys(x, status, RejectedRow(x, c));
        PrsWhereAre(rows, false, c.pr);
      }
    } else {
      assert blocking[0] in blocking;
      PrsWhereAre(rows, false, blocking[0]);
      var r :| r in rows && !r.disposition.BypassedUnjoined? && r.pr == blocking[0];
      RowsAheadAreTheSmallerKeys(x, status, r);
    }
  }

  lemma AutomaticImpliesExplicitImpliesCheckedOut(status: Status, g: Graph, candidate: Pr, dependencies: set<Pr>, join: bool)
    ensures Decide(status, g, candidate, dependencies, join, Automatic).Permits() ==>
            Decide(status, g, candidate, dependencies, join, Explicit).Permits()
    ensures Decide(status, g, candidate, dependencies, join, Explicit).Permits() ==>
            Decide(status, g, candidate, dependencies, join, CheckedOut).Permits()
  {
    OutcomeOf(status, g, candidate, dependencies, join, Automatic);
    OutcomeOf(status, g, candidate, dependencies, join, Explicit);
    OutcomeOf(status, g, candidate, dependencies, join, CheckedOut);
  }

  /** Enrolled and canonical candidates pass under any selection; for the others the selection decides what is possible. */
  lemma OutcomeOf(status: Status, g: Graph, candidate: Pr, dependencies: set<Pr>, join: bool, selection: Selection)
    ensures
      var o := Decide(status, g, candidate, dependencies, join, selection).outcome;
      if Joined(g, candidate) then o == AlreadyEnrolled
      else if status.next == Some(candidate) then o == Canonical
      else match selection
           case Automatic => o == BlockedByOrder
           case Explicit => o == BlockedByOrder || o == ExplicitAheadOfUnjoined
           case CheckedOut => o == OwnerSelected || o == ExplicitAheadOfUnjoined
  {
  }

  // ----- order of the lists -----

  predicate DistinctRows(status: Status) {
    && (forall i, j :: 0 <= i < j < |status.candidates| ==> status.candidates[i].pr != status.candidates[j].pr)
    && (forall i, j :: 0 <= i < j < |status.rejected| ==> status.rejected[i].pr != status.rejected[j].pr)
    && (forall c, r :: c in status.candidates && r in status.rejected ==> c.pr != r.pr)
  }

  ghost predicate SameRows(a: Status, b: Status) {
    && a.priorityLabels == b.priorityLabels && a.next == b.next
    && (forall c :: c in a.candidates <==> c in b.candidates)
    && (forall c :: c in a.rejected <==> c in b.rejected)
  }

  ghost predicate DistinctNumbers(rows: seq<OrderedRow>) {
    forall i, j :: 0 <= i < j < |rows| ==> rows[i].pr != rows[j].pr
  }

  lemma {:induction false} CandidateRowsAreDistinct(x: Context, rows: seq<Candidate>)
    requires forall i, j :: 0 <= i < j < |rows| ==> rows[i].pr != rows[j].pr
    ensures DistinctNumbers(CandidateRows(x, rows))
  {
    if rows != [] {
      var n := |rows| - 1;
      CandidateRowsAreDistinct(x, rows[..n]);
      var r := CandidateRows(x, rows[..n]);
      forall i | 0 <= i < |r|
        ensures r[i].pr != rows[n].pr
      {
        CandidateRowsAre(x, rows[..n], r[i]);
      }
    }
  }

  lemma {:induction false} RejectedRowsAreDistinct(x: Context, rows: seq<Rejected>)
    requires forall i, j :: 0 <= i < j < |rows| ==> rows[i].pr != rows[j].pr
    ensures DistinctNumbers(RejectedRows(x, rows))
  {
    if rows != [] {
      var n := |rows| - 1;
      RejectedRowsAreDistinct(x, rows[..n]);
      var r := RejectedRows(x, rows[..n]);
      forall i | 0 <= i < |r|
        ensures r[i].pr != rows[n].pr
      {
        RejectedRowsAre(x, rows[..n], r[i]);
      }
    }
  }

  /** Rows of one number each: at most one occurrence of each number survives sorting. */
  ghost function CountOf(rows: seq<OrderedRow>, p: Pr): nat {
    if rows == [] then 0 else CountOf(rows[..|rows| - 1], p) + if rows[|rows| - 1].pr == p then 1 else 0
  }

  lemma {:induction false} CountAfterInsert(rows: seq<OrderedRow>, row: OrderedRow, p: Pr)
    ensures CountOf(InsertRow(rows, row), p) == CountOf(rows, p) + if row.pr == p then 1 else 0
  {
    var r := InsertRow(rows, row);
    if rows == [] || rows[|rows| - 1].pr <= row.pr {
      assert r[..|r| - 1] == rows;
    } else {
      var n := |rows| - 1;
      CountAfterInsert(rows[..n], row, p);
      assert r[..|r| - 1] == InsertRow(rows[..n], row);
    }
  }

  lemma {:induction false} CountAfterSort(rows: seq<OrderedRow>, p: Pr)
    ensures CountOf(SortRows(rows), p) == CountOf(rows, p)
  {
    if rows != [] {
      CountAfterSort(rows[..|rows| - 1], p);
      CountAfterInsert(SortRows(rows[..|rows| - 1]), rows[|rows| - 1], p);
    }
  }

  lemma {:induction false} CountIsPositive(rows: seq<OrderedRow>, i: nat)
    requires i < |rows|
    ensures CountOf(rows, rows[i].pr) >= 1
  {
    if i < |rows| - 1 {
      CountIsPositive(rows[..|rows| - 1], i);
    }
  }

  lemma {:induction false} DistinctMeansOnce(rows: seq<OrderedRow>)
    ensures DistinctNumbers(rows) <==> forall p :: CountOf(rows, p) <= 1
  {
    if rows != [] {
      var n := |rows| - 1;
      DistinctMeansOnce(rows[..n]);
      if DistinctNumbers(rows) {
        assert DistinctNumbers(rows[..n]);
        forall p
          ensures CountOf(rows, p) <= 1
        {
          NotCounted(rows[..n], rows[n].pr);
          assert CountOf(rows[..n], p) <= 1;
        }
      } else {
        var i, j :| 0 <= i < j < |rows| && rows[i].pr == rows[j].pr;
        if j < n {
          assert rows[..n][i].pr == rows[..n][j].pr;
          var p :| CountOf(rows[..n], p) > 1;
          assert CountOf(rows, p) > 1;
        } else {
          CountIsPositive(rows[..n], i);
          assert CountOf(rows, rows[n].pr) > 1;
        }
      }
    }
  }

  lemma {:induction false} NotCounted(rows: seq<OrderedRow>, p: Pr)
    requires forall i :: 0 <= i < |rows| ==> rows[i].pr != p
    ensures CountOf(rows, p) == 0
  {
    if rows != [] {
      NotCounted(rows[..|rows| - 1], p);
    }
  }

  lemma HeadIsNotInTail(rows: seq<OrderedRow>, r: OrderedRow)
    requires DistinctNumbers(rows) && rows != []
    ensures r in rows <==> r == rows[0] || r in rows[1..]
    ensures r in rows[1..] ==> r != rows[0]
  {
    assert rows == [rows[0]] + rows[1..];
    if r in rows[1..] {
      var k :| 0 <= k < |rows[1..]| && rows[1..][k] == r;
      assert rows[k + 1] == r;
    }
  }

  /** Strictly ascending rows are determined by their elements. */
  lemma {:induction false} SortedRowsAreDetermined(a: seq<OrderedRow>, b: seq<OrderedRow>)
    requires AscendingRows(a) && AscendingRows(b) && DistinctNumbers(a) && DistinctNumbers(b)
    requires forall r :: r in a <==> r in b
    ensures a == b
    decreases |a|
  {
    if a == [] {
      assert forall i :: 0 <= i < |b| ==> b[i] in b;
    } else {
      assert a[0] in a && a[0] in b;
      assert b[0] in b && b[0] in a;
      assert a[0] == b[0];
      assert a == [a[0]] + a[1..] && b == [b[0]] + b[1..];
      forall r
        ensures r in a[1..] ==> r in b[1..]
        ensures r in b[1..] ==> r in a[1..]
      {
        HeadIsNotInTail(a, r);
        HeadIsNotInTail(b, r);
      }
      SortedRowsAreDetermined(a[1..], b[1..]);
    }
  }

  lemma RowsAheadAreDistinct(x: Context, status: Status)
    requires DistinctRows(status)
    ensures DistinctNumbers(RowsAhead(x, status)) && AscendingRows(RowsAhead(x, status))
  {
    var (a, b) := (CandidateRows(x, status.candidates), RejectedRows(x, status.rejected));
    CandidateRowsAreDistinct(x, status.candidates);
    RejectedRowsAreDistinct(x, status.rejected);
    forall i, j | 0 <= i < |a| && 0 <= j < |b|
      ensures a[i].pr != b[j].pr
    {
      CandidateRowsAre(x, status.candidates, a[i]);
      RejectedRowsAre(x, status.rejected, b[j]);
    }
    assert DistinctNumbers(a + b);
    DistinctMeansOnce(a + b);
    forall p
      ensures CountOf(SortRows(a + b), p) <= 1
    {
      CountAfterSort(a + b, p);
    }
    DistinctMeansOnce(SortRows(a + b));
    SortRowsSorts(a + b);
  }

  lemma {:induction false} FoundCandidate(rows: seq<Candidate>, p: Pr)
    ensures FindCandidate(rows, p).Some? ==> FindCandidate(rows, p).value in rows && FindCandidate(rows, p).value.pr == p
    ensures FindCandidate(rows, p).None? ==> forall c :: c in rows ==> c.pr != p
  {
    if rows != [] {
      FoundCandidate(rows[1..], p);
      assert rows == [rows[0]] + rows[1..];
    }
  }

  lemma RowsAheadIgnoreOrder(x: Context, a: Status, b: Status)
    requires DistinctRows(a) && DistinctRows(b) && SameRows(a, b)
    ensures RowsAhead(x, a) == RowsAhead(x, b)
  {
    RowsAheadAreDistinct(x, a);
    RowsAheadAreDistinct(x, b);
    forall r
      ensures r in RowsAhead(x, a) <==> r in RowsAhead(x, b)
    {
      RowsAheadAreTheSmallerKeys(x, a, r);
      RowsAheadAreTheSmallerKeys(x, b, r);
    }
    SortedRowsAreDetermined(RowsAhead(x, a), RowsAhead(x, b));
  }

  lemma SameOwnRow(a: Status, b: Status, candidate: Pr)
    requires DistinctRows(a) && SameRows(a, b)
    ensures FindCandidate(a.candidates, candidate) == FindCandidate(b.candidates, candidate)
  {
    FoundCandidate(a.candidates, candidate);
    FoundCandidate(b.candidates, candidate);
  }

  lemma SameDecision(a: Status, b: Status, g: Graph, candidate: Pr, dependencies: set<Pr>, join: bool, selection: Selection)
    requires a.next == b.next && a.priorityLabels == b.priorityLabels
    requires FindCandidate(a.candidates, candidate) == FindCandidate(b.candidates, candidate)
    requires
      var own := FindCandidate(a.candidates, candidate);
      own.Some? ==>
        var x := ContextOf(a, g, candidate, dependencies, selection, own.value);
        RowsAhead(x, a) == RowsAhead(x, b)
    ensures Decide(a, g, candidate, dependencies, join, selection) == Decide(b, g, candidate, dependencies, join, selection)
  {
    var own := FindCandidate(a.candidates, candidate);
    assert Undecided(a, candidate, dependencies, join, selection) == Undecided(b, candidate, dependencies, join, selection);
    if own.Some? {
      assert ContextOf(a, g, candidate, dependencies, selection, own.value) == ContextOf(b, g, candidate, dependencies, selection, own.value);
    }
  }

  /** The order in which the lists are given changes nothing. */
  lemma OrderOfListsIsIrrelevant(a: Status, b: Status, g: Graph, candidate: Pr, dependencies: set<Pr>, join: bool, selection: Selection)
    requires DistinctRows(a) && DistinctRows(b) && SameRows(a, b)
    ensures Decide(a, g, candidate, dependencies, join, selection) == Decide(b, g, candidate, dependencies, join, selection)
  {
    SameOwnRow(a, b, candidate);
    var own := FindCandidate(a.candidates, candidate);
    if own.Some? {
      RowsAheadIgnoreOrder(ContextOf(a, g, candidate, dependencies, selection, own.value), a, b);
    }
    SameDecision(a, b, g, candidate, dependencies, join, selection);
  }

  // ----- after the evaluation -----

  function AfterPreflight(d: Decision, compatibilityClean: bool, preflightClean: bool): Decision {
    d.(compatibilityClean := compatibilityClean, preflightClean := preflightClean,
       outcome := if !preflightClean && d.outcome.ExplicitAheadOfUnjoined? then BlockedByPreflight else d.outcome)
  }

  class DecisionRecord {
    var decision: Decision

    constructor (decision: Decision)
      ensures this.decision == decision
    {
      this.decision := decision;
    }

    method RecordPreflight(compatibilityClean: bool, preflightClean: bool)
      modifies this
      ensures decision == AfterPreflight(old(decision), compatibilityClean, preflightClean)
    {
      decision := decision.(compatibilityClean := compatibilityClean, preflightClean := preflightClean);
      if !preflightClean && decision.outcome.ExplicitAheadOfUnjoined? {
        decision := decision.(outcome := BlockedByPreflight);
      }
    }

    method RecordExecution(providerMutated: bool)
      modifies this
      ensures decision == old(decision).(providerMutated := providerMutated, idempotent := !providerMutated)
    {
      decision := decision.(providerMutated := providerMutated);
      decision := decision.(idempotent := !providerMutated);
    }
  }

  /** A failed preflight never lets anything pass that was stopped, and keeps the chain of permissions. */
  lemma PreflightKeepsThePermissionOrder(status: Status, g: Graph, candidate: Pr, dependencies: set<Pr>, join: bool, compatible: bool, clean: bool)
    ensures
      var automatic := AfterPreflight(Decide(status, g, candidate, dependencies, join, Automatic), compatible, clean);
      var explicit := AfterPreflight(Decide(status, g, candidate, dependencies, join, Explicit), compatible, clean);
      var checkedOut := AfterPreflight(Decide(status, g, candidate, dependencies, join, CheckedOut), compatible, clean);
      && (automatic.Permits() ==> explicit.Permits())
      && (explicit.Permits() ==> checkedOut.Permits())
      && (explicit.Permits() ==> Decide(status, g, candidate, dependencies, join, Explicit).Permits())
  {
    OutcomeOf(status, g, candidate, dependencies, join, Automatic);
    OutcomeOf(status, g, candidate, dependencies, join, Explicit);
    OutcomeOf(status, g, candidate, dependencies, join, CheckedOut);
  }

  /** A row before `own` that an explicit request must not pass: a joined or dependency candidate, or a rejected row. */
  predicate SomeRowBlocks(status: Status, g: Graph, dependencies: set<Pr>, own: Candidate) {
    var x := ContextOf(status, g, own.pr, dependencies, Explicit, own);
    || (exists c :: c in status.candidates && CandidateAhead(x, c) && (Joined(g, c.pr) || c.pr in dependencies))
    || (exists c :: c in status.rejected && RejectedAhead(x, c))
  }

  /**
   A failed preflight stops a checked-out candidate exactly when it is an ordinary one
   and no row ahead of it blocks. With a blocking row the permission stays.
   */
  lemma FailedPreflightStopsCheckedOutOnlyWithoutBlockers(status: Status, g: Graph, candidate: Pr, dependencies: set<Pr>, join: bool, compatible: bool)
    ensures
      AfterPreflight(Decide(status, g, candidate, dependencies, join, CheckedOut), compatible, false).Permits() <==>
      (Ordinary(status, g, candidate) ==> SomeRowBlocks(status, g, dependencies, FindCandidate(status.candidates, candidate).value))
  {
    if Ordinary(status, g, candidate) {
      FoundCandidate(status.candidates, candidate);
      FailedPreflightLeavesTheOpposite(status, g, candidate, dependencies, join, compatible);
      ExplicitPassesOnlyUnrelatedRows(status, g, candidate, dependencies, join);
    } else {
      OutcomeOf(status, g, candidate, dependencies, join, CheckedOut);
    }
  }

  lemma FailedPreflightLeavesTheOpposite(status: Status, g: Graph, candidate: Pr, dependencies: set<Pr>, join: bool, compatible: bool)
    requires Ordinary(status, g, candidate)
    ensures
      AfterPreflight(Decide(status, g, candidate, dependencies, join, CheckedOut), compatible, false).Permits() <==>
      !Decide(status, g, candidate, dependencies, join, Explicit).Permits()
  {
    var own := FindCandidate(status.candidates, candidate).value;
    var x := ContextOf(status, g, candidate, dependencies, Explicit, own);
    var y := ContextOf(status, g, candidate, dependencies, CheckedOut, own);
    SameRowsForOwners(x, y, status.candidates, status.rejected);
  }

  /** A joined row ahead, a failed preflight, and a checked-out candidate that is still permitted. */
  lemma CheckedOutPassesAFailedPreflight(status: Status, g: Graph, compatible: bool)
    requires status == Status(2, [Candidate(1, Some(0), None, ""), Candidate(2, Some(1), None, "")], [], None)
    requires g == Graph(map[], [Caravan(1, [1])])
    ensures AfterPreflight(Decide(status, g, 2, {}, false, CheckedOut), compatible, false).Permits()
    ensures !AfterPreflight(Decide(status, g, 2, {}, false, Explicit), compatible, false).Permits()
  {
    var own := status.candidates[1];
    assert !Joined(g, 2);
    assert Joined(g, 1) by { assert 1 in g.caravans[0].members; }
    assert FindCandidate(status.candidates, 2) == Some(own);
    assert status.candidates[0] in status.candidates;
    assert SomeRowBlocks(status, g, {}, own);
    FailedPreflightStopsCheckedOutOnlyWithoutBlockers(status, g, 2, {}, false, compatible);
    FailedPreflightLeavesTheOpposite(status, g, 2, {}, false, compatible);
  }

  lemma {:induction false} SameRowsForOwners(x: Context, y: Context, candidates: seq<Candidate>, rejected: seq<Rejected>)
    requires y == x.(selection := y.selection) && x.selection.RelaxesOrder() && y.selection.RelaxesOrder()
    ensures CandidateRows(x, candidates) == CandidateRows(y, candidates)
    ensures RejectedRows(x, rejected) == RejectedRows(y, rejected)
    decreases |candidates| + |rejected|
  {
    if candidates != [] {
      SameRowsForOwners(x, y, candidates[..|candidates| - 1], rejected);
    } else if rejected != [] {
      SameRowsForOwners(x, y, candidates, rejected[..|rejected| - 1]);
    }
  }
}
