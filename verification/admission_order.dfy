/** Which rows a decision reports and what they decide (src/admission.rs), in the fields of the rows. */
module AdmissionOrder {
  import opened Common
  import opened Ordering
  import opened Admission

  /** The part of a row that decides its place. */
  datatype Place = Place(rank: Option<nat>, createdAt: Option<string>, pr: Pr)

  function PlaceOf(c: Candidate): Place { Place(c.rank, c.createdAt, c.pr) }

  function PlaceOfRejected(c: Rejected): Place { Place(c.rank, c.createdAt, c.pr) }

  /**
   a is served before b: by the smaller rank, where an unset one comes behind all labels;
   then dated before undated; then the older one; then the smaller number.
   */
  ghost predicate IsAhead(labels: nat, a: Place, b: Place) {
    var left := if a.rank.Some? then a.rank.value else labels + 1;
    var right := if b.rank.Some? then b.rank.value else labels + 1;
    || left < right
    || (left == right
        && (|| (a.createdAt.Some? && b.createdAt.None?)
            || (a.createdAt.Some? && b.createdAt.Some? && IsSmaller(a.createdAt.value, b.createdAt.value))
            || (a.createdAt == b.createdAt && a.pr < b.pr)))
  }

  lemma AheadIsBefore(labels: nat, a: Place, b: Place)
    ensures IsAhead(labels, a, b) <==>
      Before(KeyOf(a.rank, a.createdAt, a.pr, labels + 1), KeyOf(b.rank, b.createdAt, b.pr, labels + 1))
  {
    if a.createdAt.Some? && b.createdAt.Some? {
      LexLessIs(a.createdAt.value, b.createdAt.value);
    }
    LexLessIsTotal("", "");
  }

  /** What is said of any row: joined rows and dependencies block, whatever their kind. */
  predicate IsFlagged(r: OrderedRow, g: Graph, dependencies: set<Pr>) {
    var joined := exists i :: 0 <= i < |g.caravans| && r.pr in g.caravans[i].members;
    && r.joined == joined
    && (r.disposition.BlockedJoined? <==> joined)
    && (r.disposition.BlockedDependency? <==> !joined && r.pr in dependencies)
  }

  /** The row of a candidate; if nothing flags it, it is passed unless the selection is automatic. */
  predicate IsCandidateRow(r: OrderedRow, c: Candidate, g: Graph, dependencies: set<Pr>, selection: Selection) {
    && r.pr == c.pr && r.reason == c.reason && IsFlagged(r, g, dependencies)
    && !r.disposition.BlockedRankIndeterminate?
    && (r.disposition.BypassedUnjoined? ==> !selection.Automatic?)
    && (r.disposition.BlockedAutomaticOrder? ==> selection.Automatic?)
  }

  /** The row of a rejected one; if nothing flags it, its rank is in doubt. */
  predicate IsRejectedRow(r: OrderedRow, c: Rejected, g: Graph, dependencies: set<Pr>) {
    && r.pr == c.pr && r.reason == c.reason && IsFlagged(r, g, dependencies)
    && !r.disposition.BypassedUnjoined? && !r.disposition.BlockedAutomaticOrder?
  }

  /** The candidate is not enrolled, not the next one, and its first row is `own`. */
  predicate IsOrdinary(status: Status, g: Graph, candidate: Pr, own: Candidate) {
    && (forall i :: 0 <= i < |g.caravans| ==> candidate !in g.caravans[i].members)
    && status.next != Some(candidate)
    && exists k :: 0 <= k < |status.candidates| && status.candidates[k] == own && own.pr == candidate
         && forall j :: 0 <= j < k ==> status.candidates[j].pr != candidate
  }

  lemma {:induction false} TheFirstRow(rows: seq<Candidate>, candidate: Pr, k: nat)
    requires k < |rows| && rows[k].pr == candidate && forall j :: 0 <= j < k ==> rows[j].pr != candidate
    ensures FindCandidate(rows, candidate) == Some(rows[k])
  {
    if k > 0 {
      assert rows[0].pr != candidate;
      TheFirstRow(rows[1..], candidate, k - 1);
    }
  }

  lemma OrdinaryIs(status: Status, g: Graph, candidate: Pr, own: Candidate)
    requires IsOrdinary(status, g, candidate, own)
    ensures Ordinary(status, g, candidate) && FindCandidate(status.candidates, candidate) == Some(own)
  {
    var k :| 0 <= k < |status.candidates| && status.candidates[k] == own && own.pr == candidate
      && forall j :: 0 <= j < k ==> status.candidates[j].pr != candidate;
    TheFirstRow(status.candidates, candidate, k);
  }

  lemma CandidateRowIs(x: Context, c: Candidate, r: OrderedRow)
    ensures r == CandidateRow(x, c) <==> IsCandidateRow(r, c, x.g, x.dependencies, x.selection)
  {
  }

  lemma RejectedRowIs(x: Context, c: Rejected, r: OrderedRow)
    ensures r == RejectedRow(x, c) <==> IsRejectedRow(r, c, x.g, x.dependencies)
  {
  }

  lemma WhoIsAhead(status: Status, g: Graph, candidate: Pr, dependencies: set<Pr>, selection: Selection, own: Candidate)
    requires own.pr == candidate
    ensures
      var x := ContextOf(status, g, candidate, dependencies, selection, own);
      && (forall c: Candidate :: CandidateAhead(x, c) <==> c.pr != candidate && IsAhead(status.priorityLabels, PlaceOf(c), PlaceOf(own)))
      && (forall c: Rejected :: RejectedAhead(x, c) <==>
            c.blocksOrder && c.pr != candidate && IsAhead(status.priorityLabels, PlaceOfRejected(c), PlaceOf(own)))
  {
    var x := ContextOf(status, g, candidate, dependencies, selection, own);
    forall c: Candidate
      ensures CandidateAhead(x, c) <==> c.pr != candidate && IsAhead(status.priorityLabels, PlaceOf(c), PlaceOf(own))
    {
      AheadIsBefore(status.priorityLabels, PlaceOf(c), PlaceOf(own));
    }
    forall c: Rejected
      ensures RejectedAhead(x, c) <==>
        c.blocksOrder && c.pr != candidate && IsAhead(status.priorityLabels, PlaceOfRejected(c), PlaceOf(own))
    {
      AheadIsBefore(status.priorityLabels, PlaceOfRejected(c), PlaceOf(own));
    }
  }

  /** An ordinary candidate is told exactly the rows that are served before it, in the order of their numbers. */
  lemma ReportedRowsAreThoseAhead(status: Status, g: Graph, candidate: Pr, dependencies: set<Pr>, join: bool, selection: Selection,
                                  own: Candidate, r: OrderedRow)
    requires IsOrdinary(status, g, candidate, own)
    ensures
      var rows := Decide(status, g, candidate, dependencies, join, selection).rows;
      && (r in rows <==>
           || (exists c :: c in status.candidates && c.pr != candidate
                 && IsAhead(status.priorityLabels, PlaceOf(c), PlaceOf(own)) && IsCandidateRow(r, c, g, dependencies, selection))
           || (exists c :: c in status.rejected && c.blocksOrder && c.pr != candidate
                 && IsAhead(status.priorityLabels, PlaceOfRejected(c), PlaceOf(own)) && IsRejectedRow(r, c, g, dependencies)))
      && forall i, j :: 0 <= i < j < |rows| ==> rows[i].pr <= rows[j].pr
  {
    OrdinaryIs(status, g, candidate, own);
    var x := ContextOf(status, g, candidate, dependencies, selection, own);
    assert Decide(status, g, candidate, dependencies, join, selection).rows == RowsAhead(x, status);
    SortRowsSorts(CandidateRows(x, status.candidates) + RejectedRows(x, status.rejected));
    RowsAheadAreTheSmallerKeys(x, status, r);
    WhoIsAhead(status, g, candidate, dependencies, selection, own);
    forall c: Candidate
      ensures r == CandidateRow(x, c) <==> IsCandidateRow(r, c, g, dependencies, selection)
    {
      CandidateRowIs(x, c, r);
    }
    forall c: Rejected
      ensures r == RejectedRow(x, c) <==> IsRejectedRow(r, c, g, dependencies)
    {
      RejectedRowIs(x, c, r);
    }
  }

  /** Passed and blocking numbers are those of the rows. */
  lemma ListsAreThoseOfTheRows(status: Status, g: Graph, candidate: Pr, dependencies: set<Pr>, join: bool, selection: Selection, p: Pr)
    ensures
      var d := Decide(status, g, candidate, dependencies, join, selection);
      && (p in d.bypassed <==> exists r :: r in d.rows && r.pr == p && r.disposition.BypassedUnjoined?)
      && (p in d.blocking <==> exists r :: r in d.rows && r.pr == p && !r.disposition.BypassedUnjoined?)
  {
    var d := Decide(status, g, candidate, dependencies, join, selection);
    PrsWhereAre(d.rows, true, p);
    PrsWhereAre(d.rows, false, p);
  }

  /** A candidate row ahead that an explicit request must not pass, or a rejected row that holds its place. */
  ghost predicate StandsInTheWay(status: Status, g: Graph, dependencies: set<Pr>, own: Candidate) {
    || (exists c :: c in status.candidates && c.pr != own.pr && IsAhead(status.priorityLabels, PlaceOf(c), PlaceOf(own))
          && (c.pr in dependencies || exists i :: 0 <= i < |g.caravans| && c.pr in g.caravans[i].members))
    || (exists c :: c in status.rejected && c.blocksOrder && c.pr != own.pr
          && IsAhead(status.priorityLabels, PlaceOfRejected(c), PlaceOf(own)))
  }

  /** The outcome for an ordinary candidate, for each kind of selection. */
  lemma OutcomeOfAnOrdinaryCandidate(status: Status, g: Graph, candidate: Pr, dependencies: set<Pr>, join: bool, selection: Selection,
                                     own: Candidate)
    requires IsOrdinary(status, g, candidate, own)
    ensures
      var o := Decide(status, g, candidate, dependencies, join, selection).outcome;
      match selection
      case Automatic => o == BlockedByOrder
      case Explicit => o == if StandsInTheWay(status, g, dependencies, own) then BlockedByOrder else ExplicitAheadOfUnjoined
      case CheckedOut => o == if StandsInTheWay(status, g, dependencies, own) then OwnerSelected else ExplicitAheadOfUnjoined
  {
    OrdinaryIs(status, g, candidate, own);
    OutcomeOf(status, g, candidate, dependencies, join, selection);
    WhoIsAhead(status, g, candidate, dependencies, Explicit, own);
    ExplicitPassesOnlyUnrelatedRows(status, g, candidate, dependencies, join);
    OutcomeOf(status, g, candidate, dependencies, join, Explicit);
    FailedPreflightLeavesTheOpposite(status, g, candidate, dependencies, join, true);
  }

  /** A candidate that is enrolled or next passes with no row; one without a row passes only when checked out. */
  lemma OutcomeOfTheOthers(status: Status, g: Graph, candidate: Pr, dependencies: set<Pr>, join: bool, selection: Selection)
    requires
      || (exists i :: 0 <= i < |g.caravans| && candidate in g.caravans[i].members)
      || status.next == Some(candidate)
      || (forall c :: c in status.candidates ==> c.pr != candidate)
    ensures
      var d := Decide(status, g, candidate, dependencies, join, selection);
      && d.rows == [] && d.bypassed == [] && d.blocking == []
      && d.outcome ==
         if exists i :: 0 <= i < |g.caravans| && candidate in g.caravans[i].members then AlreadyEnrolled
         else if status.next == Some(candidate) then Canonical
         else if selection.CheckedOut? then OwnerSelected
         else BlockedByOrder
  {
    FoundCandidate(status.candidates, candidate);
  }

  /**
   First come, first served: a pull request that is based on an older one of the same rank
   never passes it on request.
   */
  lemma AChildNeverPassesItsParent(status: Status, g: Graph, candidate: Pr, base: Branch, dependencies: set<Pr>, join: bool,
                                   own: Candidate, parent: Candidate)
    requires IsOrdinary(status, g, candidate, own) && parent in status.candidates && parent.pr != candidate
    requires parent.pr in g.pulls && g.pulls[parent.pr].state.Open? && !g.pulls[parent.pr].crossRepository && g.pulls[parent.pr].head == base
    requires dependencies == Closure(g, candidate, base)
    requires parent.rank == own.rank && parent.createdAt.Some? && own.createdAt.Some?
    requires IsSmaller(parent.createdAt.value, own.createdAt.value)
    ensures Decide(status, g, candidate, dependencies, join, Explicit).outcome == BlockedByOrder
  {
    FirstDependency(g, base, parent.pr);
    OutcomeOfAnOrdinaryCandidate(status, g, candidate, dependencies, join, Explicit, own);
  }

  /** A dependency is an open pull request of the same repository whose branch is the base of the candidate or of another dependency. */
  lemma DependenciesAreBases(g: Graph, base: Branch, p: Pr)
    ensures DependsOn(g, base, p) <==>
      && p in g.pulls && g.pulls[p].state.Open? && !g.pulls[p].crossRepository
      && (g.pulls[p].head == base
          || exists q :: q in g.pulls && DependsOn(g, base, q) && g.pulls[p].head == Branch(base.repository, g.pulls[q].base.name))
  {
    if DependsOn(g, base, p) {
      var chain :| IsChain(g, base, chain) && chain[|chain| - 1] == p;
      var n := |chain| - 1;
      if n > 0 {
        assert BasedOn(g, base.repository, chain[n - 1], chain[n]);
        assert IsChain(g, base, chain[..n]) && chain[..n][|chain[..n]| - 1] == chain[n - 1];
      }
    }
    if p in g.pulls && g.pulls[p].state.Open? && !g.pulls[p].crossRepository {
      if g.pulls[p].head == base {
        FirstDependency(g, base, p);
      }
      if q :| q in g.pulls && DependsOn(g, base, q) && g.pulls[p].head == Branch(base.repository, g.pulls[q].base.name) {
        ChainGrows(g, base, q, p);
      }
    }
  }
}
