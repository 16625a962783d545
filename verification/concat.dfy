/**
 Executing a concatenation (src/concat.rs, src/physical_rebase.rs) as a transaction
 on the branches and base edges that the provider holds. Only this transaction writes.
 A push moves all its branches or none, and reports success only if it moved them; a
 base edit is one write. Every reply may be lost, every read may fail or be stale.
 */
module Concat {
  import opened Common
  import opened Fleets
  import opened ConcatPlans

  datatype Edge = Edge(head: string, base: string)

  /** The commit of each branch, and the branches each open member connects. */
  datatype World = World(refs: map<string, string>, edges: map<Pr, Edge>)

  /** One branch of the source caravan before and after its rewrite. */
  datatype Item = Item(pr: Pr, branch: string, oldOid: string, newOid: string)

  datatype Job = Job(items: seq<Item>, oldBase: string, newBase: string, ordering: seq<Pr>)

  datatype PushWeather = PushWeather(lands: bool, reported: bool, inspected: bool)

  datatype Env = Env(
    verified: bool,
    push: PushWeather,
    reread: Option<map<Pr, Member>>,
    commit: Fault,
    finally: Option<seq<seq<Pr>>>,
    undoBase: Fault,
    undoPush: PushWeather)

  datatype PushReply = Landed | Declined | Unknown

  datatype Exit =
    | Complete
    | PreparedInvalid
    | PushRefused
    | RediscoveryFailed
    | CommitFailed
    | FinalUnreadable
    | TopologyUnexpected
    | PushIndeterminate
    | RollbackIndeterminate
    | MembershipRollbackIndeterminate
    | PhysicalRollbackIndeterminate
  {
    /** What a failure tells its caller about the provider. */
    predicate ClaimsUnchanged() {
      this in {PreparedInvalid, PushRefused, RediscoveryFailed, CommitFailed, FinalUnreadable, TopologyUnexpected}
    }
  }

  function FleetOf(w: World): Fleet {
    map p | p in w.edges ::
      Member(w.edges[p].head, if w.edges[p].head in w.refs then w.refs[w.edges[p].head] else "", w.edges[p].base)
  }

  // ----- pushes -----

  predicate Changes(items: seq<Item>) {
    exists i :: 0 <= i < |items| && items[i].oldOid != items[i].newOid
  }

  function From(item: Item, forward: bool): string {
    if forward then item.oldOid else item.newOid
  }

  /** Every branch a push moves is at the commit its lease names. */
  predicate Leased(refs: map<string, string>, items: seq<Item>, forward: bool) {
    forall i :: 0 <= i < |items| && items[i].oldOid != items[i].newOid ==>
      items[i].branch in refs && refs[items[i].branch] == From(items[i], forward)
  }

  /** The commit a push leaves a branch at. */
  function TipOf(items: seq<Item>, branch: string, current: string, forward: bool): string {
    if items == [] then current
    else if items[0].branch == branch && items[0].oldOid != items[0].newOid then From(items[0], !forward)
    else TipOf(items[1..], branch, current, forward)
  }

  function Moved(refs: map<string, string>, items: seq<Item>, forward: bool): map<string, string> {
    map b | b in refs :: TipOf(items, b, refs[b], forward)
  }

  /** Every branch of the items is at its old commit, or every one is at its new commit. */
  predicate AllAt(refs: map<string, string>, items: seq<Item>, atOld: bool) {
    forall i :: 0 <= i < |items| ==> items[i].branch in refs && refs[items[i].branch] == From(items[i], atOld)
  }

  function PushRefs(refs: map<string, string>, items: seq<Item>, forward: bool, weather: PushWeather): map<string, string> {
    if Changes(items) && weather.lands && Leased(refs, items, forward) then Moved(refs, items, forward) else refs
  }

  /** A failed push is classified by reading every branch. Undoing accepts nothing but all old heads. */
  function PushAnswer(refs: map<string, string>, items: seq<Item>, forward: bool, weather: PushWeather): PushReply {
    var after := PushRefs(refs, items, forward, weather);
    if !Changes(items) then Landed
    else if weather.lands && weather.reported && Leased(refs, items, forward) then Landed
    else if !weather.inspected then Unknown
    else if AllAt(after, items, true) then (if forward then Declined else Landed)
    else if forward && AllAt(after, items, false) then Landed
    else Unknown
  }

  // ----- base edits -----

  predicate Expected(w: World, pr: Pr, oid: string, base: string) {
    pr in w.edges && w.edges[pr].base == base && w.edges[pr].head in w.refs && w.refs[w.edges[pr].head] == oid
  }

  /** Set a base under the expected head and base. `Late`: the edit is made, reading it back fails. */
  function SetBase(w: World, pr: Pr, oid: string, base: string, to: string, fault: Fault): World {
    if Expected(w, pr, oid, base) && !fault.Lost? then w.(edges := w.edges[pr := w.edges[pr].(base := to)]) else w
  }

  // ----- the transaction -----

  predicate Exposed(job: Job, reread: Option<map<Pr, Member>>) {
    && reread.Some?
    && forall i :: 0 <= i < |job.items| ==>
      job.items[i].pr in reread.value && reread.value[job.items[i].pr].oid == job.items[i].newOid
  }

  function UndoHeads(w: World, job: Job, env: Env, cause: Exit): (World, Exit) {
    (w.(refs := PushRefs(w.refs, job.items, false, env.undoPush)),
     if PushAnswer(w.refs, job.items, false, env.undoPush).Landed? then cause else RollbackIndeterminate)
  }

  function UndoAll(w: World, job: Job, env: Env, cause: Exit): (World, Exit)
    requires job.items != []
  {
    var root := job.items[0];
    var w1 := SetBase(w, root.pr, root.newOid, job.newBase, job.oldBase, env.undoBase);
    if !Expected(w, root.pr, root.newOid, job.newBase) || !env.undoBase.Fine? then (w1, MembershipRollbackIndeterminate)
    else
      (w1.(refs := PushRefs(w1.refs, job.items, false, env.undoPush)),
       if PushAnswer(w1.refs, job.items, false, env.undoPush).Landed? then cause else PhysicalRollbackIndeterminate)
  }

  function Finish(w: World, job: Job, env: Env): (World, Exit)
    requires job.items != []
  {
    if env.finally.None? then UndoAll(w, job, env, FinalUnreadable)
    else if job.ordering !in env.finally.value then UndoAll(w, job, env, TopologyUnexpected)
    else (w, Complete)
  }

  function Commit(w: World, job: Job, env: Env): (World, Exit)
    requires job.items != [] && Exposed(job, env.reread)
  {
    var root := job.items[0];
    var base := env.reread.value[root.pr].base;
    var w1 := SetBase(w, root.pr, root.newOid, base, job.newBase, env.commit);
    if Expected(w, root.pr, root.newOid, base) && env.commit.Fine? then Finish(w1, job, env)
    else UndoHeads(w1, job, env, CommitFailed)
  }

  function Transaction(w: World, job: Job, env: Env): (World, Exit)
    requires job.items != []
  {
    if !env.verified then (w, PreparedInvalid)
    else
      var w1 := w.(refs := PushRefs(w.refs, job.items, true, env.push));
      match PushAnswer(w.refs, job.items, true, env.push)
      case Declined => (w1, PushRefused)
      case Unknown => (w1, PushIndeterminate)
      case Landed => if Exposed(job, env.reread) then Commit(w1, job, env) else UndoHeads(w1, job, env, RediscoveryFailed)
  }

  // ----- what the provider may be left with -----

  /** The job was planned from this world: its branches differ, and are at their old commits. */
  predicate Fits(w: World, job: Job) {
    && job.items != []
    && (forall i, j :: 0 <= i < j < |job.items| ==> job.items[i].branch != job.items[j].branch)
    && AllAt(w.refs, job.items, true)
    && job.items[0].pr in w.edges
    && w.edges[job.items[0].pr] == Edge(job.items[0].branch, job.oldBase)
  }

  function Rewritten(w: World, job: Job): map<string, string> {
    Moved(w.refs, job.items, true)
  }

  function Rebased(w: World, job: Job): map<Pr, Edge>
    requires job.items != [] && job.items[0].pr in w.edges
  {
    w.edges[job.items[0].pr := w.edges[job.items[0].pr].(base := job.newBase)]
  }

  lemma {:induction false} TipOfItem(items: seq<Item>, k: nat, current: string, forward: bool)
    requires k < |items| && forall i, j :: 0 <= i < j < |items| ==> items[i].branch != items[j].branch
    ensures TipOf(items, items[k].branch, current, forward) ==
      if items[k].oldOid != items[k].newOid then From(items[k], !forward) else current
  {
    if k > 0 {
      TipOfItem(items[1..], k - 1, current, forward);
    } else {
      NoItem(items[1..], items[0].branch, current, forward);
    }
  }

  lemma {:induction false} NoItem(items: seq<Item>, branch: string, current: string, forward: bool)
    requires forall i :: 0 <= i < |items| ==> items[i].branch != branch
    ensures TipOf(items, branch, current, forward) == current
  {
    if items != [] {
      NoItem(items[1..], branch, current, forward);
    }
  }

  predicate Distinct(items: seq<Item>) {
    forall i, j :: 0 <= i < j < |items| ==> items[i].branch != items[j].branch
  }

  /** A push brings every branch to its other commit and touches no other branch. */
  lemma MovedIsExact(refs: map<string, string>, items: seq<Item>, forward: bool)
    requires Distinct(items) && AllAt(refs, items, forward)
    ensures AllAt(Moved(refs, items, forward), items, !forward)
    ensures Moved(refs, items, forward).Keys == refs.Keys
    ensures forall b :: b in refs && (forall i :: 0 <= i < |items| ==> items[i].branch != b) ==> Moved(refs, items, forward)[b] == refs[b]
  {
    forall i | 0 <= i < |items|
      ensures items[i].branch in refs && Moved(refs, items, forward)[items[i].branch] == From(items[i], !forward)
    {
      TipOfItem(items, i, refs[items[i].branch], forward);
    }
    forall b | b in refs && forall i :: 0 <= i < |items| ==> items[i].branch != b
      ensures Moved(refs, items, forward)[b] == refs[b]
    {
      NoItem(items, b, refs[b], forward);
    }
  }

  predicate Names(items: seq<Item>, b: string) {
    exists i :: 0 <= i < |items| && items[i].branch == b
  }

  /** Undoing the rewrite restores every branch. */
  lemma MovedBack(refs: map<string, string>, items: seq<Item>)
    requires Distinct(items) && AllAt(refs, items, true)
    ensures Moved(Moved(refs, items, true), items, false) == refs
  {
    var moved := Moved(refs, items, true);
    MovedIsExact(refs, items, true);
    MovedIsExact(moved, items, false);
    forall b | b in refs
      ensures Moved(moved, items, false)[b] == refs[b]
    {
      if Names(items, b) {
        var i :| 0 <= i < |items| && items[i].branch == b;
      }
    }
  }

  lemma {:induction false} UnchangedTips(items: seq<Item>, branch: string, current: string, forward: bool)
    requires !Changes(items)
    ensures TipOf(items, branch, current, forward) == current
  {
    if items != [] {
      UnchangedTips(items[1..], branch, current, forward);
    }
  }

  lemma UnchangedMoves(refs: map<string, string>, items: seq<Item>, forward: bool)
    requires !Changes(items)
    ensures Moved(refs, items, forward) == refs
  {
    forall b | b in refs
      ensures Moved(refs, items, forward)[b] == refs[b]
    {
      UnchangedTips(items, b, refs[b], forward);
    }
  }

  /** A push moves all branches or none, and its answer is never wrong about that. */
  lemma PushIsAllOrNothing(refs: map<string, string>, items: seq<Item>, weather: PushWeather)
    requires Distinct(items) && AllAt(refs, items, true)
    ensures PushRefs(refs, items, true, weather) in {refs, Moved(refs, items, true)}
    ensures PushAnswer(refs, items, true, weather).Landed? ==> PushRefs(refs, items, true, weather) == Moved(refs, items, true)
    ensures PushAnswer(refs, items, true, weather).Declined? ==> PushRefs(refs, items, true, weather) == refs
  {
    if Changes(items) {
      MovedIsExact(refs, items, true);
      var i :| 0 <= i < |items| && items[i].oldOid != items[i].newOid;
      var moved := Moved(refs, items, true);
      assert refs[items[i].branch] == items[i].oldOid && moved[items[i].branch] == items[i].newOid;
      assert !AllAt(refs, items, false) && !AllAt(moved, items, true);
    } else {
      UnchangedMoves(refs, items, true);
    }
  }

  /** The same for the push that undoes it: restored is claimed only when it is true. */
  lemma UndoIsAllOrNothing(refs: map<string, string>, items: seq<Item>, weather: PushWeather)
    requires Distinct(items) && AllAt(refs, items, true)
    ensures
      var rewritten := Moved(refs, items, true);
      && PushRefs(rewritten, items, false, weather) in {refs, rewritten}
      && (PushAnswer(rewritten, items, false, weather).Landed? ==> PushRefs(rewritten, items, false, weather) == refs)
  {
    var rewritten := Moved(refs, items, true);
    MovedIsExact(refs, items, true);
    MovedBack(refs, items);
    if Changes(items) {
      var i :| 0 <= i < |items| && items[i].oldOid != items[i].newOid;
      assert rewritten[items[i].branch] == items[i].newOid;
      assert !AllAt(rewritten, items, true);
    } else {
      UnchangedMoves(refs, items, true);
    }
  }

  // ----- how each exit comes about, in terms of the environment alone -----

  /** The push is known to be made: it had nothing to do, or it landed and a reply or a look at the branches says so. */
  predicate Confirmed(items: seq<Item>, weather: PushWeather) {
    Changes(items) ==> weather.lands && (weather.reported || weather.inspected)
  }

  predicate Pushed(job: Job, env: Env) {
    env.verified && Confirmed(job.items, env.push)
  }

  /** Every rewritten head is seen, and so is the base that the edge really has. */
  predicate Seen(job: Job, env: Env) {
    Pushed(job, env) && Exposed(job, env.reread)
  }

  predicate SeesOldBase(job: Job, env: Env)
    requires job.items != []
  {
    Seen(job, env) && env.reread.value[job.items[0].pr].base == job.oldBase
  }

  /** The base edit is made and confirmed. */
  predicate Reached(job: Job, env: Env)
    requires job.items != []
  {
    SeesOldBase(job, env) && env.commit.Fine?
  }

  /** The base edit took effect, and its caller was told that it failed. */
  predicate LateCommit(job: Job, env: Env)
    requires job.items != []
  {
    SeesOldBase(job, env) && env.commit.Late?
  }

  /** The final status shows exactly the joined ordering. */
  predicate Verified(job: Job, env: Env) {
    env.finally.Some? && job.ordering in env.finally.value
  }

  predicate Causes(job: Job, env: Env, e: Exit)
    requires job.items != []
  {
    match e
    case Complete => Reached(job, env) && Verified(job, env)
    case PreparedInvalid => !env.verified
    case PushRefused => env.verified && Changes(job.items) && !env.push.lands && env.push.inspected
    case PushIndeterminate =>
      env.verified && Changes(job.items) && !(env.push.lands && env.push.reported) && !env.push.inspected
    case RediscoveryFailed => Pushed(job, env) && !Exposed(job, env.reread) && Confirmed(job.items, env.undoPush)
    case CommitFailed => Seen(job, env) && !Reached(job, env) && Confirmed(job.items, env.undoPush)
    case FinalUnreadable =>
      Reached(job, env) && env.finally.None? && env.undoBase.Fine? && Confirmed(job.items, env.undoPush)
    case TopologyUnexpected =>
      Reached(job, env) && env.finally.Some? && !Verified(job, env) && env.undoBase.Fine? && Confirmed(job.items, env.undoPush)
    case RollbackIndeterminate => Pushed(job, env) && !Reached(job, env) && !Confirmed(job.items, env.undoPush)
    case MembershipRollbackIndeterminate => Reached(job, env) && !Verified(job, env) && !env.undoBase.Fine?
    case PhysicalRollbackIndeterminate =>
      Reached(job, env) && !Verified(job, env) && env.undoBase.Fine? && !Confirmed(job.items, env.undoPush)
  }

  /** Where the branches of the source caravan end: all rewritten, or all as they were. */
  predicate HeadsEndNew(job: Job, env: Env)
    requires job.items != []
  {
    && env.verified && env.push.lands
    && (Pushed(job, env) ==>
        || (Reached(job, env) && (Verified(job, env) || !env.undoBase.Fine?))
        || !env.undoPush.lands)
  }

  /** Where the base edge ends. */
  predicate EdgeEndsNew(job: Job, env: Env)
    requires job.items != []
  {
    LateCommit(job, env) || (Reached(job, env) && (Verified(job, env) || env.undoBase.Lost?))
  }

  /** The answer to a push is exact: confirmed, declined, or unknown because nobody could look. */
  lemma PushIsExact(refs: map<string, string>, items: seq<Item>, weather: PushWeather)
    requires Distinct(items) && AllAt(refs, items, true)
    ensures PushRefs(refs, items, true, weather) == if weather.lands then Moved(refs, items, true) else refs
    ensures PushAnswer(refs, items, true, weather).Landed? <==> Confirmed(items, weather)
    ensures PushAnswer(refs, items, true, weather).Declined? <==> Changes(items) && !weather.lands && weather.inspected
  {
    PushIsAllOrNothing(refs, items, weather);
    MovedIsExact(refs, items, true);
    if !Changes(items) {
      UnchangedMoves(refs, items, true);
    } else {
      var i :| 0 <= i < |items| && items[i].oldOid != items[i].newOid;
      assert Moved(refs, items, true)[items[i].branch] == items[i].newOid;
    }
  }

  lemma UndoIsExact(refs: map<string, string>, items: seq<Item>, weather: PushWeather)
    requires Distinct(items) && AllAt(refs, items, true)
    ensures
      var rewritten := Moved(refs, items, true);
      && PushRefs(rewritten, items, false, weather) == (if weather.lands then refs else rewritten)
      && (PushAnswer(rewritten, items, false, weather).Landed? <==> Confirmed(items, weather))
  {
    UndoIsAllOrNothing(refs, items, weather);
    MovedIsExact(refs, items, true);
    MovedBack(refs, items);
    if !Changes(items) {
      UnchangedMoves(refs, items, true);
    }
  }

  /** What each exit leaves behind: `w` before, `after` at the exit. */
  ghost predicate Leaves(w: World, job: Job, env: Env, after: World, e: Exit)
    requires Fits(w, job)
  {
    && after.refs in {w.refs, Rewritten(w, job)}
    && after.edges in {w.edges, Rebased(w, job)}
    && match e
       case Complete => after == World(Rewritten(w, job), Rebased(w, job))
       case CommitFailed =>
         && after.refs == w.refs
         && after.edges == if LateCommit(job, env) then Rebased(w, job) else w.edges
       case PushIndeterminate => after.edges == w.edges
       case RollbackIndeterminate =>
         after.edges == if LateCommit(job, env) then Rebased(w, job) else w.edges
       case MembershipRollbackIndeterminate => after.refs == Rewritten(w, job)
       case PhysicalRollbackIndeterminate => after.edges == w.edges
       case _ => after == w
  }

  lemma HeadsUndone(w: World, job: Job, env: Env, cause: Exit, edges: map<Pr, Edge>)
    requires Fits(w, job)
    ensures
      var (after, e) := UndoHeads(World(Rewritten(w, job), edges), job, env, cause);
      && after.edges == edges && after.refs in {w.refs, Rewritten(w, job)}
      && (e == RollbackIndeterminate || (e == cause && after.refs == w.refs))
  {
    UndoIsAllOrNothing(w.refs, job.items, env.undoPush);
  }

  lemma RootIsRewritten(w: World, job: Job)
    requires Fits(w, job)
    ensures job.items[0].branch in Rewritten(w, job) && Rewritten(w, job)[job.items[0].branch] == job.items[0].newOid
  {
    MovedIsExact(w.refs, job.items, true);
  }

  lemma AllUndone(w: World, job: Job, env: Env, cause: Exit)
    requires Fits(w, job) && (cause.FinalUnreadable? || cause.TopologyUnexpected?)
    ensures
      var (after, e) := UndoAll(World(Rewritten(w, job), Rebased(w, job)), job, env, cause);
      Leaves(w, job, env, after, e) && e in {cause, MembershipRollbackIndeterminate, PhysicalRollbackIndeterminate}
  {
    RootIsRewritten(w, job);
    UndoIsAllOrNothing(w.refs, job.items, env.undoPush);
    assert Rebased(w, job)[job.items[0].pr := Edge(job.items[0].branch, job.oldBase)] == w.edges;
  }

  lemma CommitLeaves(w: World, job: Job, env: Env)
    requires Fits(w, job) && Seen(job, env)
    ensures
      var (after, e) := Commit(World(Rewritten(w, job), w.edges), job, env);
      Leaves(w, job, env, after, e)
  {
    RootIsRewritten(w, job);
    var w1 := World(Rewritten(w, job), w.edges);
    var root := job.items[0];
    var base := env.reread.value[root.pr].base;
    assert Expected(w1, root.pr, root.newOid, base) <==> base == job.oldBase;
    var w2 := SetBase(w1, root.pr, root.newOid, base, job.newBase, env.commit);
    if base == job.oldBase && env.commit.Fine? {
      AllUndone(w, job, env, FinalUnreadable);
      AllUndone(w, job, env, TopologyUnexpected);
    } else {
      HeadsUndone(w, job, env, CommitFailed, w2.edges);
    }
  }

  /**
   Whatever is lost, late or unreadable: the branches of the source caravan are all old
   or all rewritten, no other branch moves, and the base edge is the old one or the new
   one. Success means wholly new. A failure that claims nothing was changed is right,
   except that `CommitFailed` may leave the new base edge behind.
   */
  lemma EveryExitIsOldOrNew(w: World, job: Job, env: Env)
    requires Fits(w, job)
    ensures Leaves(w, job, env, Transaction(w, job, env).0, Transaction(w, job, env).1)
  {
    PushIsAllOrNothing(w.refs, job.items, env.push);
    PushIsExact(w.refs, job.items, env.push);
    if env.verified && PushAnswer(w.refs, job.items, true, env.push).Landed? {
      if Exposed(job, env.reread) {
        CommitLeaves(w, job, env);
      } else {
        HeadsUndone(w, job, env, RediscoveryFailed, w.edges);
      }
    }
  }

  lemma UndoHeadsIsExact(w: World, job: Job, env: Env, cause: Exit, edges: map<Pr, Edge>)
    requires Fits(w, job)
    ensures
      var (after, e) := UndoHeads(World(Rewritten(w, job), edges), job, env, cause);
      && after == World(if env.undoPush.lands then w.refs else Rewritten(w, job), edges)
      && e == if Confirmed(job.items, env.undoPush) then cause else RollbackIndeterminate
  {
    UndoIsExact(w.refs, job.items, env.undoPush);
  }

  lemma UndoAllIsExact(w: World, job: Job, env: Env, cause: Exit)
    requires Fits(w, job)
    ensures
      var (after, e) := UndoAll(World(Rewritten(w, job), Rebased(w, job)), job, env, cause);
      && after.edges == (if env.undoBase.Lost? then Rebased(w, job) else w.edges)
      && after.refs == (if env.undoBase.Fine? && env.undoPush.lands then w.refs else Rewritten(w, job))
      && e == if !env.undoBase.Fine? then MembershipRollbackIndeterminate
              else if Confirmed(job.items, env.undoPush) then cause
              else PhysicalRollbackIndeterminate
  {
    RootIsRewritten(w, job);
    UndoIsExact(w.refs, job.items, env.undoPush);
    assert Rebased(w, job)[job.items[0].pr := Edge(job.items[0].branch, job.oldBase)] == w.edges;
  }

  /** Exit and end state of one transaction are these. */
  ghost predicate Ends(w: World, job: Job, env: Env, after: World, e: Exit)
    requires Fits(w, job)
  {
    && Causes(job, env, e)
    && after.refs == (if HeadsEndNew(job, env) then Rewritten(w, job) else w.refs)
    && after.edges == (if EdgeEndsNew(job, env) then Rebased(w, job) else w.edges)
  }

  lemma RootIsExpected(w: World, job: Job, base: string)
    requires Fits(w, job)
    ensures Expected(World(Rewritten(w, job), w.edges), job.items[0].pr, job.items[0].newOid, base) <==> base == job.oldBase
  {
    RootIsRewritten(w, job);
  }

  lemma ReachedEnds(w: World, job: Job, env: Env)
    requires Fits(w, job) && Reached(job, env)
    requires !env.push.lands ==> Rewritten(w, job) == w.refs
    ensures
      var (after, e) := Commit(World(Rewritten(w, job), w.edges), job, env);
      Ends(w, job, env, after, e)
  {
    RootIsExpected(w, job, job.oldBase);
    UndoAllIsExact(w, job, env, FinalUnreadable);
    UndoAllIsExact(w, job, env, TopologyUnexpected);
  }

  lemma UnreachedEnds(w: World, job: Job, env: Env)
    requires Fits(w, job) && Seen(job, env) && !Reached(job, env)
    requires !env.push.lands ==> Rewritten(w, job) == w.refs
    ensures
      var (after, e) := Commit(World(Rewritten(w, job), w.edges), job, env);
      Ends(w, job, env, after, e)
  {
    var w1 := World(Rewritten(w, job), w.edges);
    var root := job.items[0];
    var base := env.reread.value[root.pr].base;
    RootIsExpected(w, job, base);
    UndoHeadsIsExact(w, job, env, CommitFailed, SetBase(w1, root.pr, root.newOid, base, job.newBase, env.commit).edges);
  }

  lemma PushedEnds(w: World, job: Job, env: Env)
    requires Fits(w, job) && Pushed(job, env)
    ensures Ends(w, job, env, Transaction(w, job, env).0, Transaction(w, job, env).1)
  {
    PushIsExact(w.refs, job.items, env.push);
    if !Changes(job.items) {
      UnchangedMoves(w.refs, job.items, true);
    }
    if !Exposed(job, env.reread) {
      UndoHeadsIsExact(w, job, env, RediscoveryFailed, w.edges);
    } else if Reached(job, env) {
      ReachedEnds(w, job, env);
    } else {
      UnreachedEnds(w, job, env);
    }
  }

  lemma UnpushedEnds(w: World, job: Job, env: Env)
    requires Fits(w, job) && !Pushed(job, env)
    ensures Ends(w, job, env, Transaction(w, job, env).0, Transaction(w, job, env).1)
  {
    PushIsExact(w.refs, job.items, env.push);
  }

  /**
   The exit and the end state are exact functions of what the environment did, whatever
   the world: each exit has one cause, and exactly one exit has its cause.
   */
  lemma ExitIsExact(w: World, job: Job, env: Env, e: Exit)
    requires Fits(w, job)
    ensures Transaction(w, job, env).1 == e <==> Causes(job, env, e)
    ensures Ends(w, job, env, Transaction(w, job, env).0, Transaction(w, job, env).1)
  {
    if Pushed(job, env) {
      PushedEnds(w, job, env);
    } else {
      UnpushedEnds(w, job, env);
    }
    if Causes(job, env, e) {
      OneCause(job, env, Transaction(w, job, env).1, e);
    }
  }

  lemma OneCause(job: Job, env: Env, a: Exit, b: Exit)
    requires job.items != [] && Causes(job, env, a) && Causes(job, env, b)
    ensures a == b
  {
  }

  lemma TheNewDiffers(w: World, job: Job)
    requires Fits(w, job)
    ensures Changes(job.items) ==> Rewritten(w, job) != w.refs
    ensures job.oldBase != job.newBase ==> Rebased(w, job) != w.edges
  {
    if Changes(job.items) {
      MovedIsExact(w.refs, job.items, true);
      var i :| 0 <= i < |job.items| && job.items[i].oldOid != job.items[i].newOid;
      assert Rewritten(w, job)[job.items[i].branch] == job.items[i].newOid;
    }
    assert Rebased(w, job)[job.items[0].pr].base == job.newBase;
  }

  /** A failure that claims nothing was changed is right exactly unless the base edit was late. */
  lemma UnchangedClaimIsRightUnlessTheCommitWasLate(w: World, job: Job, env: Env)
    requires Fits(w, job) && job.oldBase != job.newBase
    requires Transaction(w, job, env).1.ClaimsUnchanged()
    ensures Transaction(w, job, env).0 == w <==> !LateCommit(job, env)
  {
    EveryExitIsOldOrNew(w, job, env);
    ExitIsExact(w, job, env, Transaction(w, job, env).1);
    TheNewDiffers(w, job);
  }

  /** Which exits make that claim: all but success, the push in doubt and the three named errors. */
  lemma WhichExitsClaimNoChange(e: Exit)
    ensures e.ClaimsUnchanged() <==> !e.Complete? && !e.PushIndeterminate? && !IsNamedIndeterminate(e)
  {
  }

  /** The three errors that concatenation itself calls indeterminate. */
  predicate IsNamedIndeterminate(e: Exit) {
    e in {RollbackIndeterminate, MembershipRollbackIndeterminate, PhysicalRollbackIndeterminate}
  }

  /** The push landed, its reply was lost, and nobody could look. */
  predicate PushLeftUnknown(env: Env) {
    env.verified && env.push.lands && !env.push.reported && !env.push.inspected
  }

  /**
   Apart from the three named errors, the provider is left wholly in the old or wholly in
   the new topology exactly unless the push landed unseen, or the base edit was late.
   */
  lemma WhollyOldOrNewUnlessUnseenOrLate(w: World, job: Job, env: Env)
    requires Fits(w, job) && Changes(job.items) && job.oldBase != job.newBase
    requires !IsNamedIndeterminate(Transaction(w, job, env).1)
    ensures
      var after := Transaction(w, job, env).0;
      after == w || after == World(Rewritten(w, job), Rebased(w, job)) <==> !PushLeftUnknown(env) && !LateCommit(job, env)
  {
    ExitIsExact(w, job, env, Transaction(w, job, env).1);
    TheNewDiffers(w, job);
  }

  /** A push that landed unseen: the branch is rewritten, the edge is old, and the error is none of the three. */
  lemma UnseenPushIsAFourthIndeterminateExit(w: World, env: Env)
    requires w == World(map["t" := "1", "s" := "2"], map[1 := Edge("t", "d"), 2 := Edge("s", "d")])
    requires env == Env(true, PushWeather(true, false, false), None, Fine, None, Fine, PushWeather(true, true, true))
    ensures
      var job := Job([Item(2, "s", "2", "3")], "d", "t", [1, 2]);
      var (after, e) := Transaction(w, job, env);
      && Fits(w, job)
      && e == PushIndeterminate && !IsNamedIndeterminate(e)
      && after.refs["s"] == "3" && after.edges == w.edges
  {
    var job := Job([Item(2, "s", "2", "3")], "d", "t", [1, 2]);
    assert job.items[0].oldOid != job.items[0].newOid && Changes(job.items);
    ExitIsExact(w, job, env, PushIndeterminate);
    RootIsRewritten(w, job);
  }

  /** A base edit that takes effect but cannot be read back is reported as undone, and is not. */
  lemma LateCommitIsReportedAsUnchanged(w: World, env: Env)
    requires w == World(map["t" := "1", "s" := "2"], map[1 := Edge("t", "d"), 2 := Edge("s", "d")])
    requires env == Env(true, PushWeather(true, true, true), Some(map[2 := Member("s", "3", "d")]), Late, None, Fine,
                        PushWeather(true, true, true))
    ensures
      var job := Job([Item(2, "s", "2", "3")], "d", "t", [1, 2]);
      var (after, e) := Transaction(w, job, env);
      && Fits(w, job)
      && e == CommitFailed && e.ClaimsUnchanged()
      && after.refs == w.refs && after.edges[2] == Edge("s", "t")
  {
    var job := Job([Item(2, "s", "2", "3")], "d", "t", [1, 2]);
    assert Fits(w, job);
    assert job.items[0].oldOid != job.items[0].newOid && Changes(job.items);
    assert Leased(w.refs, job.items, true);
    MovedIsExact(w.refs, job.items, true);
    MovedBack(w.refs, job.items);
    var moved := Moved(w.refs, job.items, true);
    assert AllAt(moved, job.items, false);
    assert Leased(moved, job.items, false);
    assert Exposed(job, env.reread);
    assert Expected(World(moved, w.edges), 2, "3", "d");
  }

  /** With every reply good, the transaction completes. */
  lemma GoodWeatherCompletes(w: World, job: Job, env: Env)
    requires Fits(w, job) && env.verified && env.push.lands && env.push.reported && env.commit.Fine?
    requires Exposed(job, env.reread) && env.reread.value[job.items[0].pr].base == job.oldBase
    requires env.finally.Some? && job.ordering in env.finally.value
    ensures Transaction(w, job, env).1 == Complete
  {
    PushIsAllOrNothing(w.refs, job.items, env.push);
    RootIsRewritten(w, job);
  }

  // ----- leases, in any world -----

  /** Every rewritten head was read back at its new commit. */
  lemma ExposedIs(job: Job, reread: Option<map<Pr, Member>>)
    ensures Exposed(job, reread) <==>
      reread.Some? && forall item :: item in job.items ==> item.pr in reread.value && reread.value[item.pr].oid == item.newOid
  {
  }

  /** The branch stands at neither commit of its item, or is gone: somebody else wrote it. */
  predicate IsForeign(refs: map<string, string>, item: Item) {
    item.branch !in refs || (refs[item.branch] != item.oldOid && refs[item.branch] != item.newOid)
  }

  /** A branch with a commit of somebody else stops everything, and the caller is told that the push is in doubt. */
  lemma ForeignCommitsStopEverything(w: World, job: Job, env: Env, i: nat)
    requires i < |job.items| && job.items[i].oldOid != job.items[i].newOid && IsForeign(w.refs, job.items[i])
    ensures Transaction(w, job, env) == (w, if env.verified then PushIndeterminate else PreparedInvalid)
  {
    assert !AllAt(w.refs, job.items, true) && !AllAt(w.refs, job.items, false);
    assert !Leased(w.refs, job.items, true);
  }

  lemma {:induction false} TipsAreOfTheirItem(items: seq<Item>, branch: string, current: string, forward: bool)
    ensures TipOf(items, branch, current, forward) == current
         || exists i :: 0 <= i < |items| && items[i].branch == branch && items[i].oldOid != items[i].newOid
              && TipOf(items, branch, current, forward) == From(items[i], !forward)
  {
    if items != [] {
      TipsAreOfTheirItem(items[1..], branch, current, forward);
      if !(items[0].branch == branch && items[0].oldOid != items[0].newOid) && TipOf(items, branch, current, forward) != current {
        var i :| 0 <= i < |items[1..]| && items[1..][i].branch == branch && items[1..][i].oldOid != items[1..][i].newOid
          && TipOf(items[1..], branch, current, forward) == From(items[1..][i], !forward);
        assert items[i + 1] == items[1..][i];
      }
    }
  }

  /** A push moves a branch only from the one commit of an item to its other commit. */
  ghost predicate MovesOnlyItems(before: map<string, string>, after: map<string, string>, items: seq<Item>) {
    && after.Keys == before.Keys
    && forall b :: b in before && after[b] != before[b] ==> exists i :: 0 <= i < |items| && IsMoved(before, after, items[i], b)
  }

  predicate IsMoved(before: map<string, string>, after: map<string, string>, item: Item, b: string) {
    && b in before && b in after && item.branch == b
    && ((before[b] == item.oldOid && after[b] == item.newOid) || (before[b] == item.newOid && after[b] == item.oldOid))
  }

  lemma PushesAreLeased(refs: map<string, string>, items: seq<Item>, forward: bool, weather: PushWeather)
    ensures MovesOnlyItems(refs, PushRefs(refs, items, forward, weather), items)
    ensures PushRefs(refs, items, forward, weather) != refs ==> weather.lands
    ensures PushRefs(refs, items, forward, weather) != refs ==>
      forall item :: item in items && item.oldOid != item.newOid ==>
        item.branch in refs && refs[item.branch] == if forward then item.oldOid else item.newOid
  {
    var after := PushRefs(refs, items, forward, weather);
    forall b | b in refs && after[b] != refs[b]
      ensures exists i :: 0 <= i < |items| && IsMoved(refs, after, items[i], b)
    {
      TipsAreOfTheirItem(items, b, refs[b], forward);
      var i :| 0 <= i < |items| && items[i].branch == b && items[i].oldOid != items[i].newOid && after[b] == From(items[i], !forward);
      assert IsMoved(refs, after, items[i], b);
    }
  }

  /** What is told to a base edit holds when it is made: the base, and the commit of the branch. */
  lemma BaseEditsAreLeased(w: World, pr: Pr, oid: string, base: string, to: string, fault: Fault)
    ensures
      var after := SetBase(w, pr, oid, base, to, fault);
      after != w ==>
        && pr in w.edges && w.edges[pr].base == base
        && w.edges[pr].head in w.refs && w.refs[w.edges[pr].head] == oid && !fault.Lost?
        && after == World(w.refs, w.edges[pr := Edge(w.edges[pr].head, to)])
  {
  }

  /** Only the base of the root may differ, and only between the old and the new one, if its old one was read. */
  ghost predicate EditsOnlyTheRoot(w: World, job: Job, env: Env, after: World)
    requires job.items != []
  {
    var root := job.items[0].pr;
    after.edges != w.edges ==>
      && root in w.edges && env.reread.Some? && root in env.reread.value && w.edges[root].base == env.reread.value[root].base
      && (after.edges == w.edges[root := Edge(w.edges[root].head, job.newBase)]
          || after.edges == w.edges[root := Edge(w.edges[root].head, job.oldBase)])
  }

  /** Whatever the world is like before: other branches and other edges stay as they are. */
  lemma NothingElseIsTouched(w: World, job: Job, env: Env)
    requires job.items != [] && Distinct(job.items)
    ensures
      var after := Transaction(w, job, env).0;
      MovesOnlyItems(w.refs, after.refs, job.items) && EditsOnlyTheRoot(w, job, env, after)
  {
    var pushed := PushRefs(w.refs, job.items, true, env.push);
    PushesAreLeased(w.refs, job.items, true, env.push);
    NothingMoved(w.refs, job.items);
    ThereAndBack(w.refs, pushed, PushRefs(pushed, job.items, false, env.undoPush), job.items, env.push, env.undoPush);
    EditsOfTheRoot(w, World(pushed, w.edges), job, env);
    RefsAtTheEnd(w, job, env);
  }

  lemma NothingMoved(refs: map<string, string>, items: seq<Item>)
    ensures MovesOnlyItems(refs, refs, items)
  {
  }

  lemma RefsAtTheEnd(w: World, job: Job, env: Env)
    requires job.items != []
    ensures
      var pushed := PushRefs(w.refs, job.items, true, env.push);
      var after := Transaction(w, job, env).0;
      && after.refs in {w.refs, pushed, PushRefs(pushed, job.items, false, env.undoPush)}
      && (after.edges == w.edges || (Exposed(job, env.reread) && after.edges == Commit(World(pushed, w.edges), job, env).0.edges))
  {
  }

  /** The push and its undoing together still move a branch only between the commits of one item. */
  lemma ThereAndBack(refs: map<string, string>, pushed: map<string, string>, undone: map<string, string>, items: seq<Item>,
                     push: PushWeather, undo: PushWeather)
    requires Distinct(items) && pushed == PushRefs(refs, items, true, push) && undone == PushRefs(pushed, items, false, undo)
    ensures MovesOnlyItems(refs, undone, items)
  {
    PushesAreLeased(refs, items, true, push);
    PushesAreLeased(pushed, items, false, undo);
    forall b | b in refs && undone[b] != refs[b]
      ensures exists i :: 0 <= i < |items| && IsMoved(refs, undone, items[i], b)
    {
      if pushed[b] == refs[b] {
        var i :| 0 <= i < |items| && IsMoved(pushed, undone, items[i], b);
        assert IsMoved(refs, undone, items[i], b);
      } else if undone[b] == pushed[b] {
        var i :| 0 <= i < |items| && IsMoved(refs, pushed, items[i], b);
        assert IsMoved(refs, undone, items[i], b);
      } else {
        var i :| 0 <= i < |items| && IsMoved(refs, pushed, items[i], b);
        var j :| 0 <= j < |items| && IsMoved(pushed, undone, items[j], b);
        assert i == j;
        assert IsMoved(refs, undone, items[i], b);
      }
    }
  }

  lemma EditsOfTheRoot(w: World, pushed: World, job: Job, env: Env)
    requires job.items != [] && pushed.edges == w.edges
    ensures Exposed(job, env.reread) ==> EditsOnlyTheRoot(w, job, env, Commit(pushed, job, env).0)
  {
  }

  // ----- the caravans after any exit -----

  lemma NamesOf(w: World, w2: World)
    requires w2.edges == w.edges
    ensures SameNames(FleetOf(w), FleetOf(w2))
  {
  }

  lemma NamesOfRebased(w: World, w2: World, pr: Pr, base: string)
    requires pr in w.edges && w2.edges == w.edges[pr := w.edges[pr].(base := base)]
    ensures SameNames(Retarget(FleetOf(w), pr, base), FleetOf(w2))
  {
  }

  lemma SplicedByNames(f: Fleet, g: Fleet, h: Fleet, d: string, target: seq<Pr>, source: seq<Pr>, root: Pr)
    requires Spliced(f, g, d, target, source, root) && SameNames(g, h)
    ensures Spliced(f, h, d, target, source, root)
  {
    SameNamesSameCaravans(g, h, d);
    forall c
      ensures IsSpliced(f, h, d, target, source, root, c)
    {
      assert IsSpliced(f, g, d, target, source, root, c);
    }
  }

  ghost predicate SameCaravans(f: Fleet, g: Fleet, d: string) {
    g.Keys == f.Keys && forall c :: IsCaravan(f, d, c) <==> IsCaravan(g, d, c)
  }

  /** The job puts the source caravan behind the target caravan of this world. */
  ghost predicate JobJoins(w: World, d: string, job: Job, target: seq<Pr>, source: seq<Pr>) {
    && Fits(w, job)
    && Paired(FleetOf(w), d, target, source) && AllInCaravans(FleetOf(w), d)
    && job.items[0].pr == source[0] && job.newBase == FleetOf(w)[target[|target| - 1]].head
    && job.ordering == target + source
  }

  lemma CaravansOfEdges(w: World, after: World, d: string, job: Job, target: seq<Pr>, source: seq<Pr>)
    requires JobJoins(w, d, job, target, source)
    ensures after.edges == w.edges ==> SameCaravans(FleetOf(w), FleetOf(after), d)
    ensures after.edges == Rebased(w, job) && job.newBase != d ==>
      Spliced(FleetOf(w), FleetOf(after), d, target, source, source[0])
  {
    if after.edges == w.edges {
      NamesOf(w, after);
      SameNamesSameCaravans(FleetOf(w), FleetOf(after), d);
    }
    if after.edges == Rebased(w, job) && job.newBase != d {
      NamesOfRebased(w, after, source[0], job.newBase);
      ChainSurgery(FleetOf(w), d, target, source);
      SplicedByNames(FleetOf(w), Joined(FleetOf(w), target, source), FleetOf(after), d, target, source, source[0]);
    }
  }

  lemma NothingToRebase(w: World, d: string, job: Job, target: seq<Pr>, source: seq<Pr>)
    requires JobJoins(w, d, job, target, source) && job.newBase == d
    ensures Rebased(w, job) == w.edges
  {
    assert IsRoot(FleetOf(w), d, source[0]);
  }

  /**
   At every exit the fleet has its old caravans, or those with the two joined: never a
   part of a chain. Success means joined, if the target tail is not the default branch.
   */
  lemma EveryExitHasWholeCaravans(w: World, d: string, job: Job, env: Env, target: seq<Pr>, source: seq<Pr>)
    requires JobJoins(w, d, job, target, source)
    ensures
      var (after, e) := Transaction(w, job, env);
      && (SameCaravans(FleetOf(w), FleetOf(after), d) || Spliced(FleetOf(w), FleetOf(after), d, target, source, source[0]))
      && (e == Complete && job.newBase != d ==> Spliced(FleetOf(w), FleetOf(after), d, target, source, source[0]))
  {
    var (after, e) := Transaction(w, job, env);
    EveryExitIsOldOrNew(w, job, env);
    CaravansOfEdges(w, after, d, job, target, source);
    if job.newBase == d {
      NothingToRebase(w, d, job, target, source);
    }
  }

  /** Every branch that a member names is still there, whatever the exit. */
  lemma TransactionKeepsRefs(w: World, job: Job, env: Env)
    requires Fits(w, job) && RefsKnown(w)
    ensures RefsKnown(Transaction(w, job, env).0)
  {
    EveryExitIsOldOrNew(w, job, env);
    MovedIsExact(w.refs, job.items, true);
  }

  // ----- from the plan to the job -----

  function ItemOf(m: MemberPlan, rewrites: map<Pr, string>): Item
    requires m.pr in rewrites
  {
    Item(m.pr, m.branch, m.oldHead, rewrites[m.pr])
  }

  function JobOf(p: Plan, rewrites: map<Pr, string>): (j: Job)
    requires p.members != [] && forall i :: 0 <= i < |p.members| ==> p.members[i].pr in rewrites
    ensures |j.items| == |p.members|
  {
    Job(seq(|p.members|, i requires 0 <= i < |p.members| => ItemOf(p.members[i], rewrites)),
        p.members[0].oldBase, p.members[0].targetBranch, p.newOrdering)
  }

  predicate AllRewritten(p: Plan, rewrites: map<Pr, string>) {
    p.members != [] && forall i :: 0 <= i < |p.members| ==> p.members[i].pr in rewrites
  }

  predicate RefsKnown(w: World) {
    forall p :: p in w.edges ==> w.edges[p].head in w.refs
  }

  ghost predicate PlansMembers(f: Fleet, p: Plan) {
    && |p.members| == |p.sourceMembers|
    && forall i :: 0 <= i < |p.members| ==>
      && p.sourceMembers[i] in f && p.members[i].pr == p.sourceMembers[i]
      && p.members[i].branch == f[p.sourceMembers[i]].head && p.members[i].oldHead == f[p.sourceMembers[i]].oid
  }

  lemma PlanNamesEveryMember(s: Status, f: Fleet, d: string, input: Input, p: Plan)
    requires ShowsFacts(s, f) && IsPlan(s, input, p) && IsPath(f, d, p.sourceMembers)
    ensures PlansMembers(f, p)
  {
    forall i | 0 <= i < |p.members|
      ensures p.sourceMembers[i] in f && p.members[i].pr == p.sourceMembers[i]
      ensures p.members[i].branch == f[p.sourceMembers[i]].head && p.members[i].oldHead == f[p.sourceMembers[i]].oid
    {
      PathMember(f, d, p.sourceMembers, i);
      assert p.members[i] == PlanOf(s, p.sourceMembers[i], Predecessor(p.sourceMembers, input.targetTail, i));
    }
  }

  lemma PlannedBranchesDiffer(f: Fleet, d: string, p: Plan, i: nat, j: nat)
    requires UniqueHeads(f) && IsCaravan(f, d, p.sourceMembers) && PlansMembers(f, p) && i < j < |p.members|
    ensures p.members[i].branch != p.members[j].branch
  {
    if p.members[i].branch == p.members[j].branch {
      CaravanMembersAreDistinct(f, d, p.sourceMembers, i, j);
      assert false;
    }
  }

  lemma PlannedJobFits(w: World, d: string, input: Input, p: Plan, rewrites: map<Pr, string>)
    requires RefsKnown(w) && AllRewritten(p, rewrites)
    requires Joins(FleetOf(w), d, input, p) && PlansMembers(FleetOf(w), p)
    ensures JobJoins(w, d, JobOf(p, rewrites), p.targetMembers, p.sourceMembers)
    ensures |JobOf(p, rewrites).items| == |p.sourceMembers|
    ensures forall i :: 0 <= i < |p.sourceMembers| ==>
      var (item, pr) := (JobOf(p, rewrites).items[i], p.sourceMembers[i]);
      && item.pr == pr && pr in w.edges && item.branch == w.edges[pr].head
      && pr in rewrites && item.newOid == rewrites[pr]
  {
    var job := JobOf(p, rewrites);
    forall i, j | 0 <= i < j < |job.items|
      ensures job.items[i].branch != job.items[j].branch
    {
      PlannedBranchesDiffer(FleetOf(w), d, p, i, j);
    }
    forall i | 0 <= i < |job.items|
      ensures job.items[i].branch in w.refs && w.refs[job.items[i].branch] == job.items[i].oldOid
    {
      assert p.members[i].pr in w.edges;
    }
  }
}
