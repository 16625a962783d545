/**
 Arming and revoking force intent (src/force.rs, src/github.rs): one label write, then
 one audit comment, resumable after a failure at any provider step. A reply may be lost,
 a write may take effect and still fail, and the status that was read may be stale.
 */
module Force {
  import opened Common

  const FORCE := "caravan-force"
  const CARAVAN := "caravan"
  const EVICTED := "caravan-evicted"

  datatype Operation = Arm | Revoke

  /** An audit comment. The hexadecimal fingerprint of the marker is injective in the control labels. */
  datatype Audit = Audit(
    operation: Operation,
    head: string,
    before: set<string>,
    after: set<string>,
    afterLabels: set<string>)

  datatype Comment = Plain | Audited(audit: Audit)

  datatype Write = LabelWrite | CommentWrite

  /** The pull request as the provider holds it, with the writes that took effect. */
  datatype Pull = Pull(head: string, labels: set<string>, comments: seq<Comment>, writes: seq<Write>)

  /** What one execution reads before its first write, in the order of the refusals. */
  datatype Preflight = Preflight(
    ready: bool,
    forceMerge: bool,
    found: bool,
    eligible: bool,
    member: bool,
    graphValid: bool,
    held: bool,
    clean: bool,
    branchHead: bool,
    permission: Option<string>)

  datatype Env = Env(preflight: Preflight, head: string, labels: set<string>, labelFault: Fault, commentFault: Fault)

  datatype Refusal =
    | NotReady | PolicyDisabled | NotFound | Ineligible | NotActiveMember | GraphInvalid | CaravanHeld
    | NotClean | BranchHeadUnproven | PermissionUnread | PermissionDenied

  datatype Reply =
    | Refused(refusal: Refusal)
    | Failed(mutated: bool)
    | Done(mutated: bool, before: set<string>, after: set<string>, intentPresent: bool)

  /** The first refusal, before any write. */
  function Gate(op: Operation, p: Preflight, labels: set<string>): Option<Refusal> {
    if !p.ready then Some(NotReady)
    else if op.Arm? && !p.forceMerge then Some(PolicyDisabled)
    else if !p.found then Some(NotFound)
    else if !p.eligible || CARAVAN !in labels || EVICTED in labels then Some(Ineligible)
    else if !p.member then Some(NotActiveMember)
    else if !p.graphValid then Some(GraphInvalid)
    else if p.held then Some(CaravanHeld)
    else if !p.clean then Some(NotClean)
    else if !p.branchHead then Some(BranchHeadUnproven)
    else if p.permission.None? then Some(PermissionUnread)
    else if p.permission.value != "ADMIN" then Some(PermissionDenied)
    else None
  }

  // ----- transitions -----

  function TransitionBefore(labels: set<string>, op: Operation): set<string> {
    match op
    case Arm => labels - {FORCE}
    case Revoke => labels + {FORCE}
  }

  function TransitionAfter(labels: set<string>, op: Operation): set<string> {
    match op
    case Arm => labels + {FORCE}
    case Revoke => labels - {FORCE}
  }

  predicate IsControl(name: string) {
    || name in {CARAVAN, EVICTED, FORCE, "caravan-join-skipped"}
    || "caravan-priority:" <= name
  }

  function Controls(labels: set<string>): set<string> {
    set l | l in labels && IsControl(l)
  }

  function AuditOf(op: Operation, head: string, labels: set<string>): Audit {
    Audit(op, head, Controls(TransitionBefore(labels, op)), Controls(TransitionAfter(labels, op)), TransitionAfter(labels, op))
  }

  /** The wish of the operation is met. */
  predicate Met(labels: set<string>, op: Operation) {
    match op
    case Arm => FORCE in labels
    case Revoke => FORCE !in labels
  }

  /** A comment shows this transition: the same marker, or the same operation and head with the same labels after it. */
  predicate Shows(c: Comment, a: Audit) {
    && c.Audited? && c.audit.operation == a.operation && c.audit.head == a.head
    && ((c.audit.before == a.before && c.audit.after == a.after) || c.audit.afterLabels == a.afterLabels)
  }

  /** The latest audit comment, whatever it is about, decides. */
  predicate LatestShows(comments: seq<Comment>, a: Audit) {
    if comments == [] then false
    else if comments[|comments| - 1].Audited? then Shows(comments[|comments| - 1], a)
    else LatestShows(comments[..|comments| - 1], a)
  }

  // ----- provider operations -----

  predicate Unchanged(p: Pull, head: string, labels: set<string>) {
    p.head == head && p.labels == labels
  }

  /** Add or remove the label under the observed head and labels. */
  function WriteLabel(p: Pull, op: Operation, e: Env): Pull {
    if Unchanged(p, e.head, e.labels) && !e.labelFault.Lost?
    then p.(labels := TransitionAfter(p.labels, op), writes := p.writes + [LabelWrite])
    else p
  }

  predicate LabelWritten(p: Pull, e: Env) {
    Unchanged(p, e.head, e.labels) && e.labelFault.Fine?
  }

  /** Post the audit unless the latest audit comment shows it already. */
  function PostAudit(p: Pull, labels: set<string>, a: Audit, e: Env): Pull {
    if Unchanged(p, e.head, labels) && !LatestShows(p.comments, a) && !e.commentFault.Lost?
    then p.(comments := p.comments + [Audited(a)], writes := p.writes + [CommentWrite])
    else p
  }

  predicate AuditEnsured(p: Pull, labels: set<string>, e: Env) {
    Unchanged(p, e.head, labels) && e.commentFault.Fine?
  }

  /** One execution of the command. */
  function Attempt(p: Pull, op: Operation, e: Env): (Pull, Reply) {
    var refusal := Gate(op, e.preflight, e.labels);
    if refusal.Some? then (p, Refused(refusal.value))
    else if Met(e.labels, op) then EnsureAudit(p, op, e, e.labels, false)
    else if LabelWritten(p, e) then
      var q := WriteLabel(p, op, e);
      EnsureAudit(q, op, e, q.labels, true)
    else (WriteLabel(p, op, e), Failed(false))
  }

  function EnsureAudit(p: Pull, op: Operation, e: Env, labels: set<string>, wrote: bool): (Pull, Reply) {
    var a := AuditOf(op, e.head, e.labels);
    var q := PostAudit(p, labels, a, e);
    if !AuditEnsured(p, labels, e) then (q, Failed(wrote))
    else (q, Done(wrote || !LatestShows(p.comments, a), e.labels, q.labels, FORCE in q.labels))
  }

  // ----- authority -----

  /** A whole preflight, ADMIN permission, and the labels of an active member that is not evicted. */
  predicate HasAuthority(op: Operation, e: Env) {
    var f := e.preflight;
    && f.ready && f.found && f.eligible && f.member && f.graphValid && !f.held && f.clean && f.branchHead
    && f.permission == Some("ADMIN") && (op.Arm? ==> f.forceMerge)
    && CARAVAN in e.labels && EVICTED !in e.labels
  }

  /** An execution is refused exactly when it lacks authority. */
  lemma RefusedIffNoAuthority(p: Pull, op: Operation, e: Env)
    ensures Attempt(p, op, e).1.Refused? <==> !HasAuthority(op, e)
  {
  }

  /** What each refusal is about. */
  predicate Lacks(op: Operation, e: Env, refusal: Refusal) {
    var f := e.preflight;
    match refusal
    case NotReady => !f.ready
    case PolicyDisabled => op.Arm? && !f.forceMerge
    case NotFound => !f.found
    case Ineligible => !f.eligible || CARAVAN !in e.labels || EVICTED in e.labels
    case NotActiveMember => !f.member
    case GraphInvalid => !f.graphValid
    case CaravanHeld => f.held
    case NotClean => !f.clean
    case BranchHeadUnproven => !f.branchHead
    case PermissionUnread => f.permission.None?
    case PermissionDenied => f.permission.Some? && f.permission.value != "ADMIN"
  }

  const REFUSALS := [
    NotReady, PolicyDisabled, NotFound, Ineligible, NotActiveMember, GraphInvalid, CaravanHeld, NotClean,
    BranchHeadUnproven, PermissionUnread, PermissionDenied]

  /** The reply names the first thing that is lacking, in the order of the list. */
  lemma TheFirstLackIsNamed(p: Pull, op: Operation, e: Env, k: nat)
    requires k < |REFUSALS|
    ensures Attempt(p, op, e).1 == Refused(REFUSALS[k]) <==>
      Lacks(op, e, REFUSALS[k]) && forall j :: 0 <= j < k ==> !Lacks(op, e, REFUSALS[j])
    ensures !HasAuthority(op, e) <==> exists j :: 0 <= j < |REFUSALS| && Lacks(op, e, REFUSALS[j])
  {
    AuthorityLacksNothing(op, e);
    FirstLack(op, e, k);
  }

  lemma AuthorityLacksNothing(op: Operation, e: Env)
    ensures !HasAuthority(op, e) <==> exists j :: 0 <= j < |REFUSALS| && Lacks(op, e, REFUSALS[j])
  {
    if !HasAuthority(op, e) {
      var refusal := Gate(op, e.preflight, e.labels).value;
      var all := REFUSALS;
      assert refusal in {all[0], all[1], all[2], all[3], all[4], all[5], all[6], all[7], all[8], all[9], all[10]};
      var j :| 0 <= j < |REFUSALS| && REFUSALS[j] == refusal;
      assert Lacks(op, e, REFUSALS[j]);
    }
  }

  lemma FirstLack(op: Operation, e: Env, k: nat)
    requires k < |REFUSALS|
    ensures Gate(op, e.preflight, e.labels) == Some(REFUSALS[k]) <==>
      Lacks(op, e, REFUSALS[k]) && forall j :: 0 <= j < k ==> !Lacks(op, e, REFUSALS[j])
  {
    var all := REFUSALS;
    forall j | 0 <= j < k && Gate(op, e.preflight, e.labels) == Some(all[k])
      ensures !Lacks(op, e, all[j])
    {
    }
    if Lacks(op, e, all[k]) && forall j :: 0 <= j < k ==> !Lacks(op, e, all[j]) {
      LackedFirst(op, e, k);
    }
  }

  lemma LackedFirst(op: Operation, e: Env, k: nat)
    requires k < |REFUSALS|
    requires Lacks(op, e, REFUSALS[k]) && forall j :: 0 <= j < k ==> !Lacks(op, e, REFUSALS[j])
    ensures Gate(op, e.preflight, e.labels) == Some(REFUSALS[k])
  {
    assert 0 < k ==> !Lacks(op, e, REFUSALS[0]);
    assert 1 < k ==> !Lacks(op, e, REFUSALS[1]);
    assert 2 < k ==> !Lacks(op, e, REFUSALS[2]);
    assert 3 < k ==> !Lacks(op, e, REFUSALS[3]);
    assert 4 < k ==> !Lacks(op, e, REFUSALS[4]);
    assert 5 < k ==> !Lacks(op, e, REFUSALS[5]);
    assert 6 < k ==> !Lacks(op, e, REFUSALS[6]);
    assert 7 < k ==> !Lacks(op, e, REFUSALS[7]);
    assert 8 < k ==> !Lacks(op, e, REFUSALS[8]);
    assert 9 < k ==> !Lacks(op, e, REFUSALS[9]);
  }

  // ----- runs -----

  /** Between executions other people may comment; nobody else changes the head, the labels or the audits. */
  datatype Event = Try(env: Env) | Chat

  function Run(p: Pull, op: Operation, events: seq<Event>): Pull {
    if events == [] then p
    else
      var q := Run(p, op, events[..|events| - 1]);
      match events[|events| - 1]
      case Chat => q.(comments := q.comments + [Plain])
      case Try(e) => Attempt(q, op, e).0
  }

  function Count(writes: seq<Write>, w: Write): nat {
    if writes == [] then 0
    else Count(writes[..|writes| - 1], w) + if writes[|writes| - 1] == w then 1 else 0
  }

  function Shown(comments: seq<Comment>, a: Audit): nat {
    if comments == [] then 0
    else Shown(comments[..|comments| - 1], a) + if Shows(comments[|comments| - 1], a) then 1 else 0
  }

  function Audits(comments: seq<Comment>): seq<Audit> {
    if comments == [] then []
    else Audits(comments[..|comments| - 1]) + if comments[|comments| - 1].Audited? then [comments[|comments| - 1].audit] else []
  }

  /** The labels before and after any attempt give the same audit, so a rerun looks for the same marker. */
  lemma RerunLooksForTheSameMarker(labels: set<string>, op: Operation, head: string)
    ensures AuditOf(op, head, TransitionAfter(labels, op)) == AuditOf(op, head, labels)
    ensures AuditOf(op, head, TransitionBefore(labels, op)) == AuditOf(op, head, labels)
    ensures Met(TransitionAfter(labels, op), op) && !Met(TransitionBefore(labels, op), op)
  {
    assert TransitionAfter(TransitionAfter(labels, op), op) == TransitionAfter(labels, op);
    assert TransitionBefore(TransitionAfter(labels, op), op) == TransitionBefore(labels, op);
    assert TransitionAfter(TransitionBefore(labels, op), op) == TransitionAfter(labels, op);
    assert TransitionBefore(TransitionBefore(labels, op), op) == TransitionBefore(labels, op);
  }

  /** Comments posted from p to q. */
  function Posted(p: Pull, q: Pull): int {
    Count(q.writes, CommentWrite) - Count(p.writes, CommentWrite)
  }

  function LabelWrites(p: Pull, q: Pull): int {
    Count(q.writes, LabelWrite) - Count(p.writes, LabelWrite)
  }

  lemma CountMore(writes: seq<Write>, w: Write, x: Write)
    ensures Count(writes + [w], x) == Count(writes, x) + if w == x then 1 else 0
  {
    assert (writes + [w])[..|writes|] == writes;
  }

  lemma OneMoreComment(comments: seq<Comment>, c: Comment, a: Audit)
    ensures Shown(comments + [c], a) == Shown(comments, a) + if Shows(c, a) then 1 else 0
    ensures Audits(comments + [c]) == Audits(comments) + if c.Audited? then [c.audit] else []
    ensures LatestShows(comments + [c], a) == if c.Audited? then Shows(c, a) else LatestShows(comments, a)
  {
    assert (comments + [c])[..|comments|] == comments;
  }

  /** The label part: at most one effective write, which is the one the operation asks for. */
  ghost predicate LabelProgress(p: Pull, op: Operation, q: Pull) {
    && q.head == p.head
    && q.labels in {p.labels, TransitionAfter(p.labels, op)}
    && LabelWrites(p, q) == if q.labels == p.labels then 0 else 1
  }

  /** The comment part: at most one post, of the one audit of this transition, and only if the latest audit was another. */
  ghost predicate CommentProgress(p: Pull, a: Audit, q: Pull) {
    && Audits(q.comments) == Audits(p.comments) + (if Posted(p, q) == 1 then [a] else [])
    && Shown(q.comments, a) == Shown(p.comments, a) + Posted(p, q)
    && LatestShows(q.comments, a) == (LatestShows(p.comments, a) || Posted(p, q) == 1)
    && Posted(p, q) in {0, 1}
    && (LatestShows(p.comments, a) ==> Posted(p, q) == 0)
  }

  ghost predicate Progress(p: Pull, op: Operation, q: Pull) {
    LabelProgress(p, op, q) && CommentProgress(p, AuditOf(op, p.head, p.labels), q)
  }

  lemma ProgressKeepsTheAudit(p: Pull, op: Operation, q: Pull)
    requires LabelProgress(p, op, q)
    ensures AuditOf(op, q.head, q.labels) == AuditOf(op, p.head, p.labels)
    ensures Met(p.labels, op) ==> q.labels == p.labels
    ensures q.labels != p.labels ==> Met(q.labels, op)
  {
    RerunLooksForTheSameMarker(p.labels, op, p.head);
    if Met(p.labels, op) {
      assert TransitionAfter(p.labels, op) == p.labels;
    }
  }

  /** One effective label write, from labels that do not meet the wish. */
  lemma OneLabelWrite(p: Pull, op: Operation, q: Pull)
    requires LabelProgress(p, op, q) && !Met(q.labels, op)
    ensures LabelProgress(p, op, q.(labels := TransitionAfter(q.labels, op), writes := q.writes + [LabelWrite]))
  {
    ProgressKeepsTheAudit(p, op, q);
    CountMore(q.writes, LabelWrite, LabelWrite);
    RerunLooksForTheSameMarker(p.labels, op, p.head);
  }

  lemma PostAuditProgress(p: Pull, op: Operation, q: Pull, labels: set<string>, a: Audit, e: Env)
    requires Progress(p, op, q) && a == AuditOf(op, p.head, p.labels)
    ensures Progress(p, op, PostAudit(q, labels, a, e))
    ensures PostAudit(q, labels, a, e).labels == q.labels
    ensures AuditEnsured(q, labels, e) ==> LatestShows(PostAudit(q, labels, a, e).comments, a)
  {
    CountMore(q.writes, CommentWrite, LabelWrite);
    CountMore(q.writes, CommentWrite, CommentWrite);
    OneMoreComment(q.comments, Audited(a), a);
  }

  /** The reply tells the truth about this attempt, and success means the wish is met and shown. */
  ghost predicate Truthful(p: Pull, op: Operation, e: Env, after: Pull, r: Reply) {
    var wrote := |after.writes| > |p.writes|;
    match r
    case Refused(_) => after == p
    case Failed(mutated) => (mutated ==> wrote) && (mutated == wrote <==> !LateWrite(p, op, e))
    case Done(mutated, before, labels, intent) =>
      && mutated == wrote
      && before == p.labels && labels == after.labels == TransitionAfter(p.labels, op)
      && intent == (FORCE in after.labels) && Met(after.labels, op)
      && LatestShows(after.comments, AuditOf(op, p.head, p.labels))
  }

  /**
   The exact failures that are reported as unchanged after a write: the label edit took
   effect and failed, or the label was in place already and the comment took effect and
   failed. (After a good label edit the reply says `mutated` anyway.)
   */
  predicate LateWrite(p: Pull, op: Operation, e: Env) {
    && Unchanged(p, e.head, e.labels)
    && if Met(e.labels, op) then e.commentFault.Late? && !LatestShows(p.comments, AuditOf(op, e.head, e.labels))
       else e.labelFault.Late?
  }

  /** A label edit that takes effect but cannot be read back is reported as no change. */
  lemma LateLabelWriteIsReportedAsUnchanged(p: Pull, e: Env)
    requires p == Pull("1", {CARAVAN}, [], [])
    requires e == Env(Preflight(true, true, true, true, true, true, false, true, true, Some("ADMIN")), "1", {CARAVAN}, Late, Fine)
    ensures
      var (after, r) := Attempt(p, Arm, e);
      r == Failed(false) && LateWrite(p, Arm, e) && after.labels == {CARAVAN, FORCE} && after.writes == [LabelWrite]
  {
    assert FORCE[8] == 'f' && EVICTED[8] == 'e' && |CARAVAN| == 7;
  }

  /** So is the comment of a rerun that finds the label in place. */
  lemma LateCommentIsReportedAsUnchanged(p: Pull, e: Env)
    requires p == Pull("1", {CARAVAN, FORCE}, [], [])
    requires e == Env(Preflight(true, true, true, true, true, true, false, true, true, Some("ADMIN")), "1", {CARAVAN, FORCE}, Fine, Late)
    ensures
      var (after, r) := Attempt(p, Arm, e);
      r == Failed(false) && LateWrite(p, Arm, e) && |after.comments| == 1 && after.writes == [CommentWrite]
  {
    assert FORCE[8] == 'f' && EVICTED[8] == 'e' && |CARAVAN| == 7;
  }

  lemma MetMeansNothingToDo(labels: set<string>, op: Operation)
    requires Met(labels, op)
    ensures TransitionAfter(labels, op) == labels
  {
  }

  lemma RefusalIsTruthful(p: Pull, op: Operation, e: Env)
    requires Gate(op, e.preflight, e.labels).Some?
    ensures Truthful(p, op, e, Attempt(p, op, e).0, Attempt(p, op, e).1)
  {
  }

  lemma RerunIsTruthful(p: Pull, op: Operation, e: Env)
    requires Gate(op, e.preflight, e.labels).None? && Met(e.labels, op)
    ensures Truthful(p, op, e, Attempt(p, op, e).0, Attempt(p, op, e).1)
  {
    var a := AuditOf(op, e.head, e.labels);
    OneMoreAudit(p.comments, a, a);
    MetMeansNothingToDo(e.labels, op);
  }

  lemma TransitionIsTruthful(p: Pull, op: Operation, e: Env)
    requires Gate(op, e.preflight, e.labels).None? && !Met(e.labels, op)
    ensures Truthful(p, op, e, Attempt(p, op, e).0, Attempt(p, op, e).1)
  {
    if LabelWritten(p, e) {
      WrittenTransitionIsTruthful(p, op, e);
    } else {
      TransitionChangesLabels(e.labels, op);
    }
  }

  lemma TransitionChangesLabels(labels: set<string>, op: Operation)
    requires !Met(labels, op)
    ensures Met(TransitionAfter(labels, op), op) && TransitionAfter(labels, op) != labels
  {
  }

  lemma WrittenTransitionIsTruthful(p: Pull, op: Operation, e: Env)
    requires Gate(op, e.preflight, e.labels).None? && !Met(e.labels, op) && LabelWritten(p, e)
    ensures Truthful(p, op, e, Attempt(p, op, e).0, Attempt(p, op, e).1)
  {
    AttemptAfterWrite(p, op, e);
    AuditAfterWriteIsTruthful(p, op, e, WriteLabel(p, op, e));
  }

  lemma AttemptAfterWrite(p: Pull, op: Operation, e: Env)
    requires Gate(op, e.preflight, e.labels).None? && !Met(e.labels, op) && LabelWritten(p, e)
    ensures
      var q := WriteLabel(p, op, e);
      && q == p.(labels := TransitionAfter(p.labels, op), writes := p.writes + [LabelWrite])
      && Attempt(p, op, e) == EnsureAudit(q, op, e, q.labels, true)
  {
  }

  lemma AuditAfterWriteIsTruthful(p: Pull, op: Operation, e: Env, q: Pull)
    requires !Met(e.labels, op) && LabelWritten(p, e)
    requires q == p.(labels := TransitionAfter(p.labels, op), writes := p.writes + [LabelWrite])
    ensures Truthful(p, op, e, EnsureAudit(q, op, e, q.labels, true).0, EnsureAudit(q, op, e, q.labels, true).1)
  {
    var a := AuditOf(op, e.head, e.labels);
    OneMoreAudit(p.comments, a, a);
    TransitionChangesLabels(e.labels, op);
  }

  lemma AttemptIsTruthful(p: Pull, op: Operation, e: Env)
    ensures Truthful(p, op, e, Attempt(p, op, e).0, Attempt(p, op, e).1)
  {
    if Gate(op, e.preflight, e.labels).Some? {
      RefusalIsTruthful(p, op, e);
    } else if Met(e.labels, op) {
      RerunIsTruthful(p, op, e);
    } else {
      TransitionIsTruthful(p, op, e);
    }
  }

  // ----- over all reruns -----

  lemma WriteLabelProgress(p: Pull, op: Operation, q: Pull, e: Env)
    requires Progress(p, op, q) && !Met(e.labels, op)
    ensures Progress(p, op, WriteLabel(q, op, e))
  {
    CountMore(q.writes, LabelWrite, CommentWrite);
    if Unchanged(q, e.head, e.labels) {
      OneLabelWrite(p, op, q);
    }
  }

  lemma EnsureAuditProgress(p: Pull, op: Operation, q: Pull, e: Env, labels: set<string>, wrote: bool)
    requires Progress(p, op, q) && AuditOf(op, e.head, e.labels) == AuditOf(op, p.head, p.labels)
    ensures Progress(p, op, EnsureAudit(q, op, e, labels, wrote).0)
  {
    PostAuditProgress(p, op, q, labels, AuditOf(op, p.head, p.labels), e);
  }

  /** Under a stale status nothing is posted. */
  lemma StaleStatusPostsNothing(q: Pull, op: Operation, e: Env, labels: set<string>, wrote: bool)
    requires !Unchanged(q, e.head, labels)
    ensures EnsureAudit(q, op, e, labels, wrote).0 == q
  {
  }

  lemma RerunProgress(p: Pull, op: Operation, q: Pull, e: Env)
    requires Progress(p, op, q)
    ensures Progress(p, op, EnsureAudit(q, op, e, e.labels, false).0)
  {
    if Unchanged(q, e.head, e.labels) {
      ProgressKeepsTheAudit(p, op, q);
      EnsureAuditProgress(p, op, q, e, e.labels, false);
    } else {
      StaleStatusPostsNothing(q, op, e, e.labels, false);
    }
  }

  lemma TransitionProgress(p: Pull, op: Operation, q: Pull, e: Env)
    requires Progress(p, op, q) && !Met(e.labels, op) && LabelWritten(q, e)
    ensures Progress(p, op, EnsureAudit(WriteLabel(q, op, e), op, e, WriteLabel(q, op, e).labels, true).0)
  {
    ProgressKeepsTheAudit(p, op, q);
    WriteLabelProgress(p, op, q, e);
    EnsureAuditProgress(p, op, WriteLabel(q, op, e), e, WriteLabel(q, op, e).labels, true);
  }

  lemma AttemptProgress(p: Pull, op: Operation, q: Pull, e: Env)
    requires Progress(p, op, q)
    ensures Progress(p, op, Attempt(q, op, e).0)
  {
    if Gate(op, e.preflight, e.labels).None? {
      if Met(e.labels, op) {
        RerunProgress(p, op, q, e);
      } else if LabelWritten(q, e) {
        TransitionProgress(p, op, q, e);
      } else {
        WriteLabelProgress(p, op, q, e);
      }
    }
  }

  lemma ChatProgress(p: Pull, op: Operation, q: Pull)
    requires Progress(p, op, q)
    ensures Progress(p, op, q.(comments := q.comments + [Plain]))
  {
    OneMoreComment(q.comments, Plain, AuditOf(op, p.head, p.labels));
  }

  lemma {:induction false} RunsMakeProgress(p: Pull, op: Operation, events: seq<Event>)
    ensures Progress(p, op, Run(p, op, events))
  {
    if events != [] {
      var some := events[..|events| - 1];
      RunsMakeProgress(p, op, some);
      match events[|events| - 1]
      case Chat => ChatProgress(p, op, Run(p, op, some));
      case Try(e) => AttemptProgress(p, op, Run(p, op, some), e);
    }
  }

  lemma WritesNeedAuthority(p: Pull, op: Operation, e: Env)
    requires Attempt(p, op, e).0 != p
    ensures HasAuthority(op, e)
  {
  }

  /** Without one attempt that has authority, no number of attempts writes anything. */
  lemma {:induction false} NothingIsWrittenWithoutAuthority(p: Pull, op: Operation, events: seq<Event>)
    requires forall i :: 0 <= i < |events| && events[i].Try? ==> !HasAuthority(op, events[i].env)
    ensures
      var q := Run(p, op, events);
      q.head == p.head && q.labels == p.labels && q.writes == p.writes && Audits(q.comments) == Audits(p.comments)
  {
    if events != [] {
      var some := events[..|events| - 1];
      NothingIsWrittenWithoutAuthority(p, op, some);
      var q := Run(p, op, some);
      match events[|events| - 1]
      case Chat => ChatIsNoAudit(q.comments);
      case Try(e) =>
        if Attempt(q, op, e).0 != q {
          WritesNeedAuthority(q, op, e);
        }
    }
  }

  lemma ChatIsNoAudit(comments: seq<Comment>)
    ensures Audits(comments + [Plain]) == Audits(comments)
  {
    assert (comments + [Plain])[..|comments|] == comments;
  }

  /** Only the force label may change. */
  lemma OnlyTheForceLabelChanges(p: Pull, op: Operation, events: seq<Event>, name: string)
    requires name != FORCE
    ensures name in Run(p, op, events).labels <==> name in p.labels
    ensures Run(p, op, events).head == p.head
  {
    RunsMakeProgress(p, op, events);
  }

  /**
   Any sequence of reruns that ends in success has made at most one effective label
   write and posted at most one audit comment: none of the first if the label was as
   wished, none of the second if the latest audit showed the transition. It leaves
   exactly one audit of the transition exactly when none was there, or only the latest.
   */
  lemma RerunsConverge(p: Pull, op: Operation, events: seq<Event>, e: Env)
    requires Attempt(Run(p, op, events), op, e).1.Done?
    ensures
      var after := Attempt(Run(p, op, events), op, e).0;
      var a := AuditOf(op, p.head, p.labels);
      && after.labels == TransitionAfter(p.labels, op)
      && LabelWrites(p, after) == (if Met(p.labels, op) then 0 else 1)
      && Posted(p, after) == (if LatestShows(p.comments, a) then 0 else 1)
      && Audits(after.comments) == Audits(p.comments) + (if LatestShows(p.comments, a) then [] else [a])
      && (Shown(after.comments, a) == 1 <==>
            Shown(p.comments, a) == 0 || (Shown(p.comments, a) == 1 && LatestShows(p.comments, a)))
  {
    var q := Run(p, op, events);
    RunsMakeProgress(p, op, events);
    AttemptProgress(p, op, q, e);
    AttemptIsTruthful(q, op, e);
    ProgressKeepsTheAudit(p, op, q);
    LatestIsShown(p.comments, AuditOf(op, p.head, p.labels));
    RerunLooksForTheSameMarker(p.labels, op, p.head);
    if Met(p.labels, op) {
      MetMeansNothingToDo(p.labels, op);
    }
  }

  lemma {:induction false} LatestIsShown(comments: seq<Comment>, a: Audit)
    ensures LatestShows(comments, a) ==> Shown(comments, a) >= 1
  {
    if comments != [] {
      LatestIsShown(comments[..|comments| - 1], a);
    }
  }

  /** After a success no later attempt writes anything. */
  lemma SuccessIsFinal(p: Pull, op: Operation, e: Env, events: seq<Event>)
    requires Attempt(p, op, e).1.Done?
    ensures
      var after := Attempt(p, op, e).0;
      var later := Run(after, op, events);
      LabelWrites(after, later) == 0 && Posted(after, later) == 0 && later.labels == after.labels
  {
    var after := Attempt(p, op, e).0;
    AttemptIsTruthful(p, op, e);
    RerunLooksForTheSameMarker(p.labels, op, p.head);
    AttemptProgress(p, op, p, e) by { assert Progress(p, op, p); }
    ProgressKeepsTheAudit(p, op, after);
    RunsMakeProgress(after, op, events);
    MetMeansNothingToDo(after.labels, op);
  }

  // ----- a second transition on the same head -----

  /** A truthful status, and every provider reply good. */
  predicate IsGood(p: Pull, op: Operation, e: Env) {
    && HasAuthority(op, e)
    && e.head == p.head && e.labels == p.labels && e.labelFault.Fine? && e.commentFault.Fine?
  }

  /** The whole transition from p to q. */
  predicate Moves(p: Pull, op: Operation, q: Pull) {
    var a := AuditOf(op, p.head, p.labels);
    && q.head == p.head && q.labels == TransitionAfter(p.labels, op)
    && q.comments == p.comments + if LatestShows(p.comments, a) then [] else [Audited(a)]
  }

  lemma GoodAttempt(p: Pull, op: Operation, e: Env)
    requires IsGood(p, op, e)
    ensures Attempt(p, op, e).1.Done? && Moves(p, op, Attempt(p, op, e).0)
  {
    if Met(p.labels, op) {
      MetMeansNothingToDo(p.labels, op);
    }
  }

  /**
   Revoking needs no policy: with everything else in order the force label goes and no
   other label changes, whether or not force merging is enabled.
   */
  lemma RevokeNeedsNoPolicy(p: Pull, e: Env, forceMerge: bool)
    requires
      var f := e.preflight;
      && f.ready && f.found && f.eligible && f.member && f.graphValid && !f.held && f.clean && f.branchHead
      && f.permission == Some("ADMIN")
    requires e.head == p.head && e.labels == p.labels && e.labelFault.Fine? && e.commentFault.Fine?
    requires CARAVAN in p.labels && EVICTED !in p.labels
    ensures
      var (after, r) := Attempt(p, Revoke, e);
      && r.Done? && r.before == p.labels && r.after == after.labels == p.labels - {FORCE} && !r.intentPresent
      && (FORCE in p.labels ==> r.mutated && |after.writes| > |p.writes| && after.writes[|p.writes|] == LabelWrite)
      && Attempt(p, Revoke, e.(preflight := e.preflight.(forceMerge := forceMerge))) == (after, r)
  {
    GoodAttempt(p, Revoke, e);
    AttemptIsTruthful(p, Revoke, e);
  }

  /**
   A success posts the audit unless the newest audit comment shows it: the same operation
   at the same head, and either the same labels afterwards or the same control labels
   before and after.
   */
  lemma PostsUnlessTheNewestAuditShowsIt(p: Pull, op: Operation, e: Env)
    requires Attempt(p, op, e).1.Done?
    ensures
      var a := AuditOf(op, p.head, p.labels);
      Attempt(p, op, e).0.comments == p.comments + if ShownByTheNewest(p.comments, a) then [] else [Audited(a)]
  {
    NewestShows(p.comments, AuditOf(op, p.head, p.labels));
    if Met(p.labels, op) {
      MetMeansNothingToDo(p.labels, op);
    }
  }

  ghost predicate ShownByTheNewest(comments: seq<Comment>, a: Audit) {
    exists i :: IsNewestShowing(comments, i, a)
  }

  ghost predicate IsNewestShowing(comments: seq<Comment>, i: int, a: Audit) {
    && 0 <= i < |comments| && comments[i].Audited?
    && (forall j :: i < j < |comments| ==> comments[j].Plain?)
    && comments[i].audit.operation == a.operation && comments[i].audit.head == a.head
    && (comments[i].audit.afterLabels == a.afterLabels
        || (comments[i].audit.before == a.before && comments[i].audit.after == a.after))
  }

  lemma {:induction false} NewestShows(comments: seq<Comment>, a: Audit)
    ensures LatestShows(comments, a) <==> ShownByTheNewest(comments, a)
  {
    if comments != [] {
      var fewer := comments[..|comments| - 1];
      assert comments == fewer + [comments[|comments| - 1]];
      if comments[|comments| - 1].Plain? {
        NewestShows(fewer, a);
        ChatHidesNothing(fewer, a);
      } else if Shows(comments[|comments| - 1], a) {
        assert IsNewestShowing(comments, |comments| - 1, a);
      }
    }
  }

  lemma ChatHidesNothing(comments: seq<Comment>, a: Audit)
    ensures ShownByTheNewest(comments + [Plain], a) <==> ShownByTheNewest(comments, a)
  {
    var more := comments + [Plain];
    forall i | 0 <= i < |comments|
      ensures IsNewestShowing(more, i, a) <==> IsNewestShowing(comments, i, a)
    {
      assert more[i] == comments[i];
      assert forall j :: i < j < |comments| ==> more[j] == comments[j];
    }
    assert !IsNewestShowing(more, |comments|, a);
  }

  /** Two transitions of one kind at one head have one marker exactly when their control labels agree, the force label aside. */
  lemma MarkersDifferByControlLabels(op: Operation, head: string, left: set<string>, right: set<string>)
    ensures
      var (a, b) := (AuditOf(op, head, left), AuditOf(op, head, right));
      a.before == b.before && a.after == b.after <==>
      forall name ::
        name in {CARAVAN, EVICTED, "caravan-join-skipped"} || (name != FORCE && "caravan-priority:" <= name) ==>
        (name in left <==> name in right)
  {
    var (a, b) := (AuditOf(op, head, left), AuditOf(op, head, right));
    forall name | name != FORCE && IsControl(name)
      ensures name in a.before <==> name in left
      ensures name in b.before <==> name in right
      ensures name in a.after <==> name in left
      ensures name in b.after <==> name in right
    {
    }
    DistinctNames();
    assert FORCE in a.before <==> FORCE in b.before;
    assert FORCE in a.after <==> FORCE in b.after;
    if forall name :: name != FORCE && IsControl(name) ==> (name in left <==> name in right) {
      assert a.before == b.before;
      assert a.after == b.after;
    }
  }

  lemma DistinctNames()
    ensures FORCE != CARAVAN && FORCE != EVICTED && FORCE != "caravan-join-skipped"
  {
    assert |CARAVAN| < |FORCE| && FORCE[8] == 'f' && EVICTED[8] == 'e' && "caravan-join-skipped"[8] == 'j';
  }

  lemma RevokeAfterArm(labels: set<string>, head: string)
    requires FORCE !in labels
    ensures AuditOf(Revoke, head, TransitionAfter(labels, Arm)) == AuditOf(Revoke, head, labels)
    ensures TransitionAfter(TransitionAfter(labels, Arm), Revoke) == labels
  {
    var armed := TransitionAfter(labels, Arm);
    assert TransitionBefore(armed, Revoke) == TransitionBefore(labels, Revoke);
    assert TransitionAfter(armed, Revoke) == labels == TransitionAfter(labels, Revoke);
  }

  lemma ArmRevokeArm(p: Pull, p1: Pull, p2: Pull, p3: Pull)
    requires p.comments == [] && FORCE !in p.labels
    requires Moves(p, Arm, p1) && Moves(p1, Revoke, p2) && Moves(p2, Arm, p3)
    ensures Shown(p3.comments, AuditOf(Arm, p.head, p.labels)) == 2
  {
    var (a, b) := (AuditOf(Arm, p.head, p.labels), AuditOf(Revoke, p.head, p.labels));
    RevokeAfterArm(p.labels, p.head);
    assert p1.comments == p.comments + [Audited(a)];
    OneMoreAudit(p.comments, a, a);
    OneMoreAudit(p.comments, a, b);
    assert p2.comments == p1.comments + [Audited(b)];
    OneMoreAudit(p1.comments, b, a);
    OneMoreAudit(p2.comments, a, a);
  }

  lemma OneMoreAudit(comments: seq<Comment>, c: Audit, a: Audit)
    ensures Shown(comments + [Audited(c)], a) == Shown(comments, a) + if Shows(Audited(c), a) then 1 else 0
    ensures LatestShows(comments + [Audited(c)], a) == Shows(Audited(c), a)
  {
    OneMoreComment(comments, Audited(c), a);
  }

  /**
   Arming, revoking and arming again on one head posts the same audit twice: exactly one
   audit comment is left only under the condition above.
   */
  lemma ArmRevokeArmPostsTheAuditTwice(p: Pull, e1: Env, e2: Env, e3: Env)
    requires p.comments == [] && FORCE !in p.labels
    requires IsGood(p, Arm, e1)
    requires IsGood(Attempt(p, Arm, e1).0, Revoke, e2)
    requires IsGood(Attempt(Attempt(p, Arm, e1).0, Revoke, e2).0, Arm, e3)
    ensures
      var r := Attempt(Attempt(Attempt(p, Arm, e1).0, Revoke, e2).0, Arm, e3).0;
      Shown(r.comments, AuditOf(Arm, p.head, p.labels)) == 2
  {
    var p1 := Attempt(p, Arm, e1).0;
    var p2 := Attempt(p1, Revoke, e2).0;
    GoodAttempt(p, Arm, e1);
    GoodAttempt(p1, Revoke, e2);
    GoodAttempt(p2, Arm, e3);
    ArmRevokeArm(p, p1, p2, Attempt(p2, Arm, e3).0);
  }

  // ----- the command -----

  datatype Step = Step(completed: bool)

  /** Observed labels and the steps of one execution. */
  class ForceState {
    var current: set<string>
    var steps: seq<Step>

    constructor (labels: set<string>)
      ensures current == labels && steps == []
    {
      current, steps := labels, [];
    }

    predicate Changed()
      reads this
    {
      Step(true) in steps
    }

    method Already()
      modifies this`steps
      ensures steps == old(steps) + [Step(false)] && (Changed() <==> old(Changed()))
    {
      steps := steps + [Step(false)];
    }

    method Record(after: set<string>)
      modifies this
      ensures current == after && steps == old(steps) + [Step(true)] && Changed()
    {
      current, steps := after, steps + [Step(true)];
    }
  }

  class Provider {
    var head: string
    var labels: set<string>
    var comments: seq<Comment>
    var writes: seq<Write>

    constructor (p: Pull)
      ensures Abs() == p
    {
      head, labels, comments, writes := p.head, p.labels, p.comments, p.writes;
    }

    function Abs(): Pull
      reads this
    {
      Pull(head, labels, comments, writes)
    }

    method EditLabel(op: Operation, e: Env) returns (ok: bool)
      modifies this
      ensures Abs() == WriteLabel(old(Abs()), op, e) && ok == LabelWritten(old(Abs()), e)
    {
      ok := LabelWritten(Abs(), e);
      if head == e.head && labels == e.labels && !e.labelFault.Lost? {
        labels := if op.Arm? then labels + {FORCE} else labels - {FORCE};
        writes := writes + [LabelWrite];
      }
    }

    /** Look for the latest audit comment, newest first. */
    method FindAudit(a: Audit) returns (visible: bool)
      ensures visible == LatestShows(comments, a)
    {
      var i := |comments|;
      assert comments[..i] == comments;
      while i > 0
        invariant 0 <= i <= |comments|
        invariant LatestShows(comments, a) == LatestShows(comments[..i], a)
      {
        assert comments[..i][..i - 1] == comments[..i - 1];
        i := i - 1;
        if comments[i].Audited? {
          return Shows(comments[i], a);
        }
      }
      visible := false;
    }

    method EnsureComment(expected: set<string>, a: Audit, e: Env) returns (ok: bool, existing: bool)
      modifies this
      ensures Abs() == PostAudit(old(Abs()), expected, a, e) && ok == AuditEnsured(old(Abs()), expected, e)
      ensures ok ==> existing == LatestShows(old(comments), a)
    {
      if head != e.head || labels != expected {
        return false, false;
      }
      existing := FindAudit(a);
      if !existing && !e.commentFault.Lost? {
        comments := comments + [Audited(a)];
        writes := writes + [CommentWrite];
      }
      ok := e.commentFault.Fine?;
    }

    /** One execution of `arm` or `revoke`. */
    method Execute(op: Operation, e: Env) returns (r: Reply)
      modifies this
      ensures (Abs(), r) == Attempt(old(Abs()), op, e)
      ensures Truthful(old(Abs()), op, e, Abs(), r)
    {
      AttemptIsTruthful(Abs(), op, e);
      var refusal := Gate(op, e.preflight, e.labels);
      if refusal.Some? {
        return Refused(refusal.value);
      }
      var state := new ForceState(e.labels);
      if Met(e.labels, op) {
        state.Already();
      } else {
        var written := EditLabel(op, e);
        if !written {
          return Failed(state.Changed());
        }
        state.Record(labels);
      }
      var a := AuditOf(op, e.head, e.labels);
      var ok, existing := EnsureComment(state.current, a, e);
      if !ok {
        return Failed(state.Changed());
      }
      if existing {
        state.Already();
      } else {
        state.Record(labels);
      }
      r := Done(state.Changed(), e.labels, state.current, FORCE in state.current);
    }
  }
}
