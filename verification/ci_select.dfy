/** Reported checks of a head and which of them are current (src/model.rs). */
module Checks {
  import opened Common
  import opened Ordering
  import Text

  datatype CheckState =
    | Expected | Queued | InProgress | Success | Failure | Neutral | Skipped | Cancelled | TimedOut | ActionRequired | Unknown

  datatype Check = Check(
    name: string,
    state: CheckState,
    detailsUrl: Option<string>,
    providerKind: Option<string>,
    workflowName: Option<string>,
    appId: Option<nat>,
    checkSuiteId: Option<nat>,
    headOid: Option<string>,
    startedAt: Option<string>,
    completedAt: Option<string>)
  {
    predicate SameIdentity(other: Check) {
      && name == other.name
      && SameWorkflow(other)
    }

    predicate SameWorkflow(other: Check) {
      && providerKind == other.providerKind
      && workflowName == other.workflowName
      && appId == other.appId
      && headOid == other.headOid
    }

    function ObservedAt(): Option<string> {
      var (started, completed) := (Valid(startedAt), Valid(completedAt));
      if started.Some? && completed.Some? then
        (if LexLess(started.value, completed.value) then completed else started)
      else if started.Some? then started
      else completed
    }

    /** The run number in the details URL. */
    function RunId(): Option<nat> {
      if detailsUrl.None? then None else
        var rest := Text.AfterFirst(detailsUrl.value, "/actions/runs/");
        if rest.None? then None else Text.ParseU64(rest.value[..Text.Find(rest.value, '/')])
    }

    /** The run generation, known only for a check that names its workflow. */
    function Generation(): Option<nat> {
      if workflowName.None? then None else RunId()
    }
  }

  function Valid(stamp: Option<string>): Option<string> {
    if stamp.Some? && stamp.value != "" && !("0001-01-01T" <= stamp.value) then stamp else None
  }

  /** `newer` proves that `check` is history. */
  predicate Supersedes(newer: Check, check: Check) {
    || (newer.SameIdentity(check) && newer.ObservedAt().Some? && check.ObservedAt().Some?
        && LexLess(check.ObservedAt().value, newer.ObservedAt().value))
    || (newer.SameWorkflow(check) && newer.Generation().Some? && check.Generation().Some?
        && check.Generation().value < newer.Generation().value)
  }

  predicate IsSuperseded(check: Check, checks: seq<Check>) {
    exists i :: 0 <= i < |checks| && Supersedes(checks[i], check)
  }

  function Current(checks: seq<Check>, among: seq<Check>): (r: seq<Check>)
    ensures forall c :: c in r <==> c in checks && !IsSuperseded(c, among)
  {
    if checks == [] then []
    else (if IsSuperseded(checks[0], among) then [] else [checks[0]]) + Current(checks[1..], among)
  }

  function LatestChecks(checks: seq<Check>): seq<Check> {
    Current(checks, checks)
  }

  /** All current reports of one workflow on one head name the same run. */
  lemma CurrentReportsShareTheirRun(checks: seq<Check>, a: Check, b: Check)
    requires a in LatestChecks(checks) && b in LatestChecks(checks) && a.SameWorkflow(b)
    requires a.Generation().Some? && b.Generation().Some?
    ensures a.Generation() == b.Generation()
  {
    assert !Supersedes(a, b) && !Supersedes(b, a);
  }
}

/**
 Selecting the executions that CI admission may start again (src/ci_dispatch.rs):
 current reports name workflows, and the newest known run of each one is selected.
 */
module CiSelect {
  import opened Common
  import opened Sequences
  import opened Ordering
  import opened CiExecutions
  import opened Checks

  datatype Result<T> = Ok(value: T) | Unavailable

  datatype Suite = Suite(id: nat, headSha: string, appSlug: string)

  datatype Identity = Identity(workflowId: nat, runAttempt: nat, pullRequests: seq<PullBinding>)

  datatype Run = Run(
    runId: nat,
    checkSuiteId: nat,
    workflowName: string,
    execution: Option<Identity>,
    headSha: string,
    status: string,
    conclusion: string,
    event: string)

  datatype Lineage = Lineage(headSha: string, suites: seq<Suite>, runs: seq<Run>, complete: bool)

  datatype Pull = Pull(binding: PullBinding, checks: seq<Check>)

  datatype Required = Required(context: string, appId: Option<nat>)
  {
    predicate Matches(check: Check, head: string) {
      && check.name == context
      && check.providerKind != Some("WorkflowRunLineage")
      && (check.headOid == None || check.headOid == Some(head))
      && (appId == None || (check.appId == appId && check.headOid == Some(head)))
    }
  }

  datatype Policy = Policy(contexts: seq<string>, checks: seq<Required>, complete: bool)

  datatype Anchor = Anchor(appId: nat, workflowId: nat, run: Run, contexts: seq<string>)

  // ----- policy -----

  const MAX_CONTEXTS := 32

  predicate Declares(required: seq<Required>, context: string) {
    exists i :: 0 <= i < |required| && required[i].context == context
  }

  /** A typed declaration refines a legacy name; a name without one stays, for every App. */
  function Requirements(required: seq<Required>, contexts: seq<string>): seq<Required>
    decreases |contexts|
  {
    if contexts == [] then required
    else if Declares(required, contexts[0]) then Requirements(required, contexts[1..])
    else Requirements(required + [Required(contexts[0], None)], contexts[1..])
  }

  predicate PolicyComplete(policy: Policy) {
    var required := Requirements(policy.checks, policy.contexts);
    && policy.complete
    && |set r | r in required| <= MAX_CONTEXTS
    && forall r :: r in required ==> r.context != "" && r.appId != Some(0)
  }

  /** Insert into a sorted list without duplicates. */
  function Insert(name: string, names: seq<string>): (r: seq<string>)
    ensures forall n :: n in r <==> n == name || n in names
  {
    if names == [] then [name]
    else if names[0] == name then names
    else if LexLess(name, names[0]) then [name] + names
    else [names[0]] + Insert(name, names[1..])
  }

  function NamesOf(required: seq<Required>): (r: seq<string>)
    ensures forall n :: n in r <==> exists i :: 0 <= i < |required| && required[i].context == n
  {
    if required == [] then []
    else Insert(required[0].context, NamesOf(required[1..]))
  }

  predicate Applicable(pull: Pull, required: seq<Required>, name: string, check: Check) {
    && check.name == name
    && (!Declares(required, name)
        || exists i :: 0 <= i < |required| && required[i].context == name && required[i].Matches(check, pull.binding.headSha))
  }

  function ApplicableChecks(pull: Pull, required: seq<Required>, name: string, checks: seq<Check>): seq<Check> {
    if checks == [] then [] else
      var first := if Applicable(pull, required, name, checks[0]) then [checks[0]] else [];
      first + ApplicableChecks(pull, required, name, checks[1..])
  }

  // ----- lineage -----

  predicate UniqueRuns(runs: seq<Run>) {
    forall i, j :: 0 <= i < j < |runs| ==> runs[i].runId != runs[j].runId
  }

  predicate UniqueSuites(suites: seq<Suite>) {
    forall i, j :: 0 <= i < j < |suites| ==> suites[i].id != suites[j].id
  }

  predicate ValidLineage(pull: Pull, l: Lineage) {
    l.complete && l.headSha == pull.binding.headSha && UniqueRuns(l.runs) && UniqueSuites(l.suites)
  }

  /** The first suite with this number, on this head if one is given. */
  function FindSuite(suites: seq<Suite>, id: Option<nat>, head: Option<string>): (r: Option<Suite>)
    ensures r.Some? ==> r.value in suites && Fits(r.value, id, head)
    ensures r.None? ==> forall x :: x in suites ==> !Fits(x, id, head)
  {
    if suites == [] then None
    else if Fits(suites[0], id, head) then Some(suites[0])
    else FindSuite(suites[1..], id, head)
  }

  predicate Fits(s: Suite, id: Option<nat>, head: Option<string>) {
    Some(s.id) == id && (head.None? || s.headSha == head.value)
  }

  function FindRun(runs: seq<Run>, id: nat, suiteId: nat, head: string): (r: Option<Run>)
    ensures r.Some? ==> r.value in runs && r.value.runId == id && r.value.checkSuiteId == suiteId && r.value.headSha == head
    ensures r.None? ==> forall x :: x in runs ==> !(x.runId == id && x.checkSuiteId == suiteId && x.headSha == head)
  {
    if runs == [] then None
    else if runs[0].runId == id && runs[0].checkSuiteId == suiteId && runs[0].headSha == head then Some(runs[0])
    else FindRun(runs[1..], id, suiteId, head)
  }

  /** The workflow, run and App behind one report; nothing for one that Actions did not make. */
  function CheckAnchor(pull: Pull, check: Check, l: Lineage): Result<Option<Anchor>> {
    var head := pull.binding.headSha;
    if check.providerKind == Some("StatusContext") then Ok(None)
    else if check.providerKind != Some("CheckRun") then Unavailable
    else
      var suite := FindSuite(l.suites, check.checkSuiteId, Some(head));
      if suite.None? then Unavailable
      else if suite.value.appSlug != "github-actions" then Ok(None)
      else if check.appId.None? || check.appId.value == 0 || check.headOid != Some(head) || check.RunId().None? then Unavailable
      else
        var run := FindRun(l.runs, check.RunId().value, suite.value.id, head);
        if run.None? || run.value.execution.None? then Unavailable
        else
          var identity := run.value.execution.value;
          if identity.workflowId == 0 || identity.runAttempt == 0 then Unavailable
          else if check.workflowName != Some(run.value.workflowName) || run.value.workflowName == "" then Unavailable
          else Ok(Some(Anchor(check.appId.value, identity.workflowId, run.value, [])))
  }

  predicate IsRunOf(pull: Pull, workflowId: nat, r: Run) {
    r.headSha == pull.binding.headSha && r.execution.Some? && r.execution.value.workflowId == workflowId
  }

  predicate KeyAtLeast(a: Run, b: Run)
    requires a.execution.Some? && b.execution.Some?
  {
    a.runId > b.runId || (a.runId == b.runId && a.execution.value.runAttempt >= b.execution.value.runAttempt)
  }

  /** The last of the greatest runs of a workflow. */
  function Newest(pull: Pull, workflowId: nat, runs: seq<Run>): (r: Option<Run>)
    ensures r.Some? ==> r.value.execution.Some?
  {
    if runs == [] then None else
      var (best, last) := (Newest(pull, workflowId, runs[..|runs| - 1]), runs[|runs| - 1]);
      if IsRunOf(pull, workflowId, last) && (best.None? || KeyAtLeast(last, best.value)) then Some(last) else best
  }

  /** It is a run of the workflow, and none of them has a greater key; without one there is no such run. */
  lemma {:induction false} NewestIsGreatest(pull: Pull, workflowId: nat, runs: seq<Run>)
    ensures
      var r := Newest(pull, workflowId, runs);
      match r
      case None => forall x :: x in runs ==> !IsRunOf(pull, workflowId, x)
      case Some(newest) =>
        && newest in runs && IsRunOf(pull, workflowId, newest)
        && forall x :: x in runs && IsRunOf(pull, workflowId, x) ==> KeyAtLeast(newest, x)
  {
    if runs != [] {
      var (some, last) := (runs[..|runs| - 1], runs[|runs| - 1]);
      NewestIsGreatest(pull, workflowId, some);
      assert runs == some + [last];
    }
  }

  /** A run of unknown identity that is not older than the anchor. */
  predicate UnknownSince(pull: Pull, l: Lineage, runId: nat) {
    exists i :: 0 <= i < |l.runs| && l.runs[i].headSha == pull.binding.headSha && l.runs[i].runId >= runId && l.runs[i].execution.None?
  }

  function BoundTo(number: nat, bindings: seq<PullBinding>): seq<PullBinding> {
    if bindings == [] then []
    else (if bindings[0].number == number then [bindings[0]] else []) + BoundTo(number, bindings[1..])
  }

  predicate RestartRequired(pull: Pull, r: Run, suite: Suite, appId: nat, contexts: seq<string>) {
    exists c :: c in LatestChecks(pull.checks) && c.name in contexts && c.appId == Some(appId) && c.checkSuiteId == Some(suite.id)
      && c.headOid == Some(pull.binding.headSha) && c.RunId() == Some(r.runId)
      && (c.state.Failure? || c.state.Cancelled? || c.state.TimedOut? || c.state.ActionRequired?)
  }

  function FromRun(pull: Pull, r: Run, suite: Suite, appId: nat, contexts: seq<string>): Result<Execution> {
    if r.execution.None? then Unavailable
    else
      var identity := r.execution.value;
      if || appId == 0 || identity.workflowId == 0 || identity.runAttempt == 0 || r.runId == 0 || r.checkSuiteId == 0
         || r.workflowName == "" || r.event == ""
         || r.headSha != pull.binding.headSha || suite.headSha != pull.binding.headSha
         || suite.id != r.checkSuiteId || suite.appSlug != "github-actions"
         || BoundTo(pull.binding.number, identity.pullRequests) != [pull.binding]
      then Unavailable
      else
        var e := Execution(appId, suite.appSlug, identity.workflowId, r.workflowName, contexts,
                           RestartRequired(pull, r, suite, appId, contexts), r.runId, identity.runAttempt, suite.id,
                           pull.binding, r.event, r.status, r.conclusion);
        if e.Reusable() || e.Requestable() then Ok(e) else Unavailable
  }

  /** The execution of the newest known run of a workflow. */
  function KnownExecution(pull: Pull, workflowId: nat, appId: nat, contexts: seq<string>, l: Lineage): Result<Execution> {
    var newest := Newest(pull, workflowId, l.runs);
    if newest.None? then Unavailable
    else
      var suite := FindSuite(l.suites, Some(newest.value.checkSuiteId), None);
      if suite.None? then Unavailable else FromRun(pull, newest.value, suite.value, appId, contexts)
  }

  function NewestExecution(pull: Pull, a: Anchor, l: Lineage): Result<Execution> {
    if UnknownSince(pull, l, a.run.runId) then Unavailable
    else KnownExecution(pull, a.workflowId, a.appId, a.contexts, l)
  }

  // ----- selection -----

  /** One report enters the anchors: the first one of a workflow fixes its run. */
  function AddReport(pull: Pull, l: Lineage, anchors: map<nat, Anchor>, check: Check): Result<map<nat, Anchor>> {
    match CheckAnchor(pull, check, l)
    case Unavailable => Unavailable
    case Ok(None) => Ok(anchors)
    case Ok(Some(a)) =>
      var entry := if a.workflowId in anchors then anchors[a.workflowId] else a;
      if entry.appId != a.appId then Unavailable
      else Ok(anchors[a.workflowId := entry.(contexts := Insert(check.name, entry.contexts))])
  }

  function AnchorsOf(pull: Pull, l: Lineage, reports: seq<Check>): Result<map<nat, Anchor>> {
    if reports == [] then Ok(map[])
    else
      match AnchorsOf(pull, l, reports[..|reports| - 1])
      case Unavailable => Unavailable
      case Ok(anchors) => AddReport(pull, l, anchors, reports[|reports| - 1])
  }

  function Executions(pull: Pull, l: Lineage, anchors: map<nat, Anchor>, ids: seq<nat>): Result<seq<Execution>>
    requires forall id :: id in ids ==> id in anchors
  {
    if ids == [] then Ok([])
    else
      match Executions(pull, l, anchors, ids[..|ids| - 1])
      case Unavailable => Unavailable
      case Ok(es) =>
        match NewestExecution(pull, anchors[ids[|ids| - 1]], l)
        case Unavailable => Unavailable
        case Ok(e) => Ok(es + [e])
  }

  /** The applicable current reports, name after name. */
  function Reports(pull: Pull, required: seq<Required>, names: seq<string>): seq<Check> {
    if names == [] then []
    else
      Reports(pull, required, names[..|names| - 1])
      + ApplicableChecks(pull, required, names[|names| - 1], LatestChecks(pull.checks))
  }

  predicate Reported(pull: Pull, required: seq<Required>, name: string) {
    ApplicableChecks(pull, required, name, LatestChecks(pull.checks)) != []
  }

  predicate AllReported(pull: Pull, required: seq<Required>, names: seq<string>) {
    forall i :: 0 <= i < |names| ==> Reported(pull, required, names[i])
  }

  function NamesToCover(required: seq<Required>, gate: Option<string>): seq<string> {
    match gate
    case None => NamesOf(required)
    case Some(name) => [name]
  }

  ghost function Selection(pull: Pull, policy: Policy, gate: Option<string>, l: Lineage): Result<seq<Execution>> {
    var required := Requirements(policy.checks, policy.contexts);
    var names := NamesToCover(required, gate);
    if !PolicyComplete(policy) then Unavailable
    else if gate.None? && required == [] then Ok([])
    else if !ValidLineage(pull, l) || !AllReported(pull, required, names) then Unavailable
    else
      match AnchorsOf(pull, l, Reports(pull, required, names))
      case Unavailable => Unavailable
      case Ok(anchors) => Executions(pull, l, anchors, Ascending(anchors.Keys))
  }

  lemma {:induction false} ReportsStayUnavailable(pull: Pull, l: Lineage, reports: seq<Check>, n: nat)
    requires n <= |reports| && AnchorsOf(pull, l, reports[..n]).Unavailable?
    ensures AnchorsOf(pull, l, reports).Unavailable?
  {
    if n < |reports| {
      assert reports[..|reports| - 1][..n] == reports[..n];
      ReportsStayUnavailable(pull, l, reports[..|reports| - 1], n);
    } else {
      assert reports[..n] == reports;
    }
  }

  lemma {:induction false} ReportsExtend(pull: Pull, required: seq<Required>, names: seq<string>, n: nat)
    requires n <= |names|
    ensures Reports(pull, required, names[..n]) <= Reports(pull, required, names)
  {
    if n < |names| {
      assert names[..|names| - 1][..n] == names[..n];
      ReportsExtend(pull, required, names[..|names| - 1], n);
    } else {
      assert names[..n] == names;
    }
  }

  lemma PrefixUnavailable(pull: Pull, l: Lineage, some: seq<Check>, all: seq<Check>)
    requires some <= all && AnchorsOf(pull, l, some).Unavailable?
    ensures AnchorsOf(pull, l, all).Unavailable?
  {
    assert all[..|some|] == some;
    ReportsStayUnavailable(pull, l, all, |some|);
  }

  lemma {:induction false} ExecutionsStayUnavailable(pull: Pull, l: Lineage, anchors: map<nat, Anchor>, ids: seq<nat>, n: nat)
    requires (forall id :: id in ids ==> id in anchors) && n <= |ids|
    requires Executions(pull, l, anchors, ids[..n]).Unavailable?
    ensures Executions(pull, l, anchors, ids).Unavailable?
  {
    if n < |ids| {
      assert ids[..|ids| - 1][..n] == ids[..n];
      ExecutionsStayUnavailable(pull, l, anchors, ids[..|ids| - 1], n);
    } else {
      assert ids[..n] == ids;
    }
  }

  lemma OneMoreReport(pull: Pull, l: Lineage, done: seq<Check>, c: Check)
    requires AnchorsOf(pull, l, done).Ok?
    ensures AnchorsOf(pull, l, done + [c]) == AddReport(pull, l, AnchorsOf(pull, l, done).value, c)
  {
    assert (done + [c])[..|done|] == done;
  }

  lemma OneMoreReported(pull: Pull, required: seq<Required>, names: seq<string>, i: nat)
    requires i < |names| && AllReported(pull, required, names[..i]) && Reported(pull, required, names[i])
    ensures AllReported(pull, required, names[..i + 1])
  {
  }

  lemma OneMoreExecution(pull: Pull, l: Lineage, anchors: map<nat, Anchor>, ids: seq<nat>, i: nat)
    requires (forall id :: id in ids ==> id in anchors) && i < |ids| && Executions(pull, l, anchors, ids[..i]).Ok?
    ensures
      var e := NewestExecution(pull, anchors[ids[i]], l);
      Executions(pull, l, anchors, ids[..i + 1]) ==
        if e.Ok? then Ok(Executions(pull, l, anchors, ids[..i]).value + [e.value]) else Unavailable
  {
    assert ids[..i + 1][..i] == ids[..i];
  }

  lemma OneMoreName(pull: Pull, required: seq<Required>, names: seq<string>, i: nat)
    requires i < |names|
    ensures Reports(pull, required, names[..i + 1]) ==
      Reports(pull, required, names[..i]) + ApplicableChecks(pull, required, names[i], LatestChecks(pull.checks))
    ensures Reports(pull, required, names[..i + 1]) <= Reports(pull, required, names)
  {
    assert names[..i + 1][..i] == names[..i];
    ReportsExtend(pull, required, names, i + 1);
  }

  /** Report j comes next; if it cannot be added, neither can all. */
  lemma NextReport(pull: Pull, l: Lineage, done: seq<Check>, applicable: seq<Check>, j: nat)
    requires j < |applicable| && AnchorsOf(pull, l, done + applicable[..j]).Ok?
    ensures
      var next := AddReport(pull, l, AnchorsOf(pull, l, done + applicable[..j]).value, applicable[j]);
      && AnchorsOf(pull, l, done + applicable[..j + 1]) == next
      && (next.Unavailable? ==> AnchorsOf(pull, l, done + applicable).Unavailable?)
  {
    var (some, more) := (done + applicable[..j], done + applicable[..j + 1]);
    TakeOneMore(applicable, j);
    AppendAssociates(done, applicable[..j], [applicable[j]]);
    OneMoreReport(pull, l, some, applicable[j]);
    if AnchorsOf(pull, l, more).Unavailable? {
      assert applicable == applicable[..j + 1] + applicable[j + 1..];
      AppendAssociates(done, applicable[..j + 1], applicable[j + 1..]);
      PrefixUnavailable(pull, l, more, done + applicable);
    }
  }

  method AddReports(pull: Pull, l: Lineage, ghost done: seq<Check>, applicable: seq<Check>, start: map<nat, Anchor>)
    returns (r: Result<map<nat, Anchor>>)
    requires AnchorsOf(pull, l, done) == Ok(start)
    ensures r == AnchorsOf(pull, l, done + applicable)
  {
    var anchors := start;
    assert done + applicable[..0] == done;
    for j := 0 to |applicable|
      invariant AnchorsOf(pull, l, done + applicable[..j]) == Ok(anchors)
    {
      var next := AddReport(pull, l, anchors, applicable[j]);
      NextReport(pull, l, done, applicable, j);
      if next.Unavailable? {
        return Unavailable;
      }
      anchors := next.value;
    }
    assert applicable[..|applicable|] == applicable;
    r := Ok(anchors);
  }

  /** Fill the anchors name by name and report by report. */
  method FillAnchors(pull: Pull, required: seq<Required>, names: seq<string>, l: Lineage) returns (r: Result<map<nat, Anchor>>)
    ensures r == if AllReported(pull, required, names) then AnchorsOf(pull, l, Reports(pull, required, names)) else Unavailable
  {
    var anchors: map<nat, Anchor> := map[];
    var checks := LatestChecks(pull.checks);
    for i := 0 to |names|
      invariant AnchorsOf(pull, l, Reports(pull, required, names[..i])) == Ok(anchors)
      invariant AllReported(pull, required, names[..i])
    {
      var applicable := ApplicableChecks(pull, required, names[i], checks);
      if applicable == [] {
        assert !Reported(pull, required, names[i]);
        return Unavailable;
      }
      OneMoreReported(pull, required, names, i);
      OneMoreName(pull, required, names, i);
      var next := AddReports(pull, l, Reports(pull, required, names[..i]), applicable, anchors);
      if next.Unavailable? {
        PrefixUnavailable(pull, l, Reports(pull, required, names[..i + 1]), Reports(pull, required, names));
        return Unavailable;
      }
      anchors := next.value;
    }
    assert names[..|names|] == names;
    r := Ok(anchors);
  }

  method Collect(pull: Pull, l: Lineage, anchors: map<nat, Anchor>) returns (r: Result<seq<Execution>>)
    ensures r == Executions(pull, l, anchors, Ascending(anchors.Keys))
  {
    var ids := Sorted(anchors.Keys);
    var executions: seq<Execution> := [];
    for i := 0 to |ids|
      invariant Executions(pull, l, anchors, ids[..i]) == Ok(executions)
    {
      OneMoreExecution(pull, l, anchors, ids, i);
      var e := NewestExecution(pull, anchors[ids[i]], l);
      if e.Unavailable? {
        ExecutionsStayUnavailable(pull, l, anchors, ids, i + 1);
        return Unavailable;
      }
      executions := executions + [e.value];
    }
    assert ids[..|ids|] == ids;
    r := Ok(executions);
  }

  method Select(pull: Pull, policy: Policy, gate: Option<string>, l: Lineage) returns (r: Result<seq<Execution>>)
    ensures r == Selection(pull, policy, gate, l)
  {
    var required := Requirements(policy.checks, policy.contexts);
    if !PolicyComplete(policy) {
      return Unavailable;
    }
    if gate.None? && required == [] {
      return Ok([]);
    }
    if !ValidLineage(pull, l) {
      return Unavailable;
    }
    var filled := FillAnchors(pull, required, NamesToCover(required, gate), l);
    if filled.Unavailable? {
      return Unavailable;
    }
    r := Collect(pull, l, filled.value);
  }

  // ----- what is selected -----

  lemma {:induction false} AnchorsAreKeyed(pull: Pull, l: Lineage, reports: seq<Check>)
    requires AnchorsOf(pull, l, reports).Ok?
    ensures forall id :: id in AnchorsOf(pull, l, reports).value ==> AnchorsOf(pull, l, reports).value[id].workflowId == id
  {
    if reports != [] {
      AnchorsAreKeyed(pull, l, reports[..|reports| - 1]);
    }
  }

  /** Report c stands behind the anchor of its workflow. */
  predicate Anchored(pull: Pull, l: Lineage, anchors: map<nat, Anchor>, c: Check) {
    match CheckAnchor(pull, c, l)
    case Unavailable => false
    case Ok(None) => true
    case Ok(Some(a)) =>
      a.workflowId in anchors && anchors[a.workflowId].appId == a.appId && c.name in anchors[a.workflowId].contexts
  }

  lemma AddReportAnchors(pull: Pull, l: Lineage, anchors: map<nat, Anchor>, c: Check, x: Check)
    requires AddReport(pull, l, anchors, c).Ok?
    requires x == c || Anchored(pull, l, anchors, x)
    ensures Anchored(pull, l, AddReport(pull, l, anchors, c).value, x)
  {
  }

  lemma {:induction false} EveryReportIsAnchored(pull: Pull, l: Lineage, reports: seq<Check>, k: nat)
    requires AnchorsOf(pull, l, reports).Ok? && k < |reports|
    ensures Anchored(pull, l, AnchorsOf(pull, l, reports).value, reports[k])
  {
    var some := reports[..|reports| - 1];
    if k < |some| {
      EveryReportIsAnchored(pull, l, some, k);
    }
    AddReportAnchors(pull, l, AnchorsOf(pull, l, some).value, reports[|some|], reports[k]);
  }

  /** The first report of a workflow. */
  ghost predicate IsFirstReport(pull: Pull, l: Lineage, reports: seq<Check>, id: nat, k: nat, run: Run) {
    && k < |reports| && ReportsRun(pull, l, reports[k], id, run)
    && forall j :: 0 <= j < k ==> !ReportsWorkflow(pull, l, reports[j], id)
  }

  predicate ReportsWorkflow(pull: Pull, l: Lineage, c: Check, id: nat) {
    var a := CheckAnchor(pull, c, l);
    a.Ok? && a.value.Some? && a.value.value.workflowId == id
  }

  predicate ReportsRun(pull: Pull, l: Lineage, c: Check, id: nat, run: Run) {
    ReportsWorkflow(pull, l, c, id) && CheckAnchor(pull, c, l).value.value.run == run
  }

  /** An anchor keeps the run of the first report of its workflow. */
  lemma {:induction false} AnchorsKeepTheFirstReport(pull: Pull, l: Lineage, reports: seq<Check>, id: nat) returns (k: nat)
    requires AnchorsOf(pull, l, reports).Ok? && id in AnchorsOf(pull, l, reports).value
    ensures IsFirstReport(pull, l, reports, id, k, AnchorsOf(pull, l, reports).value[id].run)
  {
    var some := reports[..|reports| - 1];
    var c := reports[|reports| - 1];
    var anchors := AnchorsOf(pull, l, some).value;
    if id in anchors {
      k := AnchorsKeepTheFirstReport(pull, l, some, id);
      AddReportKeepsRun(pull, l, anchors, c, id);
      LaterReportsChangeNothing(pull, l, reports, |some|, id, k, anchors[id].run);
    } else {
      k := |some|;
      AddReportSetsRun(pull, l, anchors, c, id);
      forall j | 0 <= j < k
        ensures !ReportsWorkflow(pull, l, reports[j], id)
      {
        EveryReportIsAnchored(pull, l, some, j);
        UnanchoredReport(pull, l, anchors, some[j], id);
      }
      assert IsFirstReport(pull, l, reports, id, k, AddReport(pull, l, anchors, c).value[id].run);
    }
  }

  lemma LaterReportsChangeNothing(pull: Pull, l: Lineage, reports: seq<Check>, n: nat, id: nat, k: nat, run: Run)
    requires n <= |reports| && IsFirstReport(pull, l, reports[..n], id, k, run)
    ensures IsFirstReport(pull, l, reports, id, k, run)
  {
    assert forall j :: 0 <= j <= k ==> reports[j] == reports[..n][j];
  }

  lemma AddReportKeepsRun(pull: Pull, l: Lineage, anchors: map<nat, Anchor>, c: Check, id: nat)
    requires AddReport(pull, l, anchors, c).Ok? && id in anchors
    ensures id in AddReport(pull, l, anchors, c).value && AddReport(pull, l, anchors, c).value[id].run == anchors[id].run
  {
  }

  lemma AddReportSetsRun(pull: Pull, l: Lineage, anchors: map<nat, Anchor>, c: Check, id: nat)
    requires AddReport(pull, l, anchors, c).Ok? && id !in anchors && id in AddReport(pull, l, anchors, c).value
    ensures ReportsRun(pull, l, c, id, AddReport(pull, l, anchors, c).value[id].run)
  {
  }

  lemma UnanchoredReport(pull: Pull, l: Lineage, anchors: map<nat, Anchor>, c: Check, id: nat)
    requires Anchored(pull, l, anchors, c) && id !in anchors
    ensures !ReportsWorkflow(pull, l, c, id)
  {
  }

  lemma {:induction false} ExecutionAt(pull: Pull, l: Lineage, anchors: map<nat, Anchor>, ids: seq<nat>, i: nat)
    requires (forall id :: id in ids ==> id in anchors) && Executions(pull, l, anchors, ids).Ok? && i < |ids|
    ensures |Executions(pull, l, anchors, ids).value| == |ids|
    ensures NewestExecution(pull, anchors[ids[i]], l) == Ok(Executions(pull, l, anchors, ids).value[i])
  {
    LengthsAgree(pull, l, anchors, ids);
    LastExecution(pull, l, anchors, ids);
    var some := ids[..|ids| - 1];
    if i < |some| {
      LengthsAgree(pull, l, anchors, some);
      ExecutionAt(pull, l, anchors, some, i);
    }
  }

  lemma {:induction false} LengthsAgree(pull: Pull, l: Lineage, anchors: map<nat, Anchor>, ids: seq<nat>)
    requires (forall id :: id in ids ==> id in anchors) && Executions(pull, l, anchors, ids).Ok?
    ensures |Executions(pull, l, anchors, ids).value| == |ids|
  {
    if ids != [] {
      LastExecution(pull, l, anchors, ids);
      LengthsAgree(pull, l, anchors, ids[..|ids| - 1]);
    }
  }

  lemma LastExecution(pull: Pull, l: Lineage, anchors: map<nat, Anchor>, ids: seq<nat>)
    requires (forall id :: id in ids ==> id in anchors) && ids != [] && Executions(pull, l, anchors, ids).Ok?
    ensures
      var (some, last) := (Executions(pull, l, anchors, ids[..|ids| - 1]), NewestExecution(pull, anchors[ids[|ids| - 1]], l));
      some.Ok? && last.Ok? && Executions(pull, l, anchors, ids).value == some.value + [last.value]
  {
  }

  /** e is the run `run`, bound to this pull request; every other known run of its workflow on the head is older. */
  ghost predicate IsTheNewest(pull: Pull, l: Lineage, e: Execution, run: Run) {
    && run in l.runs && IsRunOf(pull, e.workflowId, run)
    && e.runId == run.runId && e.runAttempt == run.execution.value.runAttempt && e.checkSuiteId == run.checkSuiteId
    && e.pullRequest == pull.binding && (e.Reusable() || e.Requestable())
    && e.workflowName == run.workflowName && e.event == run.event && e.status == run.status && e.conclusion == run.conclusion
    && (e.restartRequired ==> exists c :: c in LatestChecks(pull.checks) && c.name in e.contexts && c.RunId() == Some(run.runId))
    && forall x :: x in l.runs && IsRunOf(pull, e.workflowId, x) && x != run ==> x.runId < run.runId
  }

  lemma NewestExecutionIsTheNewest(pull: Pull, a: Anchor, l: Lineage) returns (run: Run)
    requires ValidLineage(pull, l) && NewestExecution(pull, a, l).Ok?
    ensures IsTheNewest(pull, l, NewestExecution(pull, a, l).value, run)
    ensures NewestExecution(pull, a, l).value.workflowId == a.workflowId
    ensures NewestExecution(pull, a, l).value.appId == a.appId
    ensures NewestExecution(pull, a, l).value.contexts == a.contexts
    ensures !UnknownSince(pull, l, a.run.runId)
  {
    NewestIsGreatest(pull, a.workflowId, l.runs);
    run := Newest(pull, a.workflowId, l.runs).value;
    forall x | x in l.runs && IsRunOf(pull, a.workflowId, x) && x != run
      ensures x.runId < run.runId
    {
      assert KeyAtLeast(run, x);
      RunsDiffer(pull, l, run, x);
    }
  }

  lemma RunsDiffer(pull: Pull, l: Lineage, a: Run, b: Run)
    requires ValidLineage(pull, l) && a in l.runs && b in l.runs && a != b
    ensures a.runId != b.runId
  {
    var i :| 0 <= i < |l.runs| && l.runs[i] == a;
    var j :| 0 <= j < |l.runs| && l.runs[j] == b;
  }

  lemma ReportedRunIsKnown(pull: Pull, l: Lineage, c: Check, id: nat, run: Run)
    requires ReportsRun(pull, l, c, id, run)
    ensures run in l.runs && IsRunOf(pull, id, run) && c.RunId() == Some(run.runId)
  {
  }

  /** The selection succeeded with these executions, from these anchors, in the order of these workflows. */
  ghost predicate Selected(pull: Pull, policy: Policy, gate: Option<string>, l: Lineage, reports: seq<Check>,
                           anchors: map<nat, Anchor>, ids: seq<nat>, es: seq<Execution>)
  {
    && ValidLineage(pull, l) && AnchorsOf(pull, l, reports) == Ok(anchors)
    && StrictlyAscending(ids) && (forall id :: id in ids <==> id in anchors)
    && Executions(pull, l, anchors, ids) == Ok(es)
  }

  lemma SelectionHasParts(pull: Pull, policy: Policy, gate: Option<string>, l: Lineage)
    returns (anchors: map<nat, Anchor>, ids: seq<nat>)
    requires Selection(pull, policy, gate, l).Ok? && (gate.Some? || Requirements(policy.checks, policy.contexts) != [])
    ensures
      var required := Requirements(policy.checks, policy.contexts);
      Selected(pull, policy, gate, l, Reports(pull, required, NamesToCover(required, gate)), anchors, ids,
               Selection(pull, policy, gate, l).value)
  {
    var required := Requirements(policy.checks, policy.contexts);
    anchors := AnchorsOf(pull, l, Reports(pull, required, NamesToCover(required, gate))).value;
    ids := Ascending(anchors.Keys);
  }

  /** One execution: the unique greatest known run of its workflow, and no unknown run since the first report of it. */
  ghost predicate IsSound(pull: Pull, l: Lineage, reports: seq<Check>, e: Execution) {
    && (exists run :: IsTheNewest(pull, l, e, run))
    && (exists k: nat, run :: IsFirstReport(pull, l, reports, e.workflowId, k, run) && !UnknownSince(pull, l, run.runId))
  }

  /** Report c is covered: the execution of its workflow names its context and App, and is not older than its run. */
  ghost predicate Covers(pull: Pull, l: Lineage, e: Execution, c: Check) {
    && ReportsWorkflow(pull, l, c, e.workflowId)
    && c.name in e.contexts && c.appId == Some(e.appId)
    && c.RunId().Some? && c.RunId().value <= e.runId
  }

  lemma SelectedIsSound(pull: Pull, policy: Policy, gate: Option<string>, l: Lineage, reports: seq<Check>,
                        anchors: map<nat, Anchor>, ids: seq<nat>, es: seq<Execution>, i: nat)
    requires Selected(pull, policy, gate, l, reports, anchors, ids, es) && i < |ids|
    ensures |es| == |ids| && es[i].workflowId == ids[i] && IsSound(pull, l, reports, es[i])
  {
    ExecutionAt(pull, l, anchors, ids, i);
    assert ids[i] in ids;
    AnchorsAreKeyed(pull, l, reports);
    var run := NewestExecutionIsTheNewest(pull, anchors[ids[i]], l);
    assert IsTheNewest(pull, l, es[i], run);
    var k := AnchorsKeepTheFirstReport(pull, l, reports, ids[i]);
    assert IsFirstReport(pull, l, reports, es[i].workflowId, k, anchors[ids[i]].run);
  }

  lemma ReportIsCovered(pull: Pull, policy: Policy, gate: Option<string>, l: Lineage, reports: seq<Check>,
                        anchors: map<nat, Anchor>, ids: seq<nat>, es: seq<Execution>, k: nat, id: nat) returns (i: nat)
    requires Selected(pull, policy, gate, l, reports, anchors, ids, es)
    requires k < |reports| && ReportsWorkflow(pull, l, reports[k], id)
    ensures i < |es| && Covers(pull, l, es[i], reports[k])
  {
    var c := reports[k];
    EveryReportIsAnchored(pull, l, reports, k);
    AnchorsAreKeyed(pull, l, reports);
    assert id in ids;
    i :| 0 <= i < |ids| && ids[i] == id;
    ExecutionAt(pull, l, anchors, ids, i);
    var run := NewestExecutionIsTheNewest(pull, anchors[id], l);
    var reported := CheckAnchor(pull, c, l).value.value.run;
    ReportedRunIsKnown(pull, l, c, id, reported);
    ReportedApp(pull, l, c);
  }

  lemma ReportedApp(pull: Pull, l: Lineage, c: Check)
    requires CheckAnchor(pull, c, l).Ok? && CheckAnchor(pull, c, l).value.Some?
    ensures c.appId == Some(CheckAnchor(pull, c, l).value.value.appId)
  {
  }

  /**
   A selection has one execution per workflow, each the unique greatest known run of its
   workflow on the head. Every required name is reported, and every applicable report
   that Actions made is covered by an execution that is not older.
   */
  lemma SelectionIsNewestAndCovers(pull: Pull, policy: Policy, gate: Option<string>, l: Lineage)
    requires Selection(pull, policy, gate, l).Ok?
    ensures
      var required := Requirements(policy.checks, policy.contexts);
      var names := NamesToCover(required, gate);
      var reports := Reports(pull, required, names);
      var es := Selection(pull, policy, gate, l).value;
      && AllReported(pull, required, names)
      && (forall i, j :: 0 <= i < j < |es| ==> es[i].workflowId < es[j].workflowId)
      && (forall i :: 0 <= i < |es| ==> IsSound(pull, l, reports, es[i]))
      && (forall k: nat, id :: k < |reports| && ReportsWorkflow(pull, l, reports[k], id) ==>
            exists i :: 0 <= i < |es| && Covers(pull, l, es[i], reports[k]))
  {
    var required := Requirements(policy.checks, policy.contexts);
    var reports := Reports(pull, required, NamesToCover(required, gate));
    var es := Selection(pull, policy, gate, l).value;
    if gate.Some? || required != [] {
      var anchors, ids := SelectionHasParts(pull, policy, gate, l);
      forall i | 0 <= i < |es|
        ensures i < |ids| && es[i].workflowId == ids[i] && IsSound(pull, l, reports, es[i])
      {
        LengthsAgree(pull, l, anchors, ids);
        SelectedIsSound(pull, policy, gate, l, reports, anchors, ids, es, i);
      }
      forall k: nat, id | k < |reports| && ReportsWorkflow(pull, l, reports[k], id)
        ensures exists i :: 0 <= i < |es| && Covers(pull, l, es[i], reports[k])
      {
        var i := ReportIsCovered(pull, policy, gate, l, reports, anchors, ids, es, k, id);
      }
    }
  }

  /** Which reports there are: current, of a name to cover, and applicable. */
  lemma {:induction false} ReportsAreTheApplicableOnes(pull: Pull, required: seq<Required>, names: seq<string>, c: Check)
    ensures c in Reports(pull, required, names) <==>
      c in LatestChecks(pull.checks) && c.name in names && Applicable(pull, required, c.name, c)
  {
    if names != [] {
      var (some, name) := (names[..|names| - 1], names[|names| - 1]);
      ReportsAreTheApplicableOnes(pull, required, some, c);
      ApplicableIsAFilter(pull, required, name, LatestChecks(pull.checks), c);
      assert names == some + [name];
    }
  }

  lemma {:induction false} ApplicableIsAFilter(pull: Pull, required: seq<Required>, name: string, checks: seq<Check>, c: Check)
    ensures c in ApplicableChecks(pull, required, name, checks) <==> c in checks && Applicable(pull, required, name, c)
  {
    if checks != [] {
      ApplicableIsAFilter(pull, required, name, checks[1..], c);
    }
  }

  // ----- the order of the lineage -----

  predicate SameLineage(a: Lineage, b: Lineage) {
    && a.complete == b.complete && a.headSha == b.headSha
    && multiset(a.runs) == multiset(b.runs) && multiset(a.suites) == multiset(b.suites)
  }

  lemma SameElements<T>(a: seq<T>, b: seq<T>)
    requires multiset(a) == multiset(b)
    ensures forall x :: x in a <==> x in b
  {
    forall x
      ensures x in a <==> x in b
    {
      assert x in multiset(a) <==> x in multiset(b);
    }
  }

  lemma TwoPlaces<T>(s: seq<T>, i: nat, j: nat)
    requires i < j < |s| && s[i] == s[j]
    ensures multiset(s)[s[i]] >= 2
  {
    assert s == s[..j] + [s[j]] + s[j + 1..];
    assert s[i] in multiset(s[..j]) by { assert s[..j][i] == s[i]; }
  }

  lemma {:induction false} PlacesOf<T>(s: seq<T>, x: T) returns (i: nat, j: nat)
    requires multiset(s)[x] >= 2
    ensures i < j < |s| && s[i] == x && s[j] == x
  {
    var last := |s| - 1;
    assert s == s[..last] + [s[last]];
    if multiset(s[..last])[x] >= 2 {
      i, j := PlacesOf(s[..last], x);
    } else {
      assert x in multiset(s[..last]);
      i :| 0 <= i < last && s[i] == x;
      j := last;
    }
  }

  lemma UniqueRunsInAnyOrder(a: seq<Run>, b: seq<Run>)
    requires multiset(a) == multiset(b) && UniqueRuns(a)
    ensures UniqueRuns(b)
  {
    SameElements(a, b);
    forall i, j | 0 <= i < j < |b|
      ensures b[i].runId != b[j].runId
    {
      if b[i] == b[j] {
        TwoPlaces(b, i, j);
        var p, q := PlacesOf(a, b[i]);
        assert false;
      }
      assert b[i] in a && b[j] in a;
    }
  }

  lemma UniqueSuitesInAnyOrder(a: seq<Suite>, b: seq<Suite>)
    requires multiset(a) == multiset(b) && UniqueSuites(a)
    ensures UniqueSuites(b)
  {
    SameElements(a, b);
    forall i, j | 0 <= i < j < |b|
      ensures b[i].id != b[j].id
    {
      if b[i] == b[j] {
        TwoPlaces(b, i, j);
        var p, q := PlacesOf(a, b[i]);
        assert false;
      }
      assert b[i] in a && b[j] in a;
    }
  }

  lemma SuitesDiffer(suites: seq<Suite>, a: Suite, b: Suite)
    requires UniqueSuites(suites) && a in suites && b in suites && a != b
    ensures a.id != b.id
  {
    var i :| 0 <= i < |suites| && suites[i] == a;
    var j :| 0 <= j < |suites| && suites[j] == b;
  }

  lemma FindSuiteInAnyOrder(a: seq<Suite>, b: seq<Suite>, id: Option<nat>, head: Option<string>)
    requires multiset(a) == multiset(b) && UniqueSuites(a)
    ensures FindSuite(a, id, head) == FindSuite(b, id, head)
  {
    SameElements(a, b);
    var (x, y) := (FindSuite(a, id, head), FindSuite(b, id, head));
    if x.Some? && y.Some? && x != y {
      SuitesDiffer(a, x.value, y.value);
    }
  }

  lemma FindRunInAnyOrder(a: seq<Run>, b: seq<Run>, id: nat, suiteId: nat, head: string)
    requires multiset(a) == multiset(b) && UniqueRuns(a)
    ensures FindRun(a, id, suiteId, head) == FindRun(b, id, suiteId, head)
  {
    SameElements(a, b);
  }

  lemma CheckAnchorInAnyOrder(pull: Pull, c: Check, a: Lineage, b: Lineage)
    requires SameLineage(a, b) && ValidLineage(pull, a)
    ensures CheckAnchor(pull, c, a) == CheckAnchor(pull, c, b)
  {
    var head := pull.binding.headSha;
    FindSuiteInAnyOrder(a.suites, b.suites, c.checkSuiteId, Some(head));
    var suite := FindSuite(a.suites, c.checkSuiteId, Some(head));
    if suite.Some? && c.RunId().Some? {
      FindRunInAnyOrder(a.runs, b.runs, c.RunId().value, suite.value.id, head);
    }
  }

  lemma {:induction false} AnchorsInAnyOrder(pull: Pull, a: Lineage, b: Lineage, reports: seq<Check>)
    requires SameLineage(a, b) && ValidLineage(pull, a)
    ensures AnchorsOf(pull, a, reports) == AnchorsOf(pull, b, reports)
  {
    if reports != [] {
      AnchorsInAnyOrder(pull, a, b, reports[..|reports| - 1]);
      CheckAnchorInAnyOrder(pull, reports[|reports| - 1], a, b);
    }
  }

  lemma UnknownInAnyOrder(pull: Pull, a: Lineage, b: Lineage, runId: nat)
    requires SameLineage(a, b) && UnknownSince(pull, a, runId)
    ensures UnknownSince(pull, b, runId)
  {
    SameElements(a.runs, b.runs);
    var i :| 0 <= i < |a.runs| && a.runs[i].headSha == pull.binding.headSha && a.runs[i].runId >= runId && a.runs[i].execution.None?;
    assert a.runs[i] in b.runs;
    var j :| 0 <= j < |b.runs| && b.runs[j] == a.runs[i];
  }

  lemma NewestInAnyOrder(pull: Pull, workflowId: nat, a: Lineage, b: Lineage)
    requires SameLineage(a, b) && ValidLineage(pull, a)
    ensures Newest(pull, workflowId, a.runs) == Newest(pull, workflowId, b.runs)
  {
    SameElements(a.runs, b.runs);
    NewestIsGreatest(pull, workflowId, a.runs);
    NewestIsGreatest(pull, workflowId, b.runs);
    var (x, y) := (Newest(pull, workflowId, a.runs), Newest(pull, workflowId, b.runs));
    if x.Some? && y.Some? {
      GreatestIsUnique(pull, a, x.value, y.value);
    }
  }

  lemma GreatestIsUnique(pull: Pull, l: Lineage, x: Run, y: Run)
    requires ValidLineage(pull, l) && x in l.runs && y in l.runs && x.execution.Some? && y.execution.Some?
    requires KeyAtLeast(x, y) && KeyAtLeast(y, x)
    ensures x == y
  {
    if x != y {
      RunsDiffer(pull, l, x, y);
    }
  }

  lemma NewestExecutionInAnyOrder(pull: Pull, anchor: Anchor, a: Lineage, b: Lineage)
    requires SameLineage(a, b) && ValidLineage(pull, a)
    ensures NewestExecution(pull, anchor, a) == NewestExecution(pull, anchor, b)
  {
    if UnknownSince(pull, a, anchor.run.runId) {
      UnknownInAnyOrder(pull, a, b, anchor.run.runId);
    }
    if UnknownSince(pull, b, anchor.run.runId) {
      UnknownInAnyOrder(pull, b, a, anchor.run.runId);
    }
    NewestInAnyOrder(pull, anchor.workflowId, a, b);
    var newest := Newest(pull, anchor.workflowId, a.runs);
    if newest.Some? {
      FindSuiteInAnyOrder(a.suites, b.suites, Some(newest.value.checkSuiteId), None);
    }
  }

  lemma {:induction false} ExecutionsInAnyOrder(pull: Pull, anchors: map<nat, Anchor>, ids: seq<nat>, a: Lineage, b: Lineage)
    requires SameLineage(a, b) && ValidLineage(pull, a) && forall id :: id in ids ==> id in anchors
    ensures Executions(pull, a, anchors, ids) == Executions(pull, b, anchors, ids)
  {
    if ids != [] {
      ExecutionsInAnyOrder(pull, anchors, ids[..|ids| - 1], a, b);
      NewestExecutionInAnyOrder(pull, anchors[ids[|ids| - 1]], a, b);
    }
  }

  lemma ValidInAnyOrder(pull: Pull, a: Lineage, b: Lineage)
    requires SameLineage(a, b) && ValidLineage(pull, a)
    ensures ValidLineage(pull, b)
  {
    UniqueRunsInAnyOrder(a.runs, b.runs);
    UniqueSuitesInAnyOrder(a.suites, b.suites);
  }

  /** The order in which the provider lists runs and suites changes nothing. */
  lemma LineageOrderIsIrrelevant(pull: Pull, policy: Policy, gate: Option<string>, a: Lineage, b: Lineage)
    requires SameLineage(a, b)
    ensures Selection(pull, policy, gate, a) == Selection(pull, policy, gate, b)
  {
    if ValidLineage(pull, a) {
      ValidInAnyOrder(pull, a, b);
      var required := Requirements(policy.checks, policy.contexts);
      var reports := Reports(pull, required, NamesToCover(required, gate));
      AnchorsInAnyOrder(pull, a, b, reports);
      if AnchorsOf(pull, a, reports).Ok? {
        var anchors := AnchorsOf(pull, a, reports).value;
        ExecutionsInAnyOrder(pull, anchors, Ascending(anchors.Keys), a, b);
      }
    } else if ValidLineage(pull, b) {
      ValidInAnyOrder(pull, b, a);
      assert false;
    }
  }

  // ----- when the reports have anchors -----

  /** Both reports can be anchored, and one workflow has one App. */
  predicate Agree(pull: Pull, l: Lineage, a: Check, b: Check) {
    var (x, y) := (CheckAnchor(pull, a, l), CheckAnchor(pull, b, l));
    && x.Ok? && y.Ok?
    && (x.value.Some? && y.value.Some? && x.value.value.workflowId == y.value.value.workflowId ==>
          x.value.value.appId == y.value.value.appId)
  }

  ghost predicate AllAgree(pull: Pull, l: Lineage, reports: seq<Check>) {
    forall a, b :: a in reports && b in reports ==> Agree(pull, l, a, b)
  }

  lemma AnchoredAgree(pull: Pull, l: Lineage, anchors: map<nat, Anchor>, a: Check, b: Check)
    requires Anchored(pull, l, anchors, a) && Anchored(pull, l, anchors, b)
    ensures Agree(pull, l, a, b)
  {
  }

  lemma AgreeingReportIsAdded(pull: Pull, l: Lineage, anchors: map<nat, Anchor>, first: Check, c: Check, id: nat)
    requires ReportsWorkflow(pull, l, c, id) && id in anchors && Anchored(pull, l, anchors, first)
    requires ReportsWorkflow(pull, l, first, id) && Agree(pull, l, first, c)
    ensures AddReport(pull, l, anchors, c).Ok?
  {
  }

  lemma LastReportIsAdded(pull: Pull, l: Lineage, reports: seq<Check>, c: Check)
    requires AnchorsOf(pull, l, reports).Ok? && Agree(pull, l, c, c) && forall a :: a in reports ==> Agree(pull, l, a, c)
    ensures AddReport(pull, l, AnchorsOf(pull, l, reports).value, c).Ok?
  {
    var anchors := AnchorsOf(pull, l, reports).value;
    var a := CheckAnchor(pull, c, l);
    if a.value.Some? && a.value.value.workflowId in anchors {
      var id := a.value.value.workflowId;
      var k := AnchorsKeepTheFirstReport(pull, l, reports, id);
      EveryReportIsAnchored(pull, l, reports, k);
      AgreeingReportIsAdded(pull, l, anchors, reports[k], c, id);
    }
  }

  /** Anchoring succeeds exactly when any two reports agree: the order of the checks does not matter for that. */
  lemma {:induction false} AnchoringSucceedsIffReportsAgree(pull: Pull, l: Lineage, reports: seq<Check>)
    ensures AnchorsOf(pull, l, reports).Ok? <==> AllAgree(pull, l, reports)
  {
    if reports != [] {
      var (some, c) := (reports[..|reports| - 1], reports[|reports| - 1]);
      AnchoringSucceedsIffReportsAgree(pull, l, some);
      if AnchorsOf(pull, l, reports).Ok? {
        forall a, b | a in reports && b in reports
          ensures Agree(pull, l, a, b)
        {
          var i :| 0 <= i < |reports| && reports[i] == a;
          var j :| 0 <= j < |reports| && reports[j] == b;
          EveryReportIsAnchored(pull, l, reports, i);
          EveryReportIsAnchored(pull, l, reports, j);
          AnchoredAgree(pull, l, AnchorsOf(pull, l, reports).value, a, b);
        }
      }
      if AllAgree(pull, l, reports) {
        assert c in reports && forall a :: a in some ==> a in reports;
        LastReportIsAdded(pull, l, some, c);
      }
    }
  }
}
