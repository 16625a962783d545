/**
 What a selection rests on (src/ci_dispatch.rs, src/model.rs, src/required_runs.rs), in
 the fields of what the provider reported: which checks are current, which reports name
 a workflow, when an execution is selected, and when it has to be started again.
 */
module CiSelectEvidence {
  import opened Common
  import opened Ordering
  import Text
  import opened CiExecutions
  import opened Checks
  import opened CiSelect

  // ----- current checks -----

  /** A time stamp of the check; the provider's zero time is none. */
  predicate IsStampOf(c: Check, stamp: string) {
    && (c.startedAt == Some(stamp) || c.completedAt == Some(stamp))
    && stamp != "" && !("0001-01-01T" <= stamp)
  }

  predicate OfOneWorkflow(a: Check, b: Check) {
    a.providerKind == b.providerKind && a.workflowName == b.workflowName && a.appId == b.appId && a.headOid == b.headOid
  }

  /** Both checks are dated, and a stamp of `newer` is after every stamp of `c`. */
  ghost predicate IsLater(newer: Check, c: Check) {
    && (exists s :: IsStampOf(c, s))
    && exists t :: IsStampOf(newer, t) && forall s :: IsStampOf(c, s) ==> LexLess(s, t)
  }

  predicate IsOfALaterRun(newer: Check, c: Check) {
    c.workflowName.Some? && newer.RunId().Some? && c.RunId().Some? && c.RunId().value < newer.RunId().value
  }

  ghost predicate IsCurrent(c: Check, checks: seq<Check>) {
    && c in checks
    && forall d :: d in checks && OfOneWorkflow(c, d) ==> !(c.name == d.name && IsLater(d, c)) && !IsOfALaterRun(d, c)
  }

  lemma LaterStamp(newer: Check, c: Check)
    ensures IsLater(newer, c) <==>
      newer.ObservedAt().Some? && c.ObservedAt().Some? && LexLess(c.ObservedAt().value, newer.ObservedAt().value)
  {
    GreatestStamp(newer);
    GreatestStamp(c);
    if IsLater(newer, c) {
      var t :| IsStampOf(newer, t) && forall s :: IsStampOf(c, s) ==> LexLess(s, t);
      var (last, latest) := (c.ObservedAt().value, newer.ObservedAt().value);
      assert LexLess(last, t);
      if t != latest {
        LexLessIsTotal(t, latest);
        LexLessIsTransitive(last, t, latest);
      }
    }
    if newer.ObservedAt().Some? && c.ObservedAt().Some? && LexLess(c.ObservedAt().value, newer.ObservedAt().value) {
      var (last, latest) := (c.ObservedAt().value, newer.ObservedAt().value);
      assert IsStampOf(newer, latest) && IsStampOf(c, last);
      forall s | IsStampOf(c, s)
        ensures LexLess(s, latest)
      {
        if s != last {
          LexLessIsTotal(s, last);
          LexLessIsTransitive(s, last, latest);
        }
      }
    }
  }

  lemma GreatestStamp(c: Check)
    ensures c.ObservedAt().None? <==> forall s :: !IsStampOf(c, s)
    ensures c.ObservedAt().Some? ==>
      && IsStampOf(c, c.ObservedAt().value)
      && forall s :: IsStampOf(c, s) ==> !LexLess(c.ObservedAt().value, s)
  {
    if c.startedAt.Some? {
      LexLessIsTotal(c.startedAt.value, c.startedAt.value);
      if c.completedAt.Some? {
        LexLessIsTotal(c.startedAt.value, c.completedAt.value);
        LexLessIsTotal(c.completedAt.value, c.completedAt.value);
      }
    } else if c.completedAt.Some? {
      LexLessIsTotal(c.completedAt.value, c.completedAt.value);
    }
    assert c.startedAt.Some? && Valid(c.startedAt).Some? ==> IsStampOf(c, c.startedAt.value);
    assert c.completedAt.Some? && Valid(c.completedAt).Some? ==> IsStampOf(c, c.completedAt.value);
  }

  /** The latest checks are exactly those that no other check proves to be history. */
  lemma LatestAreTheCurrentOnes(checks: seq<Check>, c: Check)
    ensures c in LatestChecks(checks) <==> IsCurrent(c, checks)
  {
    if IsSuperseded(c, checks) {
      var i :| 0 <= i < |checks| && Supersedes(checks[i], c);
      LaterStamp(checks[i], c);
      assert checks[i] in checks && OfOneWorkflow(c, checks[i]);
    } else {
      forall d | d in checks && OfOneWorkflow(c, d)
        ensures !(c.name == d.name && IsLater(d, c)) && !IsOfALaterRun(d, c)
      {
        LaterStamp(d, c);
        var i :| 0 <= i < |checks| && checks[i] == d;
        assert !Supersedes(checks[i], c);
      }
    }
  }

  const RUNS := "/actions/runs/"

  /** The run number of a check stands in its details URL, up to the next slash or the end. */
  lemma RunIdIsRead(c: Check, before: string, n: nat, after: string)
    requires c.detailsUrl == Some(before + (RUNS + (Text.Print(n) + after)))
    requires forall i :: 0 <= i < |before| ==> !Text.HasAt(c.detailsUrl.value, RUNS, i)
    requires after == "" || after[0] == '/'
    ensures c.RunId() == if n <= U64_MAX then Some(n) else None
  {
    var digits := Text.Print(n);
    AfterTheFirst(before, RUNS, digits + after);
    Text.ValueOfPrint(n);
    assert Text.IsDigit(digits[0]);
    if after == "" {
      assert digits + after == digits;
      NoSlash(digits);
    } else {
      assert digits + after == digits + ['/'] + after[1..];
      NoSlash(digits);
      Text.FindAt(digits, '/', after[1..]);
      assert (digits + after)[..|digits|] == digits;
    }
  }

  lemma NoSlash(digits: string)
    requires Text.AllDigits(digits)
    ensures '/' !in digits && Text.Find(digits, '/') == |digits|
  {
    assert forall i :: 0 <= i < |digits| ==> Text.IsDigit(digits[i]);
  }

  lemma {:induction false} AfterTheFirst(before: string, marker: string, rest: string)
    requires forall i :: 0 <= i < |before| ==> !Text.HasAt(before + (marker + rest), marker, i)
    ensures Text.AfterFirst(before + (marker + rest), marker) == Some(rest)
  {
    var s := before + (marker + rest);
    if before == "" {
      assert s == marker + rest;
    } else {
      assert !Text.HasAt(s, marker, 0);
      assert s[0..0 + |marker|] == s[..|marker|];
      var tail := before[1..] + (marker + rest);
      assert s[1..] == tail;
      forall i | 0 <= i < |before[1..]|
        ensures !Text.HasAt(tail, marker, i)
      {
        assert !Text.HasAt(s, marker, i + 1);
        if i + |marker| <= |tail| {
          assert s[i + 1..i + 1 + |marker|] == tail[i..i + |marker|];
        }
      }
      AfterTheFirst(before[1..], marker, rest);
    }
  }

  // ----- what is required -----

  /** Typed requirements stand; a bare name is required of any App unless some typed one refines it. */
  lemma {:induction false} BareNamesAreRefined(typed: seq<Required>, contexts: seq<string>, r: Required)
    decreases |contexts|
    ensures r in Requirements(typed, contexts) <==>
      r in typed || (r.appId.None? && r.context in contexts && forall t :: t in typed ==> t.context != r.context)
  {
    if contexts != [] {
      var bare := Required(contexts[0], None);
      if Declares(typed, contexts[0]) {
        var i :| 0 <= i < |typed| && typed[i].context == contexts[0];
        assert typed[i] in typed;
        BareNamesAreRefined(typed, contexts[1..], r);
      } else {
        assert forall t :: t in typed ==> t.context != contexts[0];
        BareNamesAreRefined(typed + [bare], contexts[1..], r);
        assert forall t :: t in typed + [bare] <==> t in typed || t == bare;
        assert bare in typed + [bare];
      }
    }
  }

  /** A check of the head under some requirement of its name. */
  predicate Answers(c: Check, r: Required, head: string) {
    && c.name == r.context && c.providerKind != Some("WorkflowRunLineage")
    && (if r.appId.None? then c.headOid in {None, Some(head)} else c.appId == r.appId && c.headOid == Some(head))
  }

  /**
   The reports of a name: its current checks, and if the name is required, only those that
   answer a requirement. So a foreign App or another head cannot stand in.
   */
  lemma ReportsAnswerARequirement(pull: Pull, required: seq<Required>, names: seq<string>, c: Check)
    ensures c in Reports(pull, required, names) <==>
      && IsCurrent(c, pull.checks) && c.name in names
      && ((exists r :: r in required && r.context == c.name) ==>
            exists r :: r in required && Answers(c, r, pull.binding.headSha))
  {
    ReportsAreTheApplicableOnes(pull, required, names, c);
    LatestAreTheCurrentOnes(pull.checks, c);
    if r :| r in required && r.context == c.name {
      assert exists i :: 0 <= i < |required| && required[i] == r;
      assert Declares(required, c.name);
    }
    if Declares(required, c.name) {
      var i :| 0 <= i < |required| && required[i].context == c.name;
      assert required[i] in required;
    }
    if r :| r in required && Answers(c, r, pull.binding.headSha) {
      var i :| 0 <= i < |required| && required[i] == r;
      assert required[i].Matches(c, pull.binding.headSha);
    }
    if i :| 0 <= i < |required| && required[i].context == c.name && required[i].Matches(c, pull.binding.headSha) {
      assert required[i] in required && Answers(c, required[i], pull.binding.headSha);
    }
  }

  // ----- which reports name a workflow -----

  /** The suite of a check run on this head. */
  predicate IsSuiteOf(pull: Pull, l: Lineage, c: Check, s: Suite) {
    && c.providerKind == Some("CheckRun")
    && s in l.suites && c.checkSuiteId == Some(s.id) && s.headSha == pull.binding.headSha
  }

  /** The run behind a check: of its suite, on its head, of its number and its workflow name, fully identified. */
  predicate IsRunBehind(pull: Pull, l: Lineage, c: Check, s: Suite, r: Run) {
    && IsSuiteOf(pull, l, c, s) && s.appSlug == "github-actions"
    && c.appId.Some? && c.appId.value != 0 && c.headOid == Some(pull.binding.headSha)
    && r in l.runs && c.RunId() == Some(r.runId) && r.checkSuiteId == s.id && r.headSha == pull.binding.headSha
    && r.execution.Some? && r.execution.value.workflowId != 0 && r.execution.value.runAttempt != 0
    && r.workflowName != "" && c.workflowName == Some(r.workflowName)
  }

  /** A report that names no workflow is a status, or a check run of a suite of another App. */
  lemma ForeignReportsNameNoWorkflow(pull: Pull, l: Lineage, c: Check)
    requires ValidLineage(pull, l)
    ensures CheckAnchor(pull, c, l) == Ok(None) <==>
      || c.providerKind == Some("StatusContext")
      || exists s :: IsSuiteOf(pull, l, c, s) && s.appSlug != "github-actions"
  {
    TheSuite(pull, l, c);
  }

  lemma TheSuite(pull: Pull, l: Lineage, c: Check)
    requires ValidLineage(pull, l)
    ensures
      var found := FindSuite(l.suites, c.checkSuiteId, Some(pull.binding.headSha));
      && (found.Some? && c.providerKind == Some("CheckRun") ==> IsSuiteOf(pull, l, c, found.value))
      && forall s :: IsSuiteOf(pull, l, c, s) ==> found == Some(s)
  {
    var found := FindSuite(l.suites, c.checkSuiteId, Some(pull.binding.headSha));
    forall s | IsSuiteOf(pull, l, c, s)
      ensures found == Some(s)
    {
      assert Fits(s, c.checkSuiteId, Some(pull.binding.headSha));
      if found.value != s {
        SuitesDiffer(l.suites, found.value, s);
      }
    }
  }

  /** A report names a workflow exactly when there is a run behind it, and that run is its anchor. */
  lemma ReportsNameTheRunBehindThem(pull: Pull, l: Lineage, c: Check, a: Anchor)
    requires ValidLineage(pull, l)
    ensures CheckAnchor(pull, c, l) == Ok(Some(a)) <==>
      && (exists s :: IsRunBehind(pull, l, c, s, a.run))
      && a == Anchor(c.appId.value, a.run.execution.value.workflowId, a.run, [])
  {
    TheSuite(pull, l, c);
    if s :| IsRunBehind(pull, l, c, s, a.run) {
      TheRun(pull, l, c, s, a.run);
    }
    if CheckAnchor(pull, c, l) == Ok(Some(a)) {
      var s := FindSuite(l.suites, c.checkSuiteId, Some(pull.binding.headSha)).value;
      assert IsRunBehind(pull, l, c, s, a.run);
    }
  }

  lemma TheRun(pull: Pull, l: Lineage, c: Check, s: Suite, r: Run)
    requires ValidLineage(pull, l) && IsRunBehind(pull, l, c, s, r)
    ensures FindRun(l.runs, r.runId, s.id, pull.binding.headSha) == Some(r)
  {
    var found := FindRun(l.runs, r.runId, s.id, pull.binding.headSha);
    if found.value != r {
      RunsDiffer(pull, l, found.value, r);
    }
  }

  // ----- which execution is selected -----

  /** A current check of the execution has failed. */
  ghost predicate HasFailed(pull: Pull, e: Execution, c: Check) {
    && IsCurrent(c, pull.checks) && c.name in e.contexts
    && c.appId == Some(e.appId) && c.checkSuiteId == Some(e.checkSuiteId)
    && c.headOid == Some(pull.binding.headSha) && c.RunId() == Some(e.runId)
    && c.state in {Failure, Cancelled, TimedOut, ActionRequired}
  }

  /** Among the pull requests of the run this number occurs once, with this very head and base. */
  predicate BindsOnly(binding: PullBinding, bindings: seq<PullBinding>) {
    exists k :: 0 <= k < |bindings| && bindings[k] == binding
      && forall j :: 0 <= j < |bindings| && j != k ==> bindings[j].number != binding.number
  }

  const IDLE := ["queued", "requested", "waiting", "pending", "in_progress"]
  const ENDED := ["failure", "cancelled", "timed_out", "action_required", "neutral", "skipped"]

  /** The state of a run is one that the dispatch knows: under way without a conclusion, or completed with a known one. */
  predicate IsKnownState(status: string, conclusion: string, restart: bool) {
    || (status in IDLE && conclusion == "")
    || (status == "completed" && (conclusion in ENDED || (conclusion == "success" && !restart)))
  }

  /** Run r of the workflow gives the execution e. */
  ghost predicate Gives(pull: Pull, l: Lineage, r: Run, e: Execution) {
    && r in l.runs && r.headSha == pull.binding.headSha && r.execution.Some?
    && (exists s :: s in l.suites && s.id == r.checkSuiteId && s.headSha == pull.binding.headSha && s.appSlug == "github-actions")
    && r.runId != 0 && r.checkSuiteId != 0 && r.workflowName != "" && r.event != ""
    && e.appId != 0 && e.workflowId != 0 && e.runAttempt != 0
    && BindsOnly(pull.binding, r.execution.value.pullRequests)
    && e.pullRequest == pull.binding && e.appSlug == "github-actions"
    && e.workflowId == r.execution.value.workflowId && e.runAttempt == r.execution.value.runAttempt
    && e.workflowName == r.workflowName && e.runId == r.runId && e.checkSuiteId == r.checkSuiteId
    && e.event == r.event && e.status == r.status && e.conclusion == r.conclusion
    && (e.restartRequired <==> exists c :: HasFailed(pull, e, c))
    && IsKnownState(e.status, e.conclusion, e.restartRequired)
  }

  lemma {:induction false} BoundOnce(binding: PullBinding, bindings: seq<PullBinding>)
    ensures BoundTo(binding.number, bindings) == [] <==> forall j :: 0 <= j < |bindings| ==> bindings[j].number != binding.number
    ensures BoundTo(binding.number, bindings) == [binding] <==> BindsOnly(binding, bindings)
  {
    if bindings != [] {
      var (first, rest) := (bindings[0], bindings[1..]);
      BoundOnce(binding, rest);
      assert forall j :: 0 <= j < |rest| ==> rest[j] == bindings[j + 1];
      assert forall j :: 1 <= j < |bindings| ==> bindings[j] == rest[j - 1];
      if first.number == binding.number {
        if BoundTo(binding.number, bindings) == [binding] {
          assert BoundTo(binding.number, bindings)[0] == first;
          assert |BoundTo(binding.number, rest)| == 0;
        }
      } else {
        BoundLater(binding, bindings);
      }
    }
  }

  lemma BoundLater(binding: PullBinding, bindings: seq<PullBinding>)
    requires bindings != [] && bindings[0].number != binding.number
    ensures BindsOnly(binding, bindings) <==> BindsOnly(binding, bindings[1..])
  {
    var rest := bindings[1..];
    if k :| 0 <= k < |bindings| && bindings[k] == binding
            && forall j :: 0 <= j < |bindings| && j != k ==> bindings[j].number != binding.number {
      assert rest[k - 1] == binding;
      assert forall j :: 0 <= j < |rest| && j != k - 1 ==> rest[j] == bindings[j + 1];
    }
    if k :| 0 <= k < |rest| && rest[k] == binding
            && forall j :: 0 <= j < |rest| && j != k ==> rest[j].number != binding.number {
      assert bindings[k + 1] == binding;
      assert forall j :: 1 <= j < |bindings| && j != k + 1 ==> bindings[j] == rest[j - 1];
    }
  }

  lemma RestartIsForFailure(pull: Pull, r: Run, s: Suite, e: Execution)
    requires s.id == e.checkSuiteId && r.runId == e.runId
    ensures RestartRequired(pull, r, s, e.appId, e.contexts) <==> exists c :: HasFailed(pull, e, c)
  {
    forall c
      ensures c in LatestChecks(pull.checks) <==> IsCurrent(c, pull.checks)
    {
      LatestAreTheCurrentOnes(pull.checks, c);
    }
    if c :| HasFailed(pull, e, c) {
      assert c in LatestChecks(pull.checks);
    }
    if RestartRequired(pull, r, s, e.appId, e.contexts) {
      var c :| c in LatestChecks(pull.checks) && c.name in e.contexts && c.appId == Some(e.appId) && c.checkSuiteId == Some(s.id)
        && c.headOid == Some(pull.binding.headSha) && c.RunId() == Some(r.runId)
        && (c.state.Failure? || c.state.Cancelled? || c.state.TimedOut? || c.state.ActionRequired?);
      assert HasFailed(pull, e, c);
    }
  }

  /** No run of the workflow on this head is newer than r. */
  ghost predicate IsNewestOf(pull: Pull, l: Lineage, r: Run, workflowId: nat) {
    forall x :: x in l.runs && x.headSha == pull.binding.headSha && x.execution.Some? && x.execution.value.workflowId == workflowId ==>
      x == r || x.runId < r.runId
  }

  /** Every run on this head from number `first` on is identified. */
  ghost predicate AllIdentified(pull: Pull, l: Lineage, first: nat) {
    forall x :: x in l.runs && x.headSha == pull.binding.headSha && x.runId >= first ==> x.execution.Some?
  }

  lemma UnknownIs(pull: Pull, l: Lineage, first: nat)
    ensures UnknownSince(pull, l, first) <==> !AllIdentified(pull, l, first)
  {
    if !AllIdentified(pull, l, first) {
      var x :| x in l.runs && x.headSha == pull.binding.headSha && x.runId >= first && x.execution.None?;
      var i :| 0 <= i < |l.runs| && l.runs[i] == x;
    }
  }

  lemma StateIsKnown(e: Execution)
    ensures e.Reusable() || e.Requestable() <==> IsKnownState(e.status, e.conclusion, e.restartRequired)
    ensures e.Requestable() <==> e.restartRequired && e.status == "completed" && e.conclusion in ENDED
    ensures e.Requestable() ==> !e.Reusable()
  {
    assert IDLE == RUNNING && ENDED == RESTARTABLE;
    assert "completed"[0] == 'c' && forall s :: s in IDLE ==> s[0] != 'c';
    assert "success"[1] == 'u' && forall s :: s in ENDED ==> s[1] != 'u';
  }

  lemma TheNewest(pull: Pull, l: Lineage, r: Run, workflowId: nat)
    requires ValidLineage(pull, l)
    ensures Newest(pull, workflowId, l.runs) == Some(r) <==>
      r in l.runs && IsRunOf(pull, workflowId, r) && IsNewestOf(pull, l, r, workflowId)
  {
    NewestIsGreatest(pull, workflowId, l.runs);
    var newest := Newest(pull, workflowId, l.runs);
    if newest == Some(r) {
      forall x | x in l.runs && IsRunOf(pull, workflowId, x) && x != r
        ensures x.runId < r.runId
      {
        RunsDiffer(pull, l, x, r);
      }
    } else if newest.Some? && r in l.runs && IsRunOf(pull, workflowId, r) {
      RunsDiffer(pull, l, newest.value, r);
    }
  }

  lemma TheSuiteOfTheRun(pull: Pull, l: Lineage, id: nat, s: Suite)
    requires ValidLineage(pull, l)
    ensures FindSuite(l.suites, Some(id), None) == Some(s) <==> s in l.suites && s.id == id
  {
    var found := FindSuite(l.suites, Some(id), None);
    if s in l.suites && s.id == id {
      assert Fits(s, Some(id), None);
      if found.value != s {
        SuitesDiffer(l.suites, found.value, s);
      }
    }
  }

  lemma RunGives(pull: Pull, l: Lineage, r: Run, s: Suite, appId: nat, contexts: seq<string>, e: Execution)
    requires ValidLineage(pull, l) && r in l.runs && s in l.suites && s.id == r.checkSuiteId
    ensures FromRun(pull, r, s, appId, contexts) == Ok(e) <==> Gives(pull, l, r, e) && e.appId == appId && e.contexts == contexts
  {
    if r.execution.Some? {
      BoundOnce(pull.binding, r.execution.value.pullRequests);
    }
    StateIsKnown(e);
    if s.id == e.checkSuiteId && r.runId == e.runId {
      RestartIsForFailure(pull, r, s, e);
    }
    if Gives(pull, l, r, e) {
      var t :| t in l.suites && t.id == r.checkSuiteId && t.headSha == pull.binding.headSha && t.appSlug == "github-actions";
      if s != t {
        SuitesDiffer(l.suites, s, t);
      }
    }
  }

  /**
   An anchor selects an execution exactly when every run since the anchored one is
   identified, and the newest run of the workflow gives it.
   */
  lemma NewestRunGivesTheExecution(pull: Pull, l: Lineage, a: Anchor, e: Execution)
    requires ValidLineage(pull, l)
    ensures NewestExecution(pull, a, l) == Ok(e) <==>
      && AllIdentified(pull, l, a.run.runId)
      && e.appId == a.appId && e.workflowId == a.workflowId && e.contexts == a.contexts
      && exists r :: Gives(pull, l, r, e) && IsNewestOf(pull, l, r, e.workflowId)
  {
    UnknownIs(pull, l, a.run.runId);
    if NewestExecution(pull, a, l) == Ok(e) {
      var r := Newest(pull, a.workflowId, l.runs).value;
      TheNewest(pull, l, r, a.workflowId);
      RunGives(pull, l, r, FindSuite(l.suites, Some(r.checkSuiteId), None).value, a.appId, a.contexts, e);
    }
    if e.appId == a.appId && e.workflowId == a.workflowId && e.contexts == a.contexts {
      if r :| Gives(pull, l, r, e) && IsNewestOf(pull, l, r, e.workflowId) {
        TheNewest(pull, l, r, a.workflowId);
        var s :| s in l.suites && s.id == r.checkSuiteId && s.headSha == pull.binding.headSha && s.appSlug == "github-actions";
        TheSuiteOfTheRun(pull, l, r.checkSuiteId, s);
        RunGives(pull, l, r, s, a.appId, a.contexts, e);
      }
    }
  }

  /**
   A selected execution has to be started again exactly when one of its current checks has
   failed. Then its run, if it is completed, is requested, and never taken for reusable.
   */
  lemma FailedWorkIsRestarted(pull: Pull, policy: Policy, gate: Option<string>, l: Lineage, e: Execution)
    requires Selection(pull, policy, gate, l).Ok? && e in Selection(pull, policy, gate, l).value
    ensures e.restartRequired <==> exists c :: HasFailed(pull, e, c)
    ensures exists r :: Gives(pull, l, r, e) && IsNewestOf(pull, l, r, e.workflowId)
    ensures e.Requestable() <==> (exists c :: HasFailed(pull, e, c)) && e.status == "completed" && e.conclusion in ENDED
    ensures e.Reusable() <==> !e.Requestable()
  {
    var es := Selection(pull, policy, gate, l).value;
    var i :| 0 <= i < |es| && es[i] == e;
    var anchors, ids := SelectionHasParts(pull, policy, gate, l);
    LengthsAgree(pull, l, anchors, ids);
    ExecutionAt(pull, l, anchors, ids, i);
    assert ids[i] in ids;
    NewestRunGivesTheExecution(pull, l, anchors[ids[i]], e);
    StateIsKnown(e);
  }

  /** In particular a red required check on a completed run with a failing conclusion. */
  lemma RedChecksAreRunAgain(pull: Pull, policy: Policy, gate: Option<string>, l: Lineage, e: Execution, c: Check)
    requires Selection(pull, policy, gate, l).Ok? && e in Selection(pull, policy, gate, l).value
    requires IsCurrent(c, pull.checks) && c.name in e.contexts
    requires c.appId == Some(e.appId) && c.checkSuiteId == Some(e.checkSuiteId)
    requires c.headOid == Some(pull.binding.headSha) && c.RunId() == Some(e.runId)
    requires c.state in {Failure, Cancelled, TimedOut, ActionRequired}
    requires e.status == "completed" && e.conclusion in ["failure", "cancelled", "timed_out", "action_required"]
    ensures e.restartRequired && e.Requestable() && !e.Reusable()
  {
    FailedWorkIsRestarted(pull, policy, gate, l, e);
    assert HasFailed(pull, e, c);
  }

  /** Nothing is selected under an incomplete policy, or from a lineage that is incomplete, ambiguous or of another head. */
  lemma SelectionNeedsWholeEvidence(pull: Pull, policy: Policy, gate: Option<string>, l: Lineage)
    requires Selection(pull, policy, gate, l).Ok?
    ensures policy.complete && |set r | r in Requirements(policy.checks, policy.contexts)| <= 32
    ensures forall t :: t in policy.checks ==> t.context != "" && t.appId != Some(0)
    ensures forall name :: name in policy.contexts ==> name != ""
    ensures gate.Some? || policy.checks != [] || policy.contexts != [] ==>
      && l.complete && l.headSha == pull.binding.headSha
      && (forall i, j :: 0 <= i < j < |l.runs| ==> l.runs[i].runId != l.runs[j].runId)
      && (forall i, j :: 0 <= i < j < |l.suites| ==> l.suites[i].id != l.suites[j].id)
  {
    forall t | t in policy.checks
      ensures t in Requirements(policy.checks, policy.contexts)
    {
      BareNamesAreRefined(policy.checks, policy.contexts, t);
    }
    forall name | name in policy.contexts
      ensures name != "" && Requirements(policy.checks, policy.contexts) != []
    {
      if t :| t in policy.checks && t.context == name {
        assert t in Requirements(policy.checks, policy.contexts);
      } else {
        BareNamesAreRefined(policy.checks, policy.contexts, Required(name, None));
      }
    }
    if policy.contexts != [] {
      assert policy.contexts[0] in policy.contexts;
    }
    if policy.checks != [] {
      assert policy.checks[0] in policy.checks;
    }
  }
}
