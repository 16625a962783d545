/**
 What the order of the reported checks can change in a selection (src/ci_dispatch.rs).
 The first report of a workflow fixes the run that unknown runs are compared with, so
 two current reports of one workflow and one name may be read in either order.
 */
module CiSelectOrder {
  import opened Common
  import opened Ordering
  import opened CiExecutions
  import opened Checks
  import opened CiSelect
  import Text

  // ----- sorted names -----

  predicate NamesAscend(names: seq<string>) {
    forall i, j :: 0 <= i < j < |names| ==> LexLess(names[i], names[j])
  }

  lemma {:induction false} InsertKeepsAscending(name: string, names: seq<string>)
    requires NamesAscend(names)
    ensures NamesAscend(Insert(name, names))
  {
    if names != [] && names[0] != name {
      LexLessIsTotal(name, names[0]);
      if LexLess(name, names[0]) {
        forall j | 0 < j < |names|
          ensures LexLess(name, names[j])
        {
          LexLessIsTransitive(name, names[0], names[j]);
        }
      } else {
        InsertKeepsAscending(name, names[1..]);
        var r := Insert(name, names[1..]);
        forall j | 0 <= j < |r|
          ensures LexLess(names[0], r[j])
        {
          assert r[j] in r;
          if r[j] != name {
            var k :| 0 <= k < |names[1..]| && names[1..][k] == r[j];
            assert names[k + 1] == r[j];
          }
        }
      }
    }
  }

  lemma {:induction false} NamesOfAscend(required: seq<Required>)
    ensures NamesAscend(NamesOf(required))
  {
    if required != [] {
      NamesOfAscend(required[1..]);
      InsertKeepsAscending(required[0].context, NamesOf(required[1..]));
    }
  }

  lemma NamesToCoverAscend(required: seq<Required>, gate: Option<string>)
    ensures NamesAscend(NamesToCover(required, gate))
  {
    NamesOfAscend(required);
  }

  lemma TailNames(names: seq<string>, n: string)
    requires names != [] && NamesAscend(names)
    ensures n in names[1..] <==> n in names && n != names[0]
  {
    LexLessIsTotal(n, n);
    assert names == [names[0]] + names[1..];
    if n in names[1..] {
      var k :| 0 <= k < |names[1..]| && names[1..][k] == n;
      assert LexLess(names[0], names[k + 1]);
    }
  }

  lemma {:induction false} AscendingNamesAreDetermined(a: seq<string>, b: seq<string>)
    requires NamesAscend(a) && NamesAscend(b) && forall n :: n in a <==> n in b
    ensures a == b
  {
    assert b != [] ==> b[0] in b;
    if a != [] {
      assert a[0] in a && a[0] in b;
      assert b[0] in b && b[0] in a;
      var i :| 0 <= i < |a| && a[i] == b[0];
      var j :| 0 <= j < |b| && b[j] == a[0];
      LexLessIsTotal(a[0], b[0]);
      assert a[0] == b[0];
      forall n
        ensures n in a[1..] <==> n in b[1..]
      {
        TailNames(a, n);
        TailNames(b, n);
      }
      AscendingNamesAreDetermined(a[1..], b[1..]);
      assert a == [a[0]] + a[1..] && b == [b[0]] + b[1..];
    }
  }

  // ----- what does not depend on the order -----

  /** The same pull request with the same checks in any order. */
  ghost predicate SameChecks(p: Pull, q: Pull) {
    p.binding == q.binding && forall c :: c in p.checks <==> c in q.checks
  }

  lemma LatestIgnoresOrder(p: Pull, q: Pull, c: Check)
    requires SameChecks(p, q)
    ensures c in LatestChecks(p.checks) <==> c in LatestChecks(q.checks)
  {
    if IsSuperseded(c, p.checks) {
      var i :| 0 <= i < |p.checks| && Supersedes(p.checks[i], c);
      assert p.checks[i] in q.checks;
    }
    if IsSuperseded(c, q.checks) {
      var i :| 0 <= i < |q.checks| && Supersedes(q.checks[i], c);
      assert q.checks[i] in p.checks;
    }
  }

  lemma ReportsIgnoreOrder(p: Pull, q: Pull, required: seq<Required>, names: seq<string>, c: Check)
    requires SameChecks(p, q)
    ensures c in Reports(p, required, names) <==> c in Reports(q, required, names)
  {
    ReportsAreTheApplicableOnes(p, required, names, c);
    ReportsAreTheApplicableOnes(q, required, names, c);
    LatestIgnoresOrder(p, q, c);
  }

  lemma ReportedIgnoresOrder(p: Pull, q: Pull, required: seq<Required>, name: string)
    requires SameChecks(p, q) && Reported(p, required, name)
    ensures Reported(q, required, name)
  {
    var c := ApplicableChecks(p, required, name, LatestChecks(p.checks))[0];
    ApplicableIsAFilter(p, required, name, LatestChecks(p.checks), c);
    LatestIgnoresOrder(p, q, c);
    ApplicableIsAFilter(q, required, name, LatestChecks(q.checks), c);
  }

  lemma AllReportedIgnoresOrder(p: Pull, q: Pull, required: seq<Required>, names: seq<string>)
    requires SameChecks(p, q)
    ensures AllReported(p, required, names) <==> AllReported(q, required, names)
  {
    forall i | 0 <= i < |names|
      ensures Reported(p, required, names[i]) <==> Reported(q, required, names[i])
    {
      if Reported(p, required, names[i]) {
        ReportedIgnoresOrder(p, q, required, names[i]);
      }
      if Reported(q, required, names[i]) {
        ReportedIgnoresOrder(q, p, required, names[i]);
      }
    }
  }

  lemma AnchorIgnoresOrder(p: Pull, q: Pull, c: Check, l: Lineage)
    requires p.binding == q.binding
    ensures CheckAnchor(p, c, l) == CheckAnchor(q, c, l)
  {
  }

  lemma {:induction false} NewestIgnoresChecks(p: Pull, q: Pull, id: nat, runs: seq<Run>)
    requires p.binding == q.binding
    ensures Newest(p, id, runs) == Newest(q, id, runs)
  {
    if runs != [] {
      NewestIgnoresChecks(p, q, id, runs[..|runs| - 1]);
    }
  }

  lemma RestartIgnoresOrder(p: Pull, q: Pull, r: Run, suite: Suite, appId: nat, contexts: seq<string>)
    requires SameChecks(p, q) && RestartRequired(p, r, suite, appId, contexts)
    ensures RestartRequired(q, r, suite, appId, contexts)
  {
    forall c
      ensures c in LatestChecks(p.checks) <==> c in LatestChecks(q.checks)
    {
      LatestIgnoresOrder(p, q, c);
    }
  }

  lemma KnownExecutionIgnoresOrder(p: Pull, q: Pull, id: nat, appId: nat, contexts: seq<string>, l: Lineage)
    requires SameChecks(p, q)
    ensures KnownExecution(p, id, appId, contexts, l) == KnownExecution(q, id, appId, contexts, l)
  {
    NewestIgnoresChecks(p, q, id, l.runs);
    var newest := Newest(p, id, l.runs);
    if newest.Some? {
      var suite := FindSuite(l.suites, Some(newest.value.checkSuiteId), None);
      if suite.Some? {
        if RestartRequired(p, newest.value, suite.value, appId, contexts) {
          RestartIgnoresOrder(p, q, newest.value, suite.value, appId, contexts);
        }
        if RestartRequired(q, newest.value, suite.value, appId, contexts) {
          RestartIgnoresOrder(q, p, newest.value, suite.value, appId, contexts);
        }
      }
    }
  }

  // ----- the anchors, up to their runs -----

  /** A workflow that some report names. */
  ghost predicate IsReported(pull: Pull, l: Lineage, reports: seq<Check>, id: nat) {
    exists c :: c in reports && ReportsWorkflow(pull, l, c, id)
  }

  ghost predicate NamesWorkflow(pull: Pull, l: Lineage, reports: seq<Check>, id: nat, name: string) {
    exists c :: c in reports && ReportsWorkflow(pull, l, c, id) && c.name == name
  }

  /** An anchor has the App of its reports, and their names in order. */
  ghost predicate IsAnchorOf(pull: Pull, l: Lineage, reports: seq<Check>, id: nat, a: Anchor) {
    && a.workflowId == id
    && NamesAscend(a.contexts) && (forall n :: n in a.contexts <==> NamesWorkflow(pull, l, reports, id, n))
    && forall c :: c in reports && ReportsWorkflow(pull, l, c, id) ==> c.appId == Some(a.appId)
  }

  lemma AddReportKeepsOthers(pull: Pull, l: Lineage, anchors: map<nat, Anchor>, c: Check, id: nat)
    requires AddReport(pull, l, anchors, c).Ok? && !ReportsWorkflow(pull, l, c, id)
    ensures
      var more := AddReport(pull, l, anchors, c).value;
      (id in more <==> id in anchors) && (id in anchors ==> more[id] == anchors[id])
  {
  }

  lemma AddReportInserts(pull: Pull, l: Lineage, anchors: map<nat, Anchor>, c: Check, id: nat)
    requires AddReport(pull, l, anchors, c).Ok? && ReportsWorkflow(pull, l, c, id)
    ensures
      var more := AddReport(pull, l, anchors, c).value;
      && id in more && more[id].contexts == Insert(c.name, if id in anchors then anchors[id].contexts else [])
      && c.appId == Some(more[id].appId) && (id in anchors ==> more[id].appId == anchors[id].appId)
      && (id in anchors ==> more[id].workflowId == anchors[id].workflowId) && (id !in anchors ==> more[id].workflowId == id)
  {
    ReportedApp(pull, l, c);
  }

  lemma {:induction false} AnchorsAreOfTheirReports(pull: Pull, l: Lineage, reports: seq<Check>, id: nat)
    requires AnchorsOf(pull, l, reports).Ok?
    ensures id in AnchorsOf(pull, l, reports).value <==> IsReported(pull, l, reports, id)
    ensures id in AnchorsOf(pull, l, reports).value ==>
      IsAnchorOf(pull, l, reports, id, AnchorsOf(pull, l, reports).value[id])
  {
    if reports != [] {
      var (some, c) := (reports[..|reports| - 1], reports[|reports| - 1]);
      AnchorsAreOfTheirReports(pull, l, some, id);
      assert reports == some + [c];
      assert forall x :: x in reports <==> x in some || x == c;
      var anchors := AnchorsOf(pull, l, some).value;
      if ReportsWorkflow(pull, l, c, id) {
        AddReportInserts(pull, l, anchors, c, id);
        InsertKeepsAscending(c.name, if id in anchors then anchors[id].contexts else []);
        OneMoreNameOfWorkflow(pull, l, some, c, id);
      } else {
        AddReportKeepsOthers(pull, l, anchors, c, id);
        assert forall n :: NamesWorkflow(pull, l, reports, id, n) <==> NamesWorkflow(pull, l, some, id, n);
      }
    }
  }

  lemma OneMoreNameOfWorkflow(pull: Pull, l: Lineage, some: seq<Check>, c: Check, id: nat)
    requires ReportsWorkflow(pull, l, c, id)
    ensures forall n :: NamesWorkflow(pull, l, some + [c], id, n) <==> n == c.name || NamesWorkflow(pull, l, some, id, n)
    ensures IsReported(pull, l, some + [c], id)
  {
    assert c in some + [c];
    assert forall x :: x in some + [c] <==> x in some || x == c;
  }

  lemma AnchorsIgnoreOrder(p: Pull, q: Pull, l: Lineage, some: seq<Check>, other: seq<Check>, id: nat)
    requires p.binding == q.binding && forall c :: c in some <==> c in other
    requires AnchorsOf(p, l, some).Ok? && AnchorsOf(q, l, other).Ok?
    ensures id in AnchorsOf(p, l, some).value <==> id in AnchorsOf(q, l, other).value
    ensures id in AnchorsOf(p, l, some).value ==>
      AnchorsOf(p, l, some).value[id].(run := AnchorsOf(q, l, other).value[id].run) == AnchorsOf(q, l, other).value[id]
  {
    AnchorsAreOfTheirReports(p, l, some, id);
    AnchorsAreOfTheirReports(q, l, other, id);
    forall c
      ensures ReportsWorkflow(p, l, c, id) <==> ReportsWorkflow(q, l, c, id)
    {
      WorkflowIgnoresChecks(p, q, l, c, id);
    }
    assert forall n :: NamesWorkflow(p, l, some, id, n) <==> NamesWorkflow(q, l, other, id, n);
    if id in AnchorsOf(p, l, some).value {
      var (a, b) := (AnchorsOf(p, l, some).value[id], AnchorsOf(q, l, other).value[id]);
      AscendingNamesAreDetermined(a.contexts, b.contexts);
      var c :| c in some && ReportsWorkflow(p, l, c, id);
    }
  }

  lemma AgreementIgnoresOrder(p: Pull, q: Pull, l: Lineage, some: seq<Check>, other: seq<Check>)
    requires p.binding == q.binding && forall c :: c in some <==> c in other
    ensures AnchorsOf(p, l, some).Ok? <==> AnchorsOf(q, l, other).Ok?
  {
    AnchoringSucceedsIffReportsAgree(p, l, some);
    AnchoringSucceedsIffReportsAgree(q, l, other);
    forall a, b
      ensures Agree(p, l, a, b) <==> Agree(q, l, a, b)
    {
      AnchorIgnoresOrder(p, q, a, l);
      AnchorIgnoresOrder(p, q, b, l);
    }
  }

  // ----- the first report of a workflow -----

  /** Reports come name by name. */
  predicate NamesDescendNowhere(reports: seq<Check>) {
    forall i, j :: 0 <= i < j < |reports| ==> !LexLess(reports[j].name, reports[i].name)
  }

  lemma {:induction false} ReportsComeNameByName(pull: Pull, required: seq<Required>, names: seq<string>)
    requires NamesAscend(names)
    ensures NamesDescendNowhere(Reports(pull, required, names))
  {
    if names != [] {
      var (some, name) := (names[..|names| - 1], names[|names| - 1]);
      ReportsComeNameByName(pull, required, some);
      var (front, group) := (Reports(pull, required, some), ApplicableChecks(pull, required, name, LatestChecks(pull.checks)));
      var all := front + group;
      forall i, j | 0 <= i < j < |all|
        ensures !LexLess(all[j].name, all[i].name)
      {
        if j >= |front| {
          ApplicableIsAFilter(pull, required, name, LatestChecks(pull.checks), all[j]);
          assert all[j] in group;
          if i < |front| {
            ReportsAreTheApplicableOnes(pull, required, some, all[i]);
            assert all[i] in front;
            LexLessIsTotal(all[i].name, name);
          } else {
            ApplicableIsAFilter(pull, required, name, LatestChecks(pull.checks), all[i]);
            assert all[i] in group;
            LexLessIsTotal(name, name);
          }
        }
      }
    }
  }

  /** A report of a workflow under the first name that reports it: one of those that may be read first. */
  ghost predicate IsLeading(pull: Pull, l: Lineage, reports: seq<Check>, id: nat, c: Check) {
    && c in reports && ReportsWorkflow(pull, l, c, id)
    && forall x :: x in reports && ReportsWorkflow(pull, l, x, id) ==> !LexLess(x.name, c.name)
  }

  /** A run of unknown identity is not older than the run of this report. */
  predicate IsDoubtful(pull: Pull, l: Lineage, c: Check) {
    c.RunId().Some? && UnknownSince(pull, l, c.RunId().value)
  }

  /** With one name the leading report of the older run is the doubtful one. */
  lemma OlderReportsAreMoreDoubtful(pull: Pull, l: Lineage, a: Check, b: Check)
    requires a.RunId().Some? && b.RunId().Some? && a.RunId().value <= b.RunId().value && IsDoubtful(pull, l, b)
    ensures IsDoubtful(pull, l, a)
  {
  }

  lemma FirstReportLeads(pull: Pull, l: Lineage, reports: seq<Check>, id: nat, k: nat, run: Run)
    requires NamesDescendNowhere(reports) && IsFirstReport(pull, l, reports, id, k, run)
    ensures IsLeading(pull, l, reports, id, reports[k])
    ensures reports[k].RunId() == Some(run.runId)
  {
    ReportedRunIsKnown(pull, l, reports[k], id, run);
    forall x | x in reports && ReportsWorkflow(pull, l, x, id)
      ensures !LexLess(x.name, reports[k].name)
    {
      var j :| 0 <= j < |reports| && reports[j] == x;
      LexLessIsTotal(x.name, x.name);
    }
  }

  // ----- a selection, apart from its first reports -----

  lemma {:induction false} ExecutionsSucceed(pull: Pull, l: Lineage, anchors: map<nat, Anchor>, ids: seq<nat>)
    requires forall id :: id in ids ==> id in anchors
    ensures Executions(pull, l, anchors, ids).Ok? <==> forall id :: id in ids ==> NewestExecution(pull, anchors[id], l).Ok?
  {
    if ids != [] {
      var some := ids[..|ids| - 1];
      ExecutionsSucceed(pull, l, anchors, some);
      assert ids == some + [ids[|ids| - 1]];
    }
  }

  /** The execution of every anchored workflow is known, whatever run its anchor keeps. */
  ghost predicate AllKnown(pull: Pull, l: Lineage, anchors: map<nat, Anchor>) {
    forall id :: id in anchors ==> KnownExecution(pull, id, anchors[id].appId, anchors[id].contexts, l).Ok?
  }

  ghost predicate HasDemand(policy: Policy, gate: Option<string>) {
    gate.Some? || Requirements(policy.checks, policy.contexts) != []
  }

  ghost function ReportsFor(pull: Pull, policy: Policy, gate: Option<string>): seq<Check> {
    var required := Requirements(policy.checks, policy.contexts);
    Reports(pull, required, NamesToCover(required, gate))
  }

  /** All that a selection needs besides its comparison with unknown runs. */
  ghost predicate IsSteady(pull: Pull, policy: Policy, gate: Option<string>, l: Lineage) {
    var required := Requirements(policy.checks, policy.contexts);
    && PolicyComplete(policy) && HasDemand(policy, gate) && ValidLineage(pull, l)
    && AllReported(pull, required, NamesToCover(required, gate))
    && AnchorsOf(pull, l, ReportsFor(pull, policy, gate)).Ok?
    && AllKnown(pull, l, AnchorsOf(pull, l, ReportsFor(pull, policy, gate)).value)
  }

  /** No first report is doubtful. */
  ghost predicate FirstsAreSure(pull: Pull, l: Lineage, reports: seq<Check>)
    requires AnchorsOf(pull, l, reports).Ok?
  {
    forall id :: id in AnchorsOf(pull, l, reports).value ==>
      !UnknownSince(pull, l, AnchorsOf(pull, l, reports).value[id].run.runId)
  }

  lemma AnchorsAreKeyedBy(pull: Pull, l: Lineage, reports: seq<Check>, id: nat)
    requires AnchorsOf(pull, l, reports).Ok? && id in AnchorsOf(pull, l, reports).value
    ensures
      var a := AnchorsOf(pull, l, reports).value[id];
      NewestExecution(pull, a, l) ==
        if UnknownSince(pull, l, a.run.runId) then Unavailable else KnownExecution(pull, id, a.appId, a.contexts, l)
  {
    AnchorsAreKeyed(pull, l, reports);
  }

  /** A selection with a demand succeeds exactly when it is steady and no first report is doubtful. */
  lemma SelectionSucceedsIff(pull: Pull, policy: Policy, gate: Option<string>, l: Lineage)
    requires HasDemand(policy, gate)
    ensures Selection(pull, policy, gate, l).Ok? <==>
      IsSteady(pull, policy, gate, l) && FirstsAreSure(pull, l, ReportsFor(pull, policy, gate))
  {
    var reports := ReportsFor(pull, policy, gate);
    if AnchorsOf(pull, l, reports).Ok? {
      var anchors := AnchorsOf(pull, l, reports).value;
      ExecutionsSucceed(pull, l, anchors, Ascending(anchors.Keys));
      forall id | id in anchors
        ensures NewestExecution(pull, anchors[id], l).Ok? <==>
          !UnknownSince(pull, l, anchors[id].run.runId) && KnownExecution(pull, id, anchors[id].appId, anchors[id].contexts, l).Ok?
      {
        AnchorsAreKeyedBy(pull, l, reports, id);
      }
    }
  }

  lemma SteadyIgnoresOrder(p: Pull, q: Pull, policy: Policy, gate: Option<string>, l: Lineage)
    requires SameChecks(p, q) && IsSteady(p, policy, gate, l)
    ensures IsSteady(q, policy, gate, l)
  {
    var required := Requirements(policy.checks, policy.contexts);
    var names := NamesToCover(required, gate);
    var (some, other) := (ReportsFor(p, policy, gate), ReportsFor(q, policy, gate));
    AllReportedIgnoresOrder(p, q, required, names);
    forall c
      ensures c in some <==> c in other
    {
      ReportsIgnoreOrder(p, q, required, names, c);
    }
    AgreementIgnoresOrder(p, q, l, some, other);
    var (x, y) := (AnchorsOf(p, l, some).value, AnchorsOf(q, l, other).value);
    forall id | id in y
      ensures KnownExecution(q, id, y[id].appId, y[id].contexts, l).Ok?
    {
      AnchorsIgnoreOrder(p, q, l, some, other, id);
      KnownExecutionIgnoresOrder(p, q, id, x[id].appId, x[id].contexts, l);
    }
  }

  lemma {:induction false} ExecutionsIgnoreOrder(p: Pull, q: Pull, l: Lineage, x: map<nat, Anchor>, y: map<nat, Anchor>, ids: seq<nat>)
    requires forall id :: id in ids ==> id in x && id in y && NewestExecution(p, x[id], l) == NewestExecution(q, y[id], l)
    ensures Executions(p, l, x, ids) == Executions(q, l, y, ids)
  {
    if ids != [] {
      ExecutionsIgnoreOrder(p, q, l, x, y, ids[..|ids| - 1]);
      assert ids[|ids| - 1] in ids;
    }
  }

  /** Two orders that both succeed select the same. */
  lemma SuccessIgnoresOrder(p: Pull, q: Pull, policy: Policy, gate: Option<string>, l: Lineage)
    requires SameChecks(p, q) && HasDemand(policy, gate)
    requires Selection(p, policy, gate, l).Ok? && Selection(q, policy, gate, l).Ok?
    ensures Selection(p, policy, gate, l) == Selection(q, policy, gate, l)
  {
    SelectionSucceedsIff(p, policy, gate, l);
    SelectionSucceedsIff(q, policy, gate, l);
    var (some, other) := (ReportsFor(p, policy, gate), ReportsFor(q, policy, gate));
    SameReports(p, q, policy, gate);
    var (x, y) := (AnchorsOf(p, l, some).value, AnchorsOf(q, l, other).value);
    forall id
      ensures id in x <==> id in y
      ensures id in x ==> NewestExecution(p, x[id], l) == NewestExecution(q, y[id], l)
    {
      AnchorsIgnoreOrder(p, q, l, some, other, id);
      if id in x {
        AnchorsAreKeyedBy(p, l, some, id);
        AnchorsAreKeyedBy(q, l, other, id);
        KnownExecutionIgnoresOrder(p, q, id, x[id].appId, x[id].contexts, l);
      }
    }
    assert x.Keys == y.Keys;
    ExecutionsIgnoreOrder(p, q, l, x, y, Ascending(x.Keys));
  }

  lemma SameReports(p: Pull, q: Pull, policy: Policy, gate: Option<string>)
    requires SameChecks(p, q)
    ensures forall c :: c in ReportsFor(p, policy, gate) <==> c in ReportsFor(q, policy, gate)
  {
    var required := Requirements(policy.checks, policy.contexts);
    forall c
      ensures c in ReportsFor(p, policy, gate) <==> c in ReportsFor(q, policy, gate)
    {
      ReportsIgnoreOrder(p, q, required, NamesToCover(required, gate), c);
    }
  }

  // ----- when the order matters -----

  /** One of the reports that may be read first is doubtful, or not. */
  ghost predicate MayBe(pull: Pull, l: Lineage, reports: seq<Check>, id: nat, doubtful: bool) {
    exists c :: IsLeading(pull, l, reports, id, c) && IsDoubtful(pull, l, c) == doubtful
  }

  /**
   Every workflow has a leading report that is not doubtful, and some workflow has one
   that is: a newer and an older run under one name, with a run of unknown identity that
   is not older than the older one.
   */
  ghost predicate Wavers(pull: Pull, l: Lineage, reports: seq<Check>) {
    && (forall id :: IsReported(pull, l, reports, id) ==> MayBe(pull, l, reports, id, false))
    && exists id :: MayBe(pull, l, reports, id, true)
  }

  /** Everything else is in order, and the first reports may be doubtful or not. */
  ghost predicate OrderMatters(pull: Pull, policy: Policy, gate: Option<string>, l: Lineage) {
    IsSteady(pull, policy, gate, l) && Wavers(pull, l, ReportsFor(pull, policy, gate))
  }

  /** The first report decides for its workflow. */
  lemma FirstReportDecides(pull: Pull, policy: Policy, gate: Option<string>, l: Lineage, id: nat)
    requires AnchorsOf(pull, l, ReportsFor(pull, policy, gate)).Ok?
    requires IsReported(pull, l, ReportsFor(pull, policy, gate), id)
    ensures
      var reports := ReportsFor(pull, policy, gate);
      && id in AnchorsOf(pull, l, reports).value
      && MayBe(pull, l, reports, id, UnknownSince(pull, l, AnchorsOf(pull, l, reports).value[id].run.runId))
  {
    var required := Requirements(policy.checks, policy.contexts);
    var reports := ReportsFor(pull, policy, gate);
    AnchorsAreOfTheirReports(pull, l, reports, id);
    NamesToCoverAscend(required, gate);
    ReportsComeNameByName(pull, required, NamesToCover(required, gate));
    var k := AnchorsKeepTheFirstReport(pull, l, reports, id);
    FirstReportLeads(pull, l, reports, id, k, AnchorsOf(pull, l, reports).value[id].run);
  }

  lemma DoubtIgnoresChecks(p: Pull, q: Pull, l: Lineage, c: Check)
    requires p.binding == q.binding
    ensures IsDoubtful(p, l, c) == IsDoubtful(q, l, c)
  {
  }

  lemma MayBeIgnoresOrder(p: Pull, q: Pull, l: Lineage, some: seq<Check>, other: seq<Check>, id: nat, doubtful: bool)
    requires p.binding == q.binding && (forall c :: c in some <==> c in other) && MayBe(p, l, some, id, doubtful)
    ensures MayBe(q, l, other, id, doubtful)
  {
    var c :| IsLeading(p, l, some, id, c) && IsDoubtful(p, l, c) == doubtful;
    LeadingIgnoresOrder(p, q, l, some, other, id, c);
    DoubtIgnoresChecks(p, q, l, c);
  }

  lemma WorkflowIgnoresChecks(p: Pull, q: Pull, l: Lineage, c: Check, id: nat)
    requires p.binding == q.binding
    ensures ReportsWorkflow(p, l, c, id) <==> ReportsWorkflow(q, l, c, id)
  {
    AnchorIgnoresOrder(p, q, c, l);
  }

  lemma LeadingIgnoresOrder(p: Pull, q: Pull, l: Lineage, some: seq<Check>, other: seq<Check>, id: nat, c: Check)
    requires p.binding == q.binding && (forall x :: x in some <==> x in other) && IsLeading(p, l, some, id, c)
    ensures IsLeading(q, l, other, id, c)
  {
    forall x
      ensures ReportsWorkflow(p, l, x, id) <==> ReportsWorkflow(q, l, x, id)
    {
      WorkflowIgnoresChecks(p, q, l, x, id);
    }
  }

  lemma WaveringIgnoresOrder(p: Pull, q: Pull, l: Lineage, some: seq<Check>, other: seq<Check>)
    requires p.binding == q.binding && (forall c :: c in some <==> c in other) && Wavers(p, l, some)
    ensures Wavers(q, l, other)
  {
    forall id | IsReported(q, l, other, id)
      ensures MayBe(q, l, other, id, false)
    {
      var c :| c in other && ReportsWorkflow(q, l, c, id);
      WorkflowIgnoresChecks(p, q, l, c, id);
      MayBeIgnoresOrder(p, q, l, some, other, id, false);
    }
    var id :| MayBe(p, l, some, id, true);
    MayBeIgnoresOrder(p, q, l, some, other, id, true);
  }

  lemma OneOrderIsAsSureAsAnother(p: Pull, q: Pull, policy: Policy, gate: Option<string>, l: Lineage)
    requires SameChecks(p, q) && !Wavers(p, l, ReportsFor(p, policy, gate))
    requires AnchorsOf(p, l, ReportsFor(p, policy, gate)).Ok? && AnchorsOf(q, l, ReportsFor(q, policy, gate)).Ok?
    requires FirstsAreSure(p, l, ReportsFor(p, policy, gate))
    ensures FirstsAreSure(q, l, ReportsFor(q, policy, gate))
  {
    var (some, other) := (ReportsFor(p, policy, gate), ReportsFor(q, policy, gate));
    SameReports(p, q, policy, gate);
    forall id | IsReported(p, l, some, id)
      ensures MayBe(p, l, some, id, false)
    {
      FirstReportDecides(p, policy, gate, l, id);
    }
    forall id | id in AnchorsOf(q, l, other).value
      ensures !UnknownSince(q, l, AnchorsOf(q, l, other).value[id].run.runId)
    {
      AnchorsAreOfTheirReports(q, l, other, id);
      FirstReportDecides(q, policy, gate, l, id);
      if UnknownSince(q, l, AnchorsOf(q, l, other).value[id].run.runId) {
        MayBeIgnoresOrder(q, p, l, other, some, id, true);
      }
    }
  }

  lemma SteadyOrdersAgree(p: Pull, q: Pull, policy: Policy, gate: Option<string>, l: Lineage)
    requires SameChecks(p, q) && IsSteady(p, policy, gate, l) && IsSteady(q, policy, gate, l)
    requires !Wavers(p, l, ReportsFor(p, policy, gate)) && !Wavers(q, l, ReportsFor(q, policy, gate))
    ensures Selection(p, policy, gate, l).Ok? <==> Selection(q, policy, gate, l).Ok?
  {
    SelectionSucceedsIff(p, policy, gate, l);
    SelectionSucceedsIff(q, policy, gate, l);
    if FirstsAreSure(p, l, ReportsFor(p, policy, gate)) {
      OneOrderIsAsSureAsAnother(p, q, policy, gate, l);
    }
    if FirstsAreSure(q, l, ReportsFor(q, policy, gate)) {
      OneOrderIsAsSureAsAnother(q, p, policy, gate, l);
    }
  }

  /** If the order does not matter, every order selects the same. */
  lemma OtherwiseEveryOrderSelectsTheSame(p: Pull, q: Pull, policy: Policy, gate: Option<string>, l: Lineage)
    requires SameChecks(p, q) && !OrderMatters(p, policy, gate, l)
    ensures Selection(p, policy, gate, l) == Selection(q, policy, gate, l)
  {
    if !HasDemand(policy, gate) {
      assert Selection(p, policy, gate, l) == Selection(q, policy, gate, l);
    } else if !IsSteady(p, policy, gate, l) {
      if IsSteady(q, policy, gate, l) {
        SteadyIgnoresOrder(q, p, policy, gate, l);
      }
      SelectionSucceedsIff(p, policy, gate, l);
      SelectionSucceedsIff(q, policy, gate, l);
    } else {
      SteadyIgnoresOrder(p, q, policy, gate, l);
      SameReports(p, q, policy, gate);
      var (some, other) := (ReportsFor(p, policy, gate), ReportsFor(q, policy, gate));
      if Wavers(q, l, other) {
        WaveringIgnoresOrder(q, p, l, other, some);
      }
      SteadyOrdersAgree(p, q, policy, gate, l);
      if Selection(p, policy, gate, l).Ok? {
        SuccessIgnoresOrder(p, q, policy, gate, l);
      }
    }
  }

  // ----- two orders that differ -----

  function Where(pull: Pull, l: Lineage, checks: seq<Check>, doubtful: bool): seq<Check> {
    if checks == [] then [] else
      var rest := Where(pull, l, checks[1..], doubtful);
      if IsDoubtful(pull, l, checks[0]) == doubtful then [checks[0]] + rest else rest
  }

  /** The checks that are not `last` in this sense come first. */
  function Arranged(pull: Pull, l: Lineage, checks: seq<Check>, last: bool): seq<Check> {
    Where(pull, l, checks, !last) + Where(pull, l, checks, last)
  }

  lemma WhereOfCons(pull: Pull, l: Lineage, checks: seq<Check>, doubtful: bool)
    requires checks != []
    ensures
      var rest := Where(pull, l, checks[1..], doubtful);
      Where(pull, l, checks, doubtful) == if IsDoubtful(pull, l, checks[0]) == doubtful then [checks[0]] + rest else rest
  {
  }

  lemma ArrangedIsCons(pull: Pull, l: Lineage, checks: seq<Check>, last: bool)
    requires checks != []
    ensures
      var (front, back) := (Where(pull, l, checks[1..], !last), Where(pull, l, checks[1..], last));
      || Arranged(pull, l, checks, last) == ([checks[0]] + front) + back
      || Arranged(pull, l, checks, last) == front + ([checks[0]] + back)
  {
    WhereOfCons(pull, l, checks, last);
    WhereOfCons(pull, l, checks, !last);
  }

  lemma ConsPermutes<T>(s: seq<T>, t: seq<T>, front: seq<T>, back: seq<T>)
    requires s != [] && multiset(front + back) == multiset(s[1..])
    requires t == ([s[0]] + front) + back || t == front + ([s[0]] + back)
    ensures multiset(t) == multiset(s)
  {
    assert s == [s[0]] + s[1..];
  }

  lemma {:induction false} ArrangingPermutes(pull: Pull, l: Lineage, checks: seq<Check>, last: bool)
    ensures multiset(Arranged(pull, l, checks, last)) == multiset(checks)
  {
    if checks != [] {
      ArrangingPermutes(pull, l, checks[1..], last);
      ArrangedIsCons(pull, l, checks, last);
      ConsPermutes(checks, Arranged(pull, l, checks, last), Where(pull, l, checks[1..], !last), Where(pull, l, checks[1..], last));
    }
  }

  /** Once a check is of the last kind, all later ones are. */
  predicate KindComesLast(pull: Pull, l: Lineage, checks: seq<Check>, last: bool) {
    forall i, j :: 0 <= i < j < |checks| && IsDoubtful(pull, l, checks[i]) == last ==> IsDoubtful(pull, l, checks[j]) == last
  }

  lemma {:induction false} WhereIsOfKind(pull: Pull, l: Lineage, checks: seq<Check>, doubtful: bool)
    ensures AllOfKind(pull, l, Where(pull, l, checks, doubtful), doubtful)
  {
    if checks != [] {
      WhereIsOfKind(pull, l, checks[1..], doubtful);
      WhereOfCons(pull, l, checks, doubtful);
    }
  }

  lemma ArrangedKind(pull: Pull, l: Lineage, checks: seq<Check>, last: bool)
    ensures KindComesLast(pull, l, Arranged(pull, l, checks, last), last)
  {
    var (front, back) := (Where(pull, l, checks, !last), Where(pull, l, checks, last));
    WhereIsOfKind(pull, l, checks, !last);
    WhereIsOfKind(pull, l, checks, last);
    forall i | 0 <= i < |front + back|
      ensures IsDoubtful(pull, l, (front + back)[i]) == last <==> i >= |front|
    {
      assert if i < |front| then front[i] in front else back[i - |front|] in back;
    }
  }

  ghost predicate AllOfKind(pull: Pull, l: Lineage, checks: seq<Check>, doubtful: bool) {
    forall c :: c in checks ==> IsDoubtful(pull, l, c) == doubtful
  }

  lemma KindOfTail(pull: Pull, l: Lineage, checks: seq<Check>, last: bool)
    requires checks != [] && KindComesLast(pull, l, checks, last)
    ensures KindComesLast(pull, l, checks[1..], last)
    ensures IsDoubtful(pull, l, checks[0]) == last ==> AllOfKind(pull, l, checks[1..], last)
  {
    var rest := checks[1..];
    assert forall k :: 0 <= k < |rest| ==> rest[k] == checks[k + 1];
  }

  lemma KindOfCons(pull: Pull, l: Lineage, c: Check, rest: seq<Check>, last: bool)
    requires KindComesLast(pull, l, rest, last) && (IsDoubtful(pull, l, c) == last ==> AllOfKind(pull, l, rest, last))
    ensures KindComesLast(pull, l, [c] + rest, last)
  {
    var all := [c] + rest;
    forall i, j | 0 <= i < j < |all| && IsDoubtful(pull, l, all[i]) == last
      ensures IsDoubtful(pull, l, all[j]) == last
    {
      KindOfConsAt(pull, l, c, rest, last, i, j);
    }
  }

  lemma KindOfConsAt(pull: Pull, l: Lineage, c: Check, rest: seq<Check>, last: bool, i: nat, j: nat)
    requires KindComesLast(pull, l, rest, last) && (IsDoubtful(pull, l, c) == last ==> AllOfKind(pull, l, rest, last))
    requires i < j <= |rest| && IsDoubtful(pull, l, ([c] + rest)[i]) == last
    ensures IsDoubtful(pull, l, ([c] + rest)[j]) == last
  {
    assert ([c] + rest)[j] == rest[j - 1];
    if i > 0 {
      assert ([c] + rest)[i] == rest[i - 1];
      KindFollows(pull, l, rest, last, i - 1, j - 1);
    } else {
      KindOfMember(pull, l, rest, last, rest[j - 1]);
    }
  }

  lemma KindFollows(pull: Pull, l: Lineage, checks: seq<Check>, last: bool, i: nat, j: nat)
    requires KindComesLast(pull, l, checks, last) && i < j < |checks| && IsDoubtful(pull, l, checks[i]) == last
    ensures IsDoubtful(pull, l, checks[j]) == last
  {
  }

  lemma KindOfMember(pull: Pull, l: Lineage, checks: seq<Check>, doubtful: bool, c: Check)
    requires AllOfKind(pull, l, checks, doubtful) && c in checks
    ensures IsDoubtful(pull, l, c) == doubtful
  {
  }

  lemma {:induction false} CurrentKind(pull: Pull, l: Lineage, checks: seq<Check>, among: seq<Check>, last: bool)
    requires KindComesLast(pull, l, checks, last)
    ensures KindComesLast(pull, l, Current(checks, among), last)
  {
    if checks != [] {
      KindOfTail(pull, l, checks, last);
      var current := Current(checks[1..], among);
      CurrentKind(pull, l, checks[1..], among, last);
      assert forall c :: c in current ==> c in checks[1..];
      KindOfCons(pull, l, checks[0], current, last);
      assert [] + current == current;
    }
  }

  lemma {:induction false} ApplicableKind(pull: Pull, l: Lineage, required: seq<Required>, name: string, checks: seq<Check>, last: bool)
    requires KindComesLast(pull, l, checks, last)
    ensures KindComesLast(pull, l, ApplicableChecks(pull, required, name, checks), last)
  {
    if checks != [] {
      KindOfTail(pull, l, checks, last);
      var rest := ApplicableChecks(pull, required, name, checks[1..]);
      ApplicableKind(pull, l, required, name, checks[1..], last);
      forall c | c in rest
        ensures c in checks[1..]
      {
        ApplicableIsAFilter(pull, required, name, checks[1..], c);
      }
      KindOfCons(pull, l, checks[0], rest, last);
      assert [] + rest == rest;
    }
  }

  /** The same among the reports of one name. */
  predicate KindComesLastByName(pull: Pull, l: Lineage, reports: seq<Check>, last: bool) {
    forall i, j :: 0 <= i < j < |reports| && reports[i].name == reports[j].name && IsDoubtful(pull, l, reports[i]) == last ==>
      IsDoubtful(pull, l, reports[j]) == last
  }

  lemma {:induction false} ReportsKind(pull: Pull, l: Lineage, required: seq<Required>, names: seq<string>, last: bool)
    requires NamesAscend(names) && KindComesLast(pull, l, LatestChecks(pull.checks), last)
    ensures KindComesLastByName(pull, l, Reports(pull, required, names), last)
  {
    if names != [] {
      var (some, name) := (names[..|names| - 1], names[|names| - 1]);
      ReportsKind(pull, l, required, some, last);
      ApplicableKind(pull, l, required, name, LatestChecks(pull.checks), last);
      var (front, group) := (Reports(pull, required, some), ApplicableChecks(pull, required, name, LatestChecks(pull.checks)));
      var all := front + group;
      forall i, j | 0 <= i < j < |all| && all[i].name == all[j].name && IsDoubtful(pull, l, all[i]) == last
        ensures IsDoubtful(pull, l, all[j]) == last
      {
        if i < |front| <= j {
          ReportsAreTheApplicableOnes(pull, required, some, all[i]);
          ApplicableIsAFilter(pull, required, name, LatestChecks(pull.checks), all[j]);
          assert all[i] in front && all[j] in group;
          LexLessIsTotal(name, name);
          assert false;
        }
      }
    }
  }

  /** If a leading report is of the first kind, the first report is. */
  lemma FirstReportIsOfFirstKind(pull: Pull, l: Lineage, reports: seq<Check>, id: nat, k: nat, run: Run, last: bool)
    requires KindComesLastByName(pull, l, reports, last) && NamesDescendNowhere(reports)
    requires IsFirstReport(pull, l, reports, id, k, run) && MayBe(pull, l, reports, id, !last)
    ensures UnknownSince(pull, l, run.runId) == !last
  {
    FirstReportLeads(pull, l, reports, id, k, run);
    var c :| IsLeading(pull, l, reports, id, c) && IsDoubtful(pull, l, c) == !last;
    var j :| 0 <= j < |reports| && reports[j] == c;
    NotBeforeTheFirst(pull, l, reports, id, k, run, j);
    LeadersShareTheirName(pull, l, reports, id, c, reports[k]);
    EarlierIsOfFirstKind(pull, l, reports, k, j, last);
  }

  lemma NotBeforeTheFirst(pull: Pull, l: Lineage, reports: seq<Check>, id: nat, k: nat, run: Run, j: nat)
    requires IsFirstReport(pull, l, reports, id, k, run) && j < |reports| && ReportsWorkflow(pull, l, reports[j], id)
    ensures j >= k
  {
  }

  lemma EarlierIsOfFirstKind(pull: Pull, l: Lineage, reports: seq<Check>, k: nat, j: nat, last: bool)
    requires KindComesLastByName(pull, l, reports, last) && k <= j < |reports| && reports[k].name == reports[j].name
    requires IsDoubtful(pull, l, reports[j]) == !last
    ensures IsDoubtful(pull, l, reports[k]) == !last
  {
  }

  lemma LeadersShareTheirName(pull: Pull, l: Lineage, reports: seq<Check>, id: nat, a: Check, b: Check)
    requires IsLeading(pull, l, reports, id, a) && IsLeading(pull, l, reports, id, b)
    ensures a.name == b.name
  {
    LexLessIsTotal(a.name, b.name);
  }

  lemma AnchorIsOfFirstKind(pull: Pull, policy: Policy, gate: Option<string>, l: Lineage, id: nat, last: bool)
    requires AnchorsOf(pull, l, ReportsFor(pull, policy, gate)).Ok?
    requires id in AnchorsOf(pull, l, ReportsFor(pull, policy, gate)).value
    requires KindComesLast(pull, l, pull.checks, last) && MayBe(pull, l, ReportsFor(pull, policy, gate), id, !last)
    ensures UnknownSince(pull, l, AnchorsOf(pull, l, ReportsFor(pull, policy, gate)).value[id].run.runId) == !last
  {
    var required := Requirements(policy.checks, policy.contexts);
    var names := NamesToCover(required, gate);
    var reports := ReportsFor(pull, policy, gate);
    NamesToCoverAscend(required, gate);
    CurrentKind(pull, l, pull.checks, pull.checks, last);
    ReportsKind(pull, l, required, names, last);
    ReportsComeNameByName(pull, required, names);
    var k := AnchorsKeepTheFirstReport(pull, l, reports, id);
    FirstReportIsOfFirstKind(pull, l, reports, id, k, AnchorsOf(pull, l, reports).value[id].run, last);
  }

  lemma SomeOrder(pull: Pull, policy: Policy, gate: Option<string>, l: Lineage, last: bool) returns (q: Pull)
    requires OrderMatters(pull, policy, gate, l)
    ensures q == pull.(checks := Arranged(pull, l, pull.checks, last))
    ensures multiset(q.checks) == multiset(pull.checks) && KindComesLast(q, l, q.checks, last)
    ensures IsSteady(q, policy, gate, l) && Wavers(q, l, ReportsFor(q, policy, gate))
  {
    q := pull.(checks := Arranged(pull, l, pull.checks, last));
    ArrangingPermutes(pull, l, pull.checks, last);
    ArrangedKind(pull, l, pull.checks, last);
    SameElements(pull.checks, q.checks);
    forall c
      ensures IsDoubtful(pull, l, c) == IsDoubtful(q, l, c)
    {
      DoubtIgnoresChecks(pull, q, l, c);
    }
    SteadyIgnoresOrder(pull, q, policy, gate, l);
    SameReports(pull, q, policy, gate);
    WaveringIgnoresOrder(pull, q, l, ReportsFor(pull, policy, gate), ReportsFor(q, policy, gate));
  }

  /** With the sure reports first all is selected, with the doubtful ones first nothing is. */
  lemma ArrangedOrderDecides(q: Pull, policy: Policy, gate: Option<string>, l: Lineage, last: bool)
    requires IsSteady(q, policy, gate, l) && Wavers(q, l, ReportsFor(q, policy, gate)) && KindComesLast(q, l, q.checks, last)
    ensures Selection(q, policy, gate, l).Ok? <==> last
  {
    var reports := ReportsFor(q, policy, gate);
    SelectionSucceedsIff(q, policy, gate, l);
    forall id | id in AnchorsOf(q, l, reports).value && MayBe(q, l, reports, id, !last)
      ensures UnknownSince(q, l, AnchorsOf(q, l, reports).value[id].run.runId) == !last
    {
      AnchorIsOfFirstKind(q, policy, gate, l, id, last);
    }
    forall id
      ensures id in AnchorsOf(q, l, reports).value <==> IsReported(q, l, reports, id)
    {
      AnchorsAreOfTheirReports(q, l, reports, id);
    }
    var doubted :| MayBe(q, l, reports, doubted, true);
    assert IsReported(q, l, reports, doubted);
  }

  /**
   The order of the checks changes a selection if and only if everything else is in order
   and the first reports waver: under the first name that reports a workflow there is a
   report whose run no unknown run reaches, for every workflow, and for some workflow one
   that an unknown run does reach.
   */
  lemma CheckOrderMattersIff(pull: Pull, policy: Policy, gate: Option<string>, l: Lineage)
    ensures OrderMatters(pull, policy, gate, l) <==>
      exists checks :: multiset(checks) == multiset(pull.checks)
        && Selection(pull.(checks := checks), policy, gate, l) != Selection(pull, policy, gate, l)
  {
    if OrderMatters(pull, policy, gate, l) {
      var sure := SomeOrder(pull, policy, gate, l, true);
      ArrangedOrderDecides(sure, policy, gate, l, true);
      var doubtful := SomeOrder(pull, policy, gate, l, false);
      ArrangedOrderDecides(doubtful, policy, gate, l, false);
      assert sure == pull.(checks := sure.checks) && doubtful == pull.(checks := doubtful.checks);
    } else {
      forall checks | multiset(checks) == multiset(pull.checks)
        ensures Selection(pull.(checks := checks), policy, gate, l) == Selection(pull, policy, gate, l)
      {
        SameElements(pull.checks, checks);
        OtherwiseEveryOrderSelectsTheSame(pull, pull.(checks := checks), policy, gate, l);
      }
    }
  }

  // ----- one name for every workflow -----

  predicate SameWorkflowId(a: Run, b: Run) {
    a.execution.Some? && b.execution.Some? && a.execution.value.workflowId == b.execution.value.workflowId
  }

  /** The runs of one workflow carry one workflow name. */
  ghost predicate OneNameEach(l: Lineage) {
    forall a, b :: a in l.runs && b in l.runs && SameWorkflowId(a, b) ==> a.workflowName == b.workflowName
  }

  lemma ReportFacts(pull: Pull, l: Lineage, c: Check, id: nat) returns (run: Run)
    requires ReportsWorkflow(pull, l, c, id)
    ensures run in l.runs && run.execution.Some? && run.execution.value.workflowId == id
    ensures c.workflowName == Some(run.workflowName) && c.providerKind == Some("CheckRun")
    ensures c.headOid == Some(pull.binding.headSha) && c.RunId() == Some(run.runId) && c.Generation() == c.RunId()
  {
    run := CheckAnchor(pull, c, l).value.value.run;
  }

  lemma ReportsShareTheirRun(pull: Pull, l: Lineage, a: Check, b: Check, id: nat)
    requires OneNameEach(l) && a in LatestChecks(pull.checks) && b in LatestChecks(pull.checks)
    requires ReportsWorkflow(pull, l, a, id) && ReportsWorkflow(pull, l, b, id) && a.appId == b.appId
    ensures a.RunId() == b.RunId()
  {
    var x := ReportFacts(pull, l, a, id);
    var y := ReportFacts(pull, l, b, id);
    assert SameWorkflowId(x, y) && a.SameWorkflow(b);
    CurrentReportsShareTheirRun(pull.checks, a, b);
  }

  /** Then all current reports of a workflow name one run, and the order of the checks changes nothing. */
  lemma CheckOrderIsIrrelevantWithOneNameEach(pull: Pull, policy: Policy, gate: Option<string>, l: Lineage, checks: seq<Check>)
    requires OneNameEach(l) && multiset(checks) == multiset(pull.checks)
    ensures Selection(pull.(checks := checks), policy, gate, l) == Selection(pull, policy, gate, l)
  {
    if OrderMatters(pull, policy, gate, l) {
      var required := Requirements(policy.checks, policy.contexts);
      var reports := ReportsFor(pull, policy, gate);
      var id :| MayBe(pull, l, reports, id, true);
      var a :| IsLeading(pull, l, reports, id, a) && IsDoubtful(pull, l, a);
      assert IsReported(pull, l, reports, id);
      var b :| IsLeading(pull, l, reports, id, b) && !IsDoubtful(pull, l, b);
      ReportsAreTheApplicableOnes(pull, required, NamesToCover(required, gate), a);
      ReportsAreTheApplicableOnes(pull, required, NamesToCover(required, gate), b);
      AnchorsAreOfTheirReports(pull, l, reports, id);
      ReportsShareTheirRun(pull, l, a, b, id);
      assert false;
    }
    CheckOrderMattersIff(pull, policy, gate, l);
  }

  // ----- an input whose order matters -----

  const HEAD := PullBinding(1, "h", "f", "b", "m")

  function RunNamed(id: nat, name: string): Run {
    Run(id, id, name, Some(Identity(7, 1, [HEAD])), "h", "completed", "success", "pull_request")
  }

  /** Two runs of workflow 7 under two names, and between them a run of unknown identity. */
  const RENAMED := Lineage(
    "h",
    [Suite(1, "h", "github-actions"), Suite(3, "h", "github-actions")],
    [RunNamed(1, "x"), Run(2, 9, "z", None, "h", "", "", ""), RunNamed(3, "y")],
    true)

  const DEMAND := Policy(["t"], [], true)

  function CheckNamed(id: nat, name: string, url: string): Check {
    Check("t", Success, Some(url), Some("CheckRun"), Some(name), Some(5), Some(id), Some("h"), None, None)
  }

  const OLDER := CheckNamed(1, "x", "/actions/runs/1")
  const NEWER := CheckNamed(3, "y", "/actions/runs/3")

  lemma RunOfUrl(url: string, digit: char)
    requires '0' <= digit <= '9' && url == "/actions/runs/" + [digit]
    ensures CheckNamed(0, "", url).RunId() == Some(Text.DigitValue(digit))
  {
    var prefix := "/actions/runs/";
    var rest := [digit];
    assert url[|prefix|..] == rest;
    assert Text.AfterFirst(url, prefix) == Some(rest);
    assert Text.Find(rest, '/') == 1 && rest[..1] == rest && rest[..0] == [];
    assert Text.Value(rest) == Text.DigitValue(digit);
  }

  lemma BothAreCurrent(a: Check, b: Check)
    requires (a == OLDER && b == NEWER) || (a == NEWER && b == OLDER)
    ensures LatestChecks([a, b]) == [a, b]
  {
    assert "x"[0] != "y"[0];
    var checks := [a, b];
    NoneIsNewer(a, a);
    NoneIsNewer(a, b);
    NoneIsNewer(b, a);
    NoneIsNewer(b, b);
    assert checks[1..] == [b] && [b][1..] == [];
    assert Current([b], checks) == [b];
  }

  lemma NoneIsNewer(a: Check, b: Check)
    requires a.startedAt.None? && a.completedAt.None? && (a == b || a.workflowName != b.workflowName)
    ensures !Supersedes(a, b)
  {
  }

  lemma AnchorOfNamed(pull: Pull, id: nat, name: string, url: string, digit: char)
    requires pull.binding == HEAD && ((id == 1 && name == "x" && digit == '1') || (id == 3 && name == "y" && digit == '3'))
    requires url == "/actions/runs/" + [digit]
    ensures CheckAnchor(pull, CheckNamed(id, name, url), RENAMED) == Ok(Some(Anchor(5, 7, RunNamed(id, name), [])))
  {
    var c := CheckNamed(id, name, url);
    RunOfUrl(url, digit);
    assert c.RunId() == CheckNamed(0, "", url).RunId() == Some(id);
    var (suites, runs) := (RENAMED.suites, RENAMED.runs);
    assert suites[1..] == [Suite(3, "h", "github-actions")];
    assert FindSuite(suites[1..], Some(3), Some("h")) == Some(suites[1]);
    assert FindSuite(suites, Some(id), Some("h")) == Some(Suite(id, "h", "github-actions"));
    assert runs[1..][1..] == [RunNamed(3, "y")];
    assert FindRun(runs[1..][1..], 3, 3, "h") == Some(RunNamed(3, "y"));
    assert FindRun(runs, id, id, "h") == Some(RunNamed(id, name));
    assert "StatusContext" != "CheckRun" by { assert |"StatusContext"| == 13 && |"CheckRun"| == 8; }
  }

  lemma KnownOfRenamed(pull: Pull)
    requires pull.binding == HEAD && forall c :: c in pull.checks ==> c.state.Success?
    ensures KnownExecution(pull, 7, 5, ["t"], RENAMED).Ok?
  {
    var runs := RENAMED.runs;
    var newest := runs[2];
    assert newest in runs && IsRunOf(pull, 7, newest) && newest.runId == 3;
    assert forall r :: r in runs && IsRunOf(pull, 7, r) && r != newest ==> r.runId < 3;
    NewestIsGreatest(pull, 7, runs);
    var found := Newest(pull, 7, runs);
    assert found.Some? && KeyAtLeast(found.value, newest);
    assert found == Some(newest);
    assert FindSuite(RENAMED.suites[1..], Some(3), None) == Some(RENAMED.suites[1]);
    assert FindSuite(RENAMED.suites, Some(3), None) == Some(RENAMED.suites[1]);
    assert [HEAD][1..] == [] && BoundTo(1, []) == [] && BoundTo(1, [HEAD]) == [HEAD];
    assert !RestartRequired(pull, newest, RENAMED.suites[1], 5, ["t"]);
  }

  lemma DemandOfOne()
    ensures Requirements(DEMAND.checks, DEMAND.contexts) == [Required("t", None)]
    ensures PolicyComplete(DEMAND) && NamesToCover([Required("t", None)], None) == ["t"]
  {
    RequirementsOfOne();
    CompleteWithOne();
    OneName([Required("t", None)]);
  }

  lemma RequirementsOfOne()
    ensures Requirements(DEMAND.checks, DEMAND.contexts) == [Required("t", None)]
  {
    var required := [Required("t", None)];
    assert DEMAND.contexts[1..] == [] && [] + required == required;
    assert Requirements(required, []) == required;
  }

  lemma CompleteWithOne()
    ensures PolicyComplete(DEMAND)
  {
    RequirementsOfOne();
    var required := [Required("t", None)];
    assert (set r | r in required) == {required[0]};
  }

  lemma OneName(required: seq<Required>)
    requires required == [Required("t", None)]
    ensures NamesOf(required) == ["t"]
  {
    assert required[1..] == [] && NamesOf([]) == [] && Insert("t", []) == ["t"];
  }

  lemma ReportsOfBoth(pull: Pull, a: Check, b: Check)
    requires (a == OLDER && b == NEWER) || (a == NEWER && b == OLDER)
    requires pull == Pull(HEAD, [a, b])
    ensures Reports(pull, [Required("t", None)], ["t"]) == [a, b]
    ensures AllReported(pull, [Required("t", None)], ["t"])
  {
    var required := [Required("t", None)];
    BothAreCurrent(a, b);
    forall c | c in [a, b]
      ensures Applicable(pull, required, "t", c)
    {
      assert required[0].Matches(c, "h") by { assert |"CheckRun"| == 8 && |"WorkflowRunLineage"| == 18; }
    }
    var (checks, none) := ([a, b], []);
    assert checks[1..] == [b] && [b][1..] == none;
    assert ApplicableChecks(pull, required, "t", none) == [];
    assert ApplicableChecks(pull, required, "t", [b]) == [b];
    assert ApplicableChecks(pull, required, "t", checks) == checks;
    assert ["t"][..0] == [] && Reports(pull, required, []) == [];
  }

  lemma AnchorsOfBoth(pull: Pull, a: Check, b: Check, x: Run, y: Run)
    requires CheckAnchor(pull, a, RENAMED) == Ok(Some(Anchor(5, 7, x, []))) && a.name == "t"
    requires CheckAnchor(pull, b, RENAMED) == Ok(Some(Anchor(5, 7, y, []))) && b.name == "t"
    ensures AnchorsOf(pull, RENAMED, [a, b]) == Ok(map[7 := Anchor(5, 7, x, ["t"])])
  {
    var anchors := map[7 := Anchor(5, 7, x, ["t"])];
    OneMoreReport(pull, RENAMED, [], a);
    assert [] + [a] == [a];
    AddNamed(pull, map[], a, x);
    OneMoreReport(pull, RENAMED, [a], b);
    assert [a] + [b] == [a, b];
    AddNamed(pull, anchors, b, y);
    assert anchors[7 := anchors[7]] == anchors;
  }

  lemma AddNamed(pull: Pull, anchors: map<nat, Anchor>, c: Check, x: Run)
    requires CheckAnchor(pull, c, RENAMED) == Ok(Some(Anchor(5, 7, x, []))) && c.name == "t"
    requires 7 in anchors ==> anchors[7].appId == 5 && anchors[7].contexts == ["t"]
    ensures AddReport(pull, RENAMED, anchors, c) ==
      Ok(anchors[7 := if 7 in anchors then anchors[7] else Anchor(5, 7, x, ["t"])])
  {
    assert Insert("t", []) == ["t"] && Insert("t", ["t"]) == ["t"];
  }

  lemma SelectionOfBoth(pull: Pull, a: Check, b: Check, x: Run)
    requires (a == OLDER && b == NEWER) || (a == NEWER && b == OLDER)
    requires pull == Pull(HEAD, [a, b])
    requires AnchorsOf(pull, RENAMED, [a, b]) == Ok(map[7 := Anchor(5, 7, x, ["t"])])
    ensures Selection(pull, DEMAND, None, RENAMED).Ok? <==> !UnknownSince(pull, RENAMED, x.runId)
  {
    SteadyOfBoth(pull, a, b, x);
    SelectionSucceedsIff(pull, DEMAND, None, RENAMED);
  }

  lemma SteadyOfBoth(pull: Pull, a: Check, b: Check, x: Run)
    requires (a == OLDER && b == NEWER) || (a == NEWER && b == OLDER)
    requires pull == Pull(HEAD, [a, b])
    requires AnchorsOf(pull, RENAMED, [a, b]) == Ok(map[7 := Anchor(5, 7, x, ["t"])])
    ensures IsSteady(pull, DEMAND, None, RENAMED) && ReportsFor(pull, DEMAND, None) == [a, b]
  {
    DemandOfOne();
    ReportsOfBoth(pull, a, b);
    AllKnownOfRenamed(pull, x);
    RenamedIsValid(pull);
  }

  lemma AllKnownOfRenamed(pull: Pull, x: Run)
    requires pull.binding == HEAD && forall c :: c in pull.checks ==> c.state.Success?
    ensures AllKnown(pull, RENAMED, map[7 := Anchor(5, 7, x, ["t"])])
  {
    KnownOfRenamed(pull);
  }

  lemma RenamedIsValid(pull: Pull)
    requires pull.binding == HEAD
    ensures ValidLineage(pull, RENAMED)
  {
  }

  /**
   Reports of two runs of one workflow under one context, both current because the runs
   carry two workflow names, and a run of unknown identity between them. With the older
   report first nothing is selected; with the newer one first its run is.
   */
  lemma OneOrderSelectsAndTheOtherRefuses()
    ensures Selection(Pull(HEAD, [OLDER, NEWER]), DEMAND, None, RENAMED).Unavailable?
    ensures Selection(Pull(HEAD, [NEWER, OLDER]), DEMAND, None, RENAMED).Ok?
  {
    var (p, q) := (Pull(HEAD, [OLDER, NEWER]), Pull(HEAD, [NEWER, OLDER]));
    var (x, y) := (RunNamed(1, "x"), RunNamed(3, "y"));
    AnchorOfNamed(p, 1, "x", "/actions/runs/1", '1');
    AnchorOfNamed(p, 3, "y", "/actions/runs/3", '3');
    AnchorsOfBoth(p, OLDER, NEWER, x, y);
    SelectionOfBoth(p, OLDER, NEWER, x);
    AnchorOfNamed(q, 1, "x", "/actions/runs/1", '1');
    AnchorOfNamed(q, 3, "y", "/actions/runs/3", '3');
    AnchorsOfBoth(q, NEWER, OLDER, y, x);
    SelectionOfBoth(q, NEWER, OLDER, y);
    UnknownBetween(p);
    UnknownBetween(q);
  }

  lemma UnknownBetween(pull: Pull)
    requires pull.binding == HEAD
    ensures UnknownSince(pull, RENAMED, 1) && !UnknownSince(pull, RENAMED, 3)
  {
    assert RENAMED.runs[1].execution.None? && RENAMED.runs[1].runId == 2;
  }
}
