/** Identity and order of workflow executions (src/ci_dispatch.rs). */
module CiExecutions {
  datatype PullBinding = PullBinding(number: nat, headSha: string, headRef: string, baseSha: string, baseRef: string)

  const RUNNING := ["queued", "requested", "waiting", "pending", "in_progress"]
  const RESTARTABLE := ["failure", "cancelled", "timed_out", "action_required", "neutral", "skipped"]

  datatype Execution = Execution(
    appId: nat,
    appSlug: string,
    workflowId: nat,
    workflowName: string,
    contexts: seq<string>,
    restartRequired: bool,
    runId: nat,
    runAttempt: nat,
    checkSuiteId: nat,
    pullRequest: PullBinding,
    event: string,
    status: string,
    conclusion: string)
  {
    predicate Reusable() {
      || (status in RUNNING && conclusion == "")
      || (status == "completed" && !restartRequired && (conclusion == "success" || conclusion in RESTARTABLE))
    }

    predicate Requestable() {
      restartRequired && status == "completed" && conclusion in RESTARTABLE
    }

    predicate SameExecution(other: Execution) {
      && appId == other.appId
      && appSlug == other.appSlug
      && workflowId == other.workflowId
      && runId == other.runId
      && runAttempt == other.runAttempt
      && checkSuiteId == other.checkSuiteId
      && pullRequest == other.pullRequest
      && event == other.event
    }

    predicate Succeeds(prior: Execution) {
      && appId == prior.appId
      && appSlug == prior.appSlug
      && workflowId == prior.workflowId
      && pullRequest == prior.pullRequest
      && event == prior.event
      && (runId > prior.runId
          || (runId == prior.runId && runAttempt > prior.runAttempt && checkSuiteId == prior.checkSuiteId))
    }

    /** At or after `prior` in the order of executions. */
    predicate Follows(prior: Execution) {
      SameExecution(prior) || Succeeds(prior)
    }
  }

  /** `Succeeds` is a strict partial order on the classes of `SameExecution`. */
  lemma SucceedsIsAStrictOrderOnExecutions(a: Execution, b: Execution, c: Execution)
    ensures a.SameExecution(a) && (a.SameExecution(b) ==> b.SameExecution(a))
    ensures a.SameExecution(b) && b.SameExecution(c) ==> a.SameExecution(c)
    ensures a.SameExecution(b) ==> !a.Succeeds(b)
    ensures a.Succeeds(b) && b.Succeeds(c) ==> a.Succeeds(c)
    ensures a.Succeeds(b) ==> !b.Succeeds(a)
    ensures a.SameExecution(b) && b.Succeeds(c) ==> a.Succeeds(c)
    ensures a.Succeeds(b) && b.SameExecution(c) ==> a.Succeeds(c)
  {
  }

  /** One App, workflow, pull request with its head and base, and event. */
  predicate OfOneKind(a: Execution, b: Execution) {
    && a.appId == b.appId && a.appSlug == b.appSlug && a.workflowId == b.workflowId
    && a.pullRequest == b.pullRequest && a.event == b.event
  }

  /**
   Only executions of one kind are compared, and then exactly one of the two follows or
   they are the same; only a run that changed its suite is left out.
   */
  lemma ExecutionsOfOneKindAreCompared(a: Execution, b: Execution)
    ensures a.SameExecution(b) || a.Succeeds(b) ==> OfOneKind(a, b) && b.runId <= a.runId
    ensures a.SameExecution(b) || a.Succeeds(b) || b.Succeeds(a) <==>
      OfOneKind(a, b) && (a.runId == b.runId ==> a.checkSuiteId == b.checkSuiteId)
    ensures a.SameExecution(b) ==> a.runId == b.runId && a.runAttempt == b.runAttempt
    ensures OfOneKind(a, b) && b.runId < a.runId ==> a.Succeeds(b)
    ensures a.Succeeds(b) && a.runId == b.runId ==> b.runAttempt < a.runAttempt && a.checkSuiteId == b.checkSuiteId
  {
  }
}
