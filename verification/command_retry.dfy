/** Bounded retry of credential reads inside the operation deadline (src/command.rs). Times are milliseconds. */
module CredentialRetry {
  import opened Common

  datatype Category =
    | Timeout
    | DeadlineExhausted
    | BudgetExceeded
    | ProviderUnavailable
    | NotTransient(code: nat)

  datatype Outcome = Success | Refusal(category: Category, attempts: nat)

  const MINIMUM_BUDGET: nat := 750

  predicate Retryable(c: Category) {
    !c.NotTransient?
  }

  /** The verdicts that one more attempt may change. */
  predicate Transient(c: Category) {
    Retryable(c) && !c.DeadlineExhausted? && !c.BudgetExceeded?
  }

  datatype Policy = Policy(attempts: nat, backoff: seq<nat>, deadline: Option<nat>)

  function Remaining(deadline: nat, now: nat): nat {
    if now < deadline then deadline - now else 0
  }

  /** The time-out of a command, or none when the deadline leaves too little for any command. */
  function EffectiveTimeout(timeout: nat, deadline: Option<nat>, now: nat): Option<nat> {
    match deadline
    case None => if timeout == 0 then None else Some(timeout)
    case Some(d) =>
      var left := Remaining(d, now);
      var bounded := if timeout < left then timeout else left;
      if bounded == 0 || left < MINIMUM_BUDGET then None else Some(bounded)
  }

  /** The pause before attempt `attempt + 1`. */
  function Delay(p: Policy, attempt: nat): nat {
    var index := if attempt == 0 then 0 else attempt - 1;
    if index < |p.backoff| then p.backoff[index]
    else if p.backoff != [] then p.backoff[|p.backoff| - 1]
    else 0
  }

  predicate Grants(p: Policy, attempt: nat, c: Category, now: nat) {
    && Transient(c)
    && attempt < p.attempts
    && (p.deadline.Some? ==> Remaining(p.deadline.value, now) >= Delay(p, attempt) + MINIMUM_BUDGET)
  }

  /** What the child would do when launched: how long it runs, and how it ends. */
  datatype Reply = Reply(elapsed: nat, outcome: Outcome)

  /** One attempt: when it began and ended, whether a child was launched, and its outcome. */
  datatype Attempt = Attempt(begun: nat, ended: nat, launched: bool, outcome: Outcome)

  /** An attempt that has a time-out ends as the child does, or at the time-out when the child runs longer. Without one nothing is launched. */
  predicate IsScripted(a: Attempt, timeout: nat, deadline: Option<nat>, reply: Option<Reply>) {
    match EffectiveTimeout(timeout, deadline, a.begun)
    case None => a == Attempt(a.begun, a.begun, false, Refusal(DeadlineExhausted, 1))
    case Some(bound) =>
      match reply
      case None => a == Attempt(a.begun, a.begun, true, Refusal(NotTransient(0), 1))
      case Some(child) =>
        if child.elapsed > bound then a == Attempt(a.begun, a.begun + bound, true, Refusal(Timeout, 1))
        else a == Attempt(a.begun, a.begun + child.elapsed, true, child.outcome)
  }

  /** The attempts take the replies in order. */
  ghost predicate AllScripted(history: seq<Attempt>, timeout: nat, deadline: Option<nat>, replies: seq<Reply>) {
    forall i {:trigger history[i]} :: 0 <= i < |history| ==>
      IsScripted(history[i], timeout, deadline, if i < |replies| then Some(replies[i]) else None)
  }

  function Behind(replies: seq<Reply>, n: nat): seq<Reply> {
    if n <= |replies| then replies[n..] else []
  }

  lemma OneMoreReply(history: seq<Attempt>, a: Attempt, timeout: nat, deadline: Option<nat>, replies: seq<Reply>)
    requires AllScripted(history, timeout, deadline, replies)
    requires IsScripted(a, timeout, deadline, if |history| < |replies| then Some(replies[|history|]) else None)
    ensures AllScripted(history + [a], timeout, deadline, replies)
  {
    forall i | 0 <= i < |history + [a]|
      ensures IsScripted((history + [a])[i], timeout, deadline, if i < |replies| then Some(replies[i]) else None)
    {
      if i < |history| {
        assert (history + [a])[i] == history[i];
      }
    }
  }

  class Machine {
    var now: nat
    var script: seq<Reply>

    constructor (now: nat, script: seq<Reply>)
      ensures this.now == now && this.script == script
    {
      this.now, this.script := now, script;
    }

    /** Refuse before launch, or run the child and reap it at its time-out. */
    method Run(timeout: nat, deadline: Option<nat>) returns (a: Attempt)
      modifies this
      ensures a.begun == old(now) && a.ended == now && old(now) <= now
      ensures IsScripted(a, timeout, deadline, if old(script) == [] then None else Some(old(script)[0]))
      ensures a.launched <==> EffectiveTimeout(timeout, deadline, old(now)).Some?
      ensures !a.launched ==> a.outcome == Refusal(DeadlineExhausted, 1)
      ensures deadline.Some? && old(now) <= deadline.value ==> now <= deadline.value
      ensures script == if a.launched && old(script) != [] then old(script)[1..] else old(script)
    {
      var bound := EffectiveTimeout(timeout, deadline, now);
      if bound.None? {
        return Attempt(now, now, false, Refusal(DeadlineExhausted, 1));
      }
      var begun := now;
      if script == [] {
        return Attempt(begun, now, true, Refusal(NotTransient(0), 1));
      }
      var reply := script[0];
      script := script[1..];
      if reply.elapsed > bound.value {
        now := now + bound.value;
        return Attempt(begun, now, true, Refusal(Timeout, 1));
      }
      now := now + reply.elapsed;
      return Attempt(begun, now, true, reply.outcome);
    }

    /** Sleep before another attempt, or refuse it without sleeping. */
    method WaitBeforeRetry(p: Policy, attempt: nat, c: Category) returns (granted: bool)
      modifies this`now
      ensures granted <==> Grants(p, attempt, c, old(now))
      ensures now == if granted then old(now) + Delay(p, attempt) else old(now)
      ensures granted && p.deadline.Some? ==> now <= p.deadline.value
    {
      if !Retryable(c) || c.DeadlineExhausted? || c.BudgetExceeded? || attempt >= p.attempts {
        return false;
      }
      if p.deadline.Some? && Remaining(p.deadline.value, now) < Delay(p, attempt) + MINIMUM_BUDGET {
        return false;
      }
      now := now + Delay(p, attempt);
      return true;
    }

    /** One credential stage: the broker call or the repository probe. */
    method Stage(p: Policy, timeout: nat) returns (r: Outcome, ghost history: seq<Attempt>)
      modifies this
      ensures IsStage(p, timeout, old(script), history) && history[0].begun == old(now)
      ensures r == Reported(history)
      ensures r.Refusal? ==> !Grants(p, |history|, r.category, now)
      ensures p.deadline.Some? && old(now) <= p.deadline.value ==> now <= p.deadline.value
    {
      var attempt := 1;
      ghost var replies := script;
      var a := Run(timeout, p.deadline);
      history := [a];
      while a.outcome.Refusal?
        invariant attempt == |history| && IsStage(p, timeout, replies, history) && history[|history| - 1] == a
        invariant a.ended == now && history[0].begun == old(now)
        invariant a.launched ==> script == Behind(replies, |history|)
        invariant !a.launched ==> a.outcome == Refusal(DeadlineExhausted, 1)
        invariant p.deadline.Some? && old(now) <= p.deadline.value ==> now <= p.deadline.value
        decreases p.attempts - attempt, if a.outcome.Refusal? then 1 else 0
      {
        var again := WaitBeforeRetry(p, attempt, a.outcome.category);
        if !again {
          return Refusal(a.outcome.category, if a.outcome.attempts < attempt then attempt else a.outcome.attempts), history;
        }
        attempt := attempt + 1;
        a := Run(timeout, p.deadline);
        OneMoreAttempt(p, timeout, replies, history, a);
        history := history + [a];
      }
      return Success, history;
    }
  }

  /** A stage that follows the policy: only transient verdicts are retried, each after its pause. */
  ghost predicate Conforms(p: Policy, timeout: nat, history: seq<Attempt>) {
    && history != []
    && |history| <= (if p.attempts == 0 then 1 else p.attempts)
    && (forall i :: 0 <= i < |history| - 1 ==>
          history[i].outcome.Refusal? && Transient(history[i].outcome.category))
    && (forall i, j :: 0 <= i && i + 1 == j < |history| ==> history[j].begun == history[i].ended + Delay(p, j))
    && (forall i :: 1 <= i < |history| && p.deadline.Some? ==> Remaining(p.deadline.value, history[i].begun) >= MINIMUM_BUDGET)
    && (forall i :: 1 <= i < |history| && timeout > 0 ==> history[i].launched)
  }

  /** A granted retry, begun after its pause, conforms. */
  lemma OneMoreRetry(p: Policy, timeout: nat, history: seq<Attempt>, a: Attempt)
    requires Conforms(p, timeout, history)
    requires
      var last := history[|history| - 1];
      && last.outcome.Refusal? && Grants(p, |history|, last.outcome.category, last.ended)
      && a.begun == last.ended + Delay(p, |history|)
    requires a.launched <==> EffectiveTimeout(timeout, p.deadline, a.begun).Some?
    ensures Conforms(p, timeout, history + [a])
  {
    var last := history[|history| - 1];
    var more := history + [a];
    RetryHasTime(p, |history|, last.outcome.category, last.ended, timeout);
    forall i | 0 <= i < |more|
      ensures i < |history| ==> more[i] == history[i]
      ensures i == |history| ==> more[i] == a
    {
    }
  }

  /** The policy is followed, and the children behave as scripted. */
  ghost predicate IsStage(p: Policy, timeout: nat, replies: seq<Reply>, history: seq<Attempt>) {
    Conforms(p, timeout, history) && AllScripted(history, timeout, p.deadline, replies)
  }

  lemma OneMoreAttempt(p: Policy, timeout: nat, replies: seq<Reply>, history: seq<Attempt>, a: Attempt)
    requires IsStage(p, timeout, replies, history)
    requires
      var last := history[|history| - 1];
      && last.outcome.Refusal? && Grants(p, |history|, last.outcome.category, last.ended)
      && a.begun == last.ended + Delay(p, |history|)
    requires a.launched <==> EffectiveTimeout(timeout, p.deadline, a.begun).Some?
    requires IsScripted(a, timeout, p.deadline, if |history| < |replies| then Some(replies[|history|]) else None)
    ensures IsStage(p, timeout, replies, history + [a])
  {
    OneMoreRetry(p, timeout, history, a);
    OneMoreReply(history, a, timeout, p.deadline, replies);
  }

  /** The caller sees the last outcome, and at least as many attempts as were made. */
  ghost function Reported(history: seq<Attempt>): Outcome
    requires history != []
  {
    match history[|history| - 1].outcome
    case Success => Success
    case Refusal(c, n) => Refusal(c, if n < |history| then |history| else n)
  }

  /** A granted retry begins with at least the minimum budget left, so it is launched. */
  lemma RetryHasTime(p: Policy, attempt: nat, c: Category, now: nat, timeout: nat)
    requires Grants(p, attempt, c, now)
    ensures p.deadline.Some? ==> Remaining(p.deadline.value, now + Delay(p, attempt)) >= MINIMUM_BUDGET
    ensures timeout > 0 ==> EffectiveTimeout(timeout, p.deadline, now + Delay(p, attempt)).Some?
  {
  }

  /** The test is exact: it grants a retry precisely when the next command could be launched. */
  lemma RetryTestIsExact(p: Policy, attempt: nat, c: Category, now: nat, timeout: nat)
    requires Transient(c) && attempt < p.attempts && timeout > 0
    ensures Grants(p, attempt, c, now) <==> EffectiveTimeout(timeout, p.deadline, now + Delay(p, attempt)).Some?
  {
  }

  /** The pause before attempt n + 1 is the n-th one of the list, then the last one again. */
  lemma DelaysAreTakenInOrder(p: Policy, n: nat)
    requires n > 0
    ensures 0 < n <= |p.backoff| ==> Delay(p, n) == p.backoff[n - 1]
    ensures |p.backoff| < n && p.backoff != [] ==> Delay(p, n) == p.backoff[|p.backoff| - 1]
    ensures p.backoff == [] ==> Delay(p, n) == 0
    ensures p.backoff == [500, 1500] ==> Delay(p, n) == if n == 1 then 500 else 1500
  {
  }

  /** A command gets the whole time-out or all that is left, whichever is less, and nothing under 750 milliseconds to the deadline. */
  lemma TimeoutIsTheLesser(timeout: nat, deadline: Option<nat>, now: nat, bound: nat)
    ensures EffectiveTimeout(timeout, deadline, now) == Some(bound) <==>
      && 0 < bound <= timeout
      && (deadline.None? ==> bound == timeout)
      && (deadline.Some? ==> now + bound <= deadline.value && now + 750 <= deadline.value && (bound == timeout || now + bound == deadline.value))
  {
  }

  /**
   A retry is granted exactly for a time-out or an unavailable provider, while attempts
   are left, and if after the pause 750 milliseconds remain to the deadline.
   */
  lemma GrantedIff(p: Policy, n: nat, c: Category, now: nat)
    requires n > 0
    ensures
      var pause := if p.backoff == [] then 0 else if n <= |p.backoff| then p.backoff[n - 1] else p.backoff[|p.backoff| - 1];
      Grants(p, n, c, now) <==>
        && c in {Timeout, ProviderUnavailable} && n < p.attempts
        && (p.deadline.Some? ==> now + pause + 750 <= p.deadline.value)
  {
  }
}
