/**
 The `concat` command (src/concat.rs): look for a durable receipt, plan again, compare
 with the reviewed plan, rewrite, set the base edge, verify, and journal the result.
 */
module ConcatExecution {
  import opened Common
  import opened Fleets
  import opened ConcatPlans
  import opened Concat

  // ----- durable receipts -----

  datatype PlanField = Absent | Unreadable | Readable(plan: Plan)

  /** A journal record of a concatenation: the delivery of a hook, or the event with its evidence. */
  datatype Record = Delivery | Event(plan: PlanField, evidence: bool)

  datatype Receipt = Missing | Invalid | Found(plan: Plan)

  /** The lookup reads this many of the newest records. */
  const WINDOW := 100

  /** The record says nothing about the plan: a delivery, an event without a plan, or with another one. */
  predicate Skips(r: Record, p: Plan) {
    r.Delivery? || r.plan.Absent? || (r.plan.Readable? && r.plan.plan != p)
  }

  function Reading(r: Record): Receipt {
    if r.Event? && r.plan.Readable? && r.evidence then Found(r.plan.plan) else Invalid
  }

  /** Record k decides: it is in the window and every newer record is about something else. */
  ghost predicate IsNewest(journal: seq<Record>, p: Plan, k: nat) {
    && k < |journal| <= k + WINDOW && !Skips(journal[k], p)
    && forall j :: k < j < |journal| ==> Skips(journal[j], p)
  }

  ghost predicate HasReceipt(journal: seq<Record>, p: Plan) {
    exists k: nat :: IsNewest(journal, p, k)
  }

  method ExistingReceipt(journal: seq<Record>, p: Plan) returns (r: Receipt)
    ensures r.Missing? <==> !HasReceipt(journal, p)
    ensures forall k: nat :: IsNewest(journal, p, k) ==> r == Reading(journal[k])
    ensures r.Found? ==> r.plan == p
  {
    var k := |journal|;
    while k > 0 && |journal| < k + WINDOW
      invariant 0 <= k <= |journal| <= k + WINDOW
      invariant forall j :: k <= j < |journal| ==> Skips(journal[j], p)
    {
      k := k - 1;
      if !Skips(journal[k], p) {
        assert IsNewest(journal, p, k);
        return Reading(journal[k]);
      }
    }
    r := Missing;
  }

  /** A receipt is found while fewer than a window of other records follow it. */
  lemma ReceiptStaysFound(journal: seq<Record>, p: Plan, later: seq<Record>)
    requires |later| < 100
    requires forall j :: 0 <= j < |later| ==>
      later[j].Delivery? || later[j].plan.Absent? || (later[j].plan.Readable? && later[j].plan.plan != p)
    ensures IsNewest(journal + [Event(Readable(p), true)] + later, p, |journal|)
  {
  }

  /** After a whole window of them it is not found any more. */
  lemma ReceiptFadesAway(journal: seq<Record>, p: Plan, later: seq<Record>)
    requires 100 <= |later|
    requires forall j :: 0 <= j < |later| ==>
      later[j].Delivery? || later[j].plan.Absent? || (later[j].plan.Readable? && later[j].plan.plan != p)
    ensures !HasReceipt(journal + later, p)
  {
    forall k: nat
      ensures !IsNewest(journal + later, p, k)
    {
      if |journal| <= k < |journal + later| {
        assert (journal + later)[k] == later[k - |journal|];
      }
    }
  }

  /** A newer event with a plan that cannot be read, or one of this plan without its evidence, makes the receipt invalid. */
  lemma DamagedRecordInvalidates(journal: seq<Record>, p: Plan, damaged: Record, later: seq<Record>)
    requires damaged.Event? && (damaged.plan.Unreadable? || (damaged.plan == Readable(p) && !damaged.evidence))
    requires |later| < 100 && forall j :: 0 <= j < |later| ==> Skips(later[j], p)
    ensures IsNewest(journal + [damaged] + later, p, |journal|) && Reading((journal + [damaged] + later)[|journal|]) == Invalid
  {
  }

  // ----- the command -----

  /** A hook may be configured, its delivery may be recorded, and it may let the command pass. */
  datatype Hook = Hook(configured: bool, recorded: bool, passes: bool)

  /** All that the environment answers to one execution. */
  datatype Answers = Answers(
    journalReadable: bool,
    acquired: bool,
    status: Option<Status>,
    compatibility: Compatibility,
    rewrites: map<Pr, string>,
    weather: Env,
    append: Fault,
    hook: Hook)

  datatype Reply =
    | Output(idempotent: bool, plan: Plan)
    | JournalUnreadable
    | ReceiptInvalid
    | WriterUnavailable
    | StatusUnavailable
    | PlanRefused(refusal: Refusal)
    | PlanStale
    | PrepareFailed
    | Stopped(exit: Exit)
    | HookFailed
  {
    /** The transaction ran to its end. */
    predicate Committed() {
      (Output? && !idempotent) || HookFailed?
    }
  }

  /** A status that could be read is a true picture of this world. */
  ghost predicate Truthful(status: Option<Status>, w: World, d: string) {
    status.Some? ==> Shows(status.value, FleetOf(w), d)
  }

  /** The transaction of the reviewed plan ran from w and ended in `after` with exit e. */
  ghost predicate Ran(w: World, d: string, p: Plan, rewrites: map<Pr, string>, weather: Env, after: World, e: Exit) {
    && AllRewritten(p, rewrites)
    && JobJoins(w, d, JobOf(p, rewrites), p.targetMembers, p.sourceMembers)
    && Transaction(w, JobOf(p, rewrites), weather) == (after, e)
  }

  /** The status gives one plan, so another one is stale. */
  lemma StalePlanIsNoPlan(s: Status, input: Input, p: Plan, q: Plan)
    requires IsPlan(s, input, q) && p != q
    ensures !IsPlan(s, input, p)
  {
    if IsPlan(s, input, p) {
      PlanIsUnique(s, input, p, q);
      assert false;
    }
  }

  /** The newest record about the plan is its receipt. */
  ghost predicate IsJournaled(journal: seq<Record>, p: Plan) {
    exists k: nat :: IsNewest(journal, p, k) && Reading(journal[k]) == Found(p)
  }

  /** What a reply says about the provider (w before, `after` now), the journal and the status. */
  ghost predicate Reported(w: World, log: seq<Record>, d: string, p: Plan, input: Input, a: Answers,
                           after: World, grown: seq<Record>, r: Reply)
  {
    && log <= grown
    && (!r.Committed() ==> grown == log)
    && (!r.Committed() && !r.Stopped? ==> after == w)
    && (r.Stopped? ==> r.exit != Complete && Ran(w, d, p, a.rewrites, a.weather, after, r.exit))
    && (r.Committed() ==> Ran(w, d, p, a.rewrites, a.weather, after, Complete))
    && (r.Output? ==> r.plan == p && IsJournaled(grown, p))
    && (r.PlanRefused? ==> a.status.Some? && IsFirstRefusal(a.status.value, input, a.compatibility, r.refusal))
    && (r.Stopped? || r.Committed() || r.PlanStale? || r.PrepareFailed? ==> Accepts(a, input))
    && (r.Stopped? || r.Committed() ==> p.sourceMembers != [] && p.sourceMembers[0] == input.sourceHead)
  }

  ghost predicate Accepts(a: Answers, input: Input) {
    a.status.Some? && PassesAll(a.status.value, input, a.compatibility)
  }

  lemma PlanFitsTheWorld(s: Status, w: World, d: string, input: Input, answer: Compatibility, p: Plan, rewrites: map<Pr, string>)
    requires RefsKnown(w) && Truthful(Some(s), w, d) && PassesAll(s, input, answer) && IsPlan(s, input, p)
    ensures p.members != [] && p.source == input.sourceHead
    ensures AllRewritten(p, rewrites) ==> JobJoins(w, d, JobOf(p, rewrites), p.targetMembers, p.sourceMembers)
    ensures AllRewritten(p, rewrites) ==> p.sourceMembers != [] && p.sourceMembers[0] == input.sourceHead
  {
    AcceptedFinds(s, input, answer);
    PlanJoinsTwoCaravans(s, FleetOf(w), d, input, answer, p);
    PlanNamesEveryMember(s, FleetOf(w), d, input, p);
    if AllRewritten(p, rewrites) {
      PlannedJobFits(w, d, input, p, rewrites);
    }
  }

  /** The journal can be read and has no record about the plan, and the writer is free. */
  ghost predicate Begins(log: seq<Record>, p: Plan, a: Answers) {
    a.journalReadable && !HasReceipt(log, p) && a.acquired
  }

  /** The status gives the reviewed plan. */
  ghost predicate Agrees(p: Plan, input: Input, a: Answers) {
    Accepts(a, input) && IsPlan(a.status.value, input, p)
  }

  /** Each reply of an execution that begins has its cause in what the environment answered. */
  ghost predicate FollowsFrom(p: Plan, input: Input, a: Answers, r: Reply) {
    match r
    case StatusUnavailable => a.status.None?
    case PlanRefused(e) => a.status.Some? && IsFirstRefusal(a.status.value, input, a.compatibility, e)
    case PlanStale => Accepts(a, input) && !IsPlan(a.status.value, input, p)
    case PrepareFailed => Agrees(p, input, a) && !AllRewritten(p, a.rewrites)
    case Stopped(e) => Agrees(p, input, a) && AllRewritten(p, a.rewrites) && e != Complete && Causes(JobOf(p, a.rewrites), a.weather, e)
    case HookFailed => Agrees(p, input, a) && ReachesTheEnd(p, a) && !IsRecorded(a)
    case Output(idempotent, plan) => !idempotent && plan == p && Agrees(p, input, a) && ReachesTheEnd(p, a) && IsRecorded(a)
    case _ => false
  }

  /** Each reply has its cause in the journal, the writer and what followed. */
  ghost predicate HasCause(log: seq<Record>, p: Plan, input: Input, a: Answers, r: Reply) {
    if r.JournalUnreadable? then !a.journalReadable
    else if r.ReceiptInvalid? then a.journalReadable && exists k: nat :: IsNewest(log, p, k) && Reading(log[k]) == Invalid
    else if r == Output(true, p) then a.journalReadable && IsJournaled(log, p)
    else if r.WriterUnavailable? then a.journalReadable && !HasReceipt(log, p) && !a.acquired
    else Begins(log, p, a) && FollowsFrom(p, input, a, r)
  }

  predicate ReachesTheEnd(p: Plan, a: Answers) {
    AllRewritten(p, a.rewrites) && Causes(JobOf(p, a.rewrites), a.weather, Complete)
  }

  /** The event is journaled, and its hook, if there is one, was recorded and passes. */
  predicate IsRecorded(a: Answers) {
    a.append.Fine? && (a.hook.configured ==> a.hook.recorded && a.hook.passes)
  }

  lemma NewestIsUnique(log: seq<Record>, p: Plan, i: nat, k: nat)
    requires IsNewest(log, p, i) && IsNewest(log, p, k)
    ensures i == k
  {
  }

  /** The causes exclude each other: one execution has one reply. */
  lemma OneReply(log: seq<Record>, p: Plan, input: Input, a: Answers, r: Reply, x: Reply)
    requires HasCause(log, p, input, a, r) && HasCause(log, p, input, a, x)
    ensures r == x
  {
    if HasReceipt(log, p) {
      var k: nat :| IsNewest(log, p, k);
      forall i: nat | IsNewest(log, p, i)
        ensures i == k
      {
        NewestIsUnique(log, p, i, k);
      }
    } else if FollowsFrom(p, input, a, r) && FollowsFrom(p, input, a, x) {
      OneConsequence(p, input, a, r, x);
    }
  }

  lemma OneConsequence(p: Plan, input: Input, a: Answers, r: Reply, x: Reply)
    requires FollowsFrom(p, input, a, r) && FollowsFrom(p, input, a, x)
    ensures r == x
  {
    if r.PlanRefused? || x.PlanRefused? {
      OneRefusal(p, input, a, r, x);
    } else {
      OneEnd(p, input, a, r, x);
    }
  }

  lemma OneRefusal(p: Plan, input: Input, a: Answers, r: Reply, x: Reply)
    requires FollowsFrom(p, input, a, r) && FollowsFrom(p, input, a, x)
    requires r.PlanRefused? || x.PlanRefused?
    ensures r == x
  {
    if r.PlanRefused? && x.PlanRefused? {
      assert r.refusal.Rank() == x.refusal.Rank();
    }
  }

  lemma OneEnd(p: Plan, input: Input, a: Answers, r: Reply, x: Reply)
    requires FollowsFrom(p, input, a, r) && FollowsFrom(p, input, a, x)
    requires !r.PlanRefused? && !x.PlanRefused?
    ensures r == x
  {
    if AllRewritten(p, a.rewrites) {
      var job := JobOf(p, a.rewrites);
      if r.Stopped? && Causes(job, a.weather, Complete) {
        OneCause(job, a.weather, r.exit, Complete);
      }
      if x.Stopped? && Causes(job, a.weather, Complete) {
        OneCause(job, a.weather, x.exit, Complete);
      }
      if r.Stopped? && x.Stopped? {
        OneCause(job, a.weather, r.exit, x.exit);
      }
    }
  }

  /** The part from the transaction on: how it ended, and what was journaled. */
  ghost predicate JobDone(w: World, log: seq<Record>, d: string, p: Plan, a: Answers, after: World, grown: seq<Record>, r: Reply) {
    && (r.Stopped? || r == HookFailed || r == Output(false, p))
    && log <= grown
    && Ran(w, d, p, a.rewrites, a.weather, after, if r.Stopped? then r.exit else Complete)
    && Causes(JobOf(p, a.rewrites), a.weather, if r.Stopped? then r.exit else Complete)
    && (r.Stopped? ==> grown == log && r.exit != Complete)
    && (r.Output? ==> IsJournaled(grown, p))
    && (!r.Stopped? ==> (r.Output? <==> IsRecorded(a)))
  }

  lemma JobIsReported(w: World, log: seq<Record>, d: string, p: Plan, input: Input, a: Answers, after: World, grown: seq<Record>, r: Reply)
    requires JobDone(w, log, d, p, a, after, grown, r) && Agrees(p, input, a)
    requires p.sourceMembers != [] && p.sourceMembers[0] == input.sourceHead
    ensures Reported(w, log, d, p, input, a, after, grown, r) && FollowsFrom(p, input, a, r)
  {
  }

  class Host {
    var refs: map<string, string>
    var edges: map<Pr, Edge>
    var journal: seq<Record>

    constructor (w: World)
      ensures Abs() == w && journal == []
    {
      refs, edges, journal := w.refs, w.edges, [];
    }

    function Abs(): World
      reads this
    {
      World(refs, edges)
    }

    method Push(items: seq<Item>, forward: bool, weather: PushWeather) returns (r: PushReply)
      modifies this`refs
      ensures refs == PushRefs(old(refs), items, forward, weather) && r == PushAnswer(old(refs), items, forward, weather)
    {
      r := PushAnswer(refs, items, forward, weather);
      refs := PushRefs(refs, items, forward, weather);
    }

    method EditBase(pr: Pr, oid: string, base: string, to: string, fault: Fault) returns (ok: bool)
      modifies this`edges
      ensures Abs() == SetBase(old(Abs()), pr, oid, base, to, fault)
      ensures ok <==> Expected(old(Abs()), pr, oid, base) && fault.Fine?
    {
      ok := Expected(Abs(), pr, oid, base) && fault.Fine?;
      edges := SetBase(Abs(), pr, oid, base, to, fault).edges;
    }

    method RollbackHeads(job: Job, env: Env, cause: Exit) returns (e: Exit)
      modifies this`refs
      ensures (Abs(), e) == UndoHeads(old(Abs()), job, env, cause)
    {
      var reply := Push(job.items, false, env.undoPush);
      e := if reply.Landed? then cause else RollbackIndeterminate;
    }

    method RollbackAll(job: Job, env: Env, cause: Exit) returns (e: Exit)
      requires job.items != []
      modifies this`refs, this`edges
      ensures (Abs(), e) == UndoAll(old(Abs()), job, env, cause)
    {
      var root := job.items[0];
      var ok := EditBase(root.pr, root.newOid, job.newBase, job.oldBase, env.undoBase);
      if !ok {
        return MembershipRollbackIndeterminate;
      }
      var reply := Push(job.items, false, env.undoPush);
      e := if reply.Landed? then cause else PhysicalRollbackIndeterminate;
    }

    /** Rewrite, rediscover, set the base edge, and verify the final topology. */
    method Transact(job: Job, env: Env) returns (e: Exit)
      requires job.items != []
      modifies this`refs, this`edges
      ensures (Abs(), e) == Transaction(old(Abs()), job, env)
    {
      if !env.verified {
        return PreparedInvalid;
      }
      var reply := Push(job.items, true, env.push);
      if !reply.Landed? {
        return if reply.Declined? then PushRefused else PushIndeterminate;
      }
      if !Exposed(job, env.reread) {
        e := RollbackHeads(job, env, RediscoveryFailed);
        return;
      }
      var root := job.items[0];
      var ok := EditBase(root.pr, root.newOid, env.reread.value[root.pr].base, job.newBase, env.commit);
      if !ok {
        e := RollbackHeads(job, env, CommitFailed);
      } else if env.finally.None? {
        e := RollbackAll(job, env, FinalUnreadable);
      } else if job.ordering !in env.finally.value {
        e := RollbackAll(job, env, TopologyUnexpected);
      } else {
        e := Complete;
      }
    }

    /** Append the event, then run its hook. */
    method DispatchEvent(p: Plan, append: Fault, hook: Hook) returns (ok: bool)
      modifies this`journal
      ensures ok <==> append.Fine? && (hook.configured ==> hook.recorded && hook.passes)
      ensures journal == old(journal)
        + (if append.Lost? then [] else [Event(Readable(p), true)])
        + (if append.Fine? && hook.configured && hook.recorded then [Delivery] else [])
      ensures !append.Lost? ==> IsNewest(journal, p, |old(journal)|) && journal[|old(journal)|] == Event(Readable(p), true)
    {
      if !append.Lost? {
        ReceiptStaysFound(journal, p, []);
        assert journal + [Event(Readable(p), true)] + [] == journal + [Event(Readable(p), true)];
        ReceiptStaysFound(journal, p, [Delivery]);
        journal := journal + [Event(Readable(p), true)];
      }
      if !append.Fine? {
        return false;
      }
      if !hook.configured {
        return true;
      }
      if hook.recorded {
        journal := journal + [Delivery];
      }
      ok := hook.recorded && hook.passes;
    }

    /**
     Execute one reviewed plan. An existing receipt is returned without a write. Every
     refusal before the transaction leaves all as it was. What the transaction did is
     reported as it ended, and only a complete one is journaled.
     */
    method Execute(expected: Plan, input: Input, a: Answers, ghost d: string) returns (r: Reply)
      requires RefsKnown(Abs()) && (!HasReceipt(journal, expected) ==> Truthful(a.status, Abs(), d))
      modifies this
      ensures Reported(old(Abs()), old(journal), d, expected, input, a, Abs(), journal, r)
      ensures HasCause(old(journal), expected, input, a, r)
      ensures r.Stopped? || r.Committed() || r.PlanRefused? ==> !HasReceipt(old(journal), expected)
    {
      if !a.journalReadable {
        return JournalUnreadable;
      }
      var receipt := ExistingReceipt(journal, expected);
      if receipt.Invalid? {
        return ReceiptInvalid;
      }
      if receipt.Found? {
        return Output(true, receipt.plan);
      }
      if !a.acquired {
        return WriterUnavailable;
      }
      r := ExecutePlan(expected, input, a, d);
    }

    method ExecutePlan(expected: Plan, input: Input, a: Answers, ghost d: string) returns (r: Reply)
      requires RefsKnown(Abs()) && Truthful(a.status, Abs(), d)
      modifies this
      ensures Reported(old(Abs()), old(journal), d, expected, input, a, Abs(), journal, r)
      ensures FollowsFrom(expected, input, a, r)
    {
      if a.status.None? {
        return StatusUnavailable;
      }
      var planned := PlanConcat(a.status.value, input, a.compatibility);
      if planned.Refused? {
        return PlanRefused(planned.refusal);
      }
      if planned.plan != expected {
        StalePlanIsNoPlan(a.status.value, input, expected, planned.plan);
        return PlanStale;
      }
      PlanFitsTheWorld(a.status.value, Abs(), d, input, a.compatibility, expected, a.rewrites);
      if !AllRewritten(expected, a.rewrites) {
        return PrepareFailed;
      }
      ghost var (w, log) := (Abs(), journal);
      r := ExecuteJob(expected, a, d);
      JobIsReported(w, log, d, expected, input, a, Abs(), journal, r);
    }

    method ExecuteJob(p: Plan, a: Answers, ghost d: string) returns (r: Reply)
      requires AllRewritten(p, a.rewrites) && JobJoins(Abs(), d, JobOf(p, a.rewrites), p.targetMembers, p.sourceMembers)
      modifies this
      ensures JobDone(old(Abs()), old(journal), d, p, a, Abs(), journal, r)
    {
      ghost var job := JobOf(p, a.rewrites);
      ExitIsExact(Abs(), job, a.weather, Transaction(Abs(), job, a.weather).1);
      var e := Transact(JobOf(p, a.rewrites), a.weather);
      if e != Complete {
        return Stopped(e);
      }
      var ok := DispatchEvent(p, a.append, a.hook);
      r := if ok then Output(false, p) else HookFailed;
    }

    /**
     Run the same plan twice, each time with a true status of the world as it is then.
     After a run that reached the end, the second one writes nothing: it finds the
     receipt, or is refused because the source heads no caravan or the fleet is unhealthy.
     (The plan must not append to the default branch itself, which joins nothing.)
     */
    method ExecuteTwice(expected: Plan, input: Input, a: Answers, again: World -> Answers, ghost d: string)
      returns (first: Reply, second: Reply, between: World)
      requires RefsKnown(Abs()) && Truthful(a.status, Abs(), d)
      requires forall w :: RefsKnown(w) ==> Truthful(again(w).status, w, d)
      modifies this
      ensures first.Committed() && OffDefault(expected, d) ==> Abs() == between && WritesNothing(second)
      ensures first.Committed() && OffDefault(expected, d) && second.PlanRefused? ==>
        second.refusal in {FleetUnhealthy, SourceHeadNotFound}
      ensures first == Output(false, expected) && again(between).journalReadable ==> second == Output(true, expected)
      ensures HasCause(old(journal), expected, input, a, first)
    {
      ghost var before := Abs();
      first := Execute(expected, input, a, d);
      between := Abs();
      RunKeepsRefs(before, journal, d, expected, input, a, between, first);
      if first.Committed() {
        if OffDefault(expected, d) {
          SecondPlanIsRefused(before, between, d, input, expected, a, again(between));
        }
        second := ExecuteAfterCommit(expected, input, again(between), d);
      } else {
        second := Execute(expected, input, again(between), d);
      }
    }

    method ExecuteAfterCommit(expected: Plan, input: Input, a: Answers, ghost d: string) returns (r: Reply)
      requires RefsKnown(Abs()) && Truthful(a.status, Abs(), d)
      modifies this
      ensures RefusedAsJoined(a, input) ==> Abs() == old(Abs()) && journal == old(journal) && WritesNothing(r)
      ensures RefusedAsJoined(a, input) && r.PlanRefused? ==> r.refusal in {FleetUnhealthy, SourceHeadNotFound}
      ensures a.journalReadable && IsJournaled(old(journal), expected) ==> r == Output(true, expected)
    {
      ghost var (w, log) := (Abs(), journal);
      r := Execute(expected, input, a, d);
      if RefusedAsJoined(a, input) {
        JoinedRunWritesNothing(w, log, d, expected, input, a, Abs(), journal, r);
      }
    }
  }

  predicate OffDefault(p: Plan, d: string) {
    p.members != [] ==> p.members[0].targetBranch != d
  }

  predicate WritesNothing(r: Reply) {
    !r.Committed() && !r.Stopped? && !r.PlanStale? && !r.PrepareFailed?
  }

  lemma RunKeepsRefs(w: World, grown: seq<Record>, d: string, p: Plan, input: Input, a: Answers, after: World, r: Reply)
    requires RefsKnown(w)
    requires exists log :: Reported(w, log, d, p, input, a, after, grown, r)
    ensures RefsKnown(after)
  {
    var log :| Reported(w, log, d, p, input, a, after, grown, r);
    if r.Stopped? || r.Committed() {
      TransactionKeepsRefs(w, JobOf(p, a.rewrites), a.weather);
    }
  }

  /** Some reader tells the truth about every world, and calls healthy exactly the fleets in good shape. */
  lemma SomeReaderIsTruthful(d: string, like: Answers) returns (again: World -> Answers)
    ensures forall w :: Truthful(again(w).status, w, d)
    ensures forall w :: again(w).status.Some? && (again(w).status.value.healthy <==> WellFormed(FleetOf(w), d))
  {
    again := w => like.(status := Some(StatusOf(FleetOf(w), d, "")));
    forall w
      ensures Truthful(again(w).status, w, d)
    {
      StatusOfIsTrue(FleetOf(w), d, "");
    }
  }

  lemma CompleteRunSplices(w: World, after: World, d: string, p: Plan, rewrites: map<Pr, string>, weather: Env)
    requires Ran(w, d, p, rewrites, weather, after, Complete) && p.sourceMembers != [] && OffDefault(p, d)
    ensures Spliced(FleetOf(w), FleetOf(after), d, p.targetMembers, p.sourceMembers, p.sourceMembers[0])
    ensures p.sourceMembers[0] in FleetOf(after)
  {
    EveryExitHasWholeCaravans(w, d, JobOf(p, rewrites), weather, p.targetMembers, p.sourceMembers);
  }

  /** Planning the input again meets one of these two refusals first. */
  ghost predicate RefusedAsJoined(a: Answers, input: Input) {
    a.status.Some? ==>
      IsFirstRefusal(a.status.value, input, a.compatibility, if a.status.value.healthy then SourceHeadNotFound else FleetUnhealthy)
  }

  lemma SecondPlanIsRefused(w: World, after: World, d: string, input: Input, p: Plan, a: Answers, later: Answers)
    requires Accepts(a, input)
    requires Ran(w, d, p, a.rewrites, a.weather, after, Complete) && OffDefault(p, d)
    requires p.sourceMembers != [] && p.sourceMembers[0] == input.sourceHead
    requires Truthful(later.status, after, d)
    ensures RefusedAsJoined(later, input)
  {
    if later.status.Some? {
      CompleteRunSplices(w, after, d, p, a.rewrites, a.weather);
      PlanningAgainIsRefused(a.status.value, FleetOf(w), FleetOf(after), d, input, a.compatibility, p,
                             later.status.value, later.compatibility);
    }
  }

  lemma FirstRefusalIsUnique(s: Status, input: Input, answer: Compatibility, e: Refusal, x: Refusal)
    requires IsFirstRefusal(s, input, answer, e) && IsFirstRefusal(s, input, answer, x) && e.Rank() < 13
    ensures x == e
  {
    assert e.Rank() == x.Rank();
  }

  lemma JoinedRunWritesNothing(w: World, log: seq<Record>, d: string, p: Plan, input: Input, a: Answers,
                               after: World, grown: seq<Record>, r: Reply)
    requires Reported(w, log, d, p, input, a, after, grown, r) && RefusedAsJoined(a, input)
    ensures after == w && grown == log && WritesNothing(r)
    ensures r.PlanRefused? ==> r.refusal in {FleetUnhealthy, SourceHeadNotFound}
  {
    if r.PlanRefused? {
      FirstRefusalIsUnique(a.status.value, input, a.compatibility,
                           if a.status.value.healthy then SourceHeadNotFound else FleetUnhealthy, r.refusal);
    }
  }
}
