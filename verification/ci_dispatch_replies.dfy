/** What stands behind each reply of the CI-start protocol, and what each call replies (src/ci_dispatch.rs). */
module CiDispatchReplies {
  import opened Common
  import opened CiExecutions
  import opened CiDispatch

  // ----- every reply is grounded -----

  /** The event that a reply rests on. */
  function Ground(e: Event): Event
    requires e.Replied?
  {
    match e.disposition
    case Requested => Asked(e.binding, true)
    case Reused => ReuseSaved(e.binding)
    case SuccessorObserved => SuccessorSaved(e.binding, e.seen)
  }

  /** Every reply comes after its ground. */
  ghost predicate AllGrounded(log: seq<Event>) {
    forall j :: 0 <= j < |log| && log[j].Replied? ==> Ground(log[j]) in log[..j]
  }

  lemma AppendKeepsGrounded(log: seq<Event>, e: Event)
    requires AllGrounded(log) && (e.Replied? ==> Ground(e) in log)
    ensures AllGrounded(log + [e])
  {
    forall j | 0 <= j < |log + [e]| && (log + [e])[j].Replied?
      ensures Ground((log + [e])[j]) in (log + [e])[..j]
    {
      assert (log + [e])[..j] == log[..j];
      if j == |log| {
        assert log[..j] == log;
      }
    }
  }

  /** What a checkpoint says has happened. */
  predicate Witnessed(cp: Checkpoint, log: seq<Event>) {
    && (cp.receipt.Some? ==> Asked(cp.binding, true) in log)
    && (cp.disposition.Reused? ==> ReuseSaved(cp.binding) in log)
    && (cp.observed.Some? ==> SuccessorSaved(cp.binding, cp.observed.value) in log)
  }

  predicate IsBlank(cp: Checkpoint) {
    cp.receipt.None? && cp.observed.None?
  }

  ghost predicate PcWitnessed(pc: Pc, log: seq<Event>) {
    match pc
    case Intending(cp) => IsBlank(cp)
    case Asking(cp) => IsBlank(cp) && cp.disposition.Requested?
    case Refusing(cp, _) => IsBlank(cp) && cp.disposition.Requested?
    case Acknowledging(cp, _) => IsBlank(cp) && cp.disposition.Requested? && Asked(cp.binding, true) in log
    case Reconciling(saved, _) => Witnessed(saved, log)
    case _ => true
  }

  ghost predicate StoreWitnessed(store: map<Binding, Checkpoint>, log: seq<Event>) {
    forall b :: b in store ==> Witnessed(store[b], log) && store[b].binding == b && !store[b].disposition.SuccessorObserved?
  }

  ghost predicate IsGrounded(s: State) {
    AllGrounded(s.log) && StoreWitnessed(s.store, s.log) && PcWitnessed(s.pc, s.log)
  }

  lemma MoreIsWitnessed(store: map<Binding, Checkpoint>, log: seq<Event>, more: seq<Event>)
    requires StoreWitnessed(store, log)
    ensures StoreWitnessed(store, log + more)
  {
    forall b | b in store
      ensures Witnessed(store[b], log + more)
    {
      assert Witnessed(store[b], log);
    }
  }

  lemma SavedIsWitnessed(store: map<Binding, Checkpoint>, cp: Checkpoint, fault: Fault, log: seq<Event>)
    requires StoreWitnessed(store, log) && !cp.disposition.SuccessorObserved? && (fault.Lost? || Witnessed(cp, log))
    ensures StoreWitnessed(Save(store, cp, fault), log)
  {
  }

  lemma StartKeepsGrounded(s: State, b: Binding, selected: Execution, operationId: nat, loads: bool)
    requires IsGrounded(s)
    ensures IsGrounded(StartStep(s, b, selected, operationId, loads))
  {
    if b in s.store {
      assert Witnessed(s.store[b], s.log);
    }
  }

  lemma ChoosingKeepsGrounded(s: State, b: Binding, selected: Execution, operationId: nat, preflight: bool)
    requires IsGrounded(s)
    ensures IsGrounded(ChoosingStep(s, b, selected, operationId, preflight))
  {
  }

  lemma IntendingKeepsGrounded(s: State, cp: Checkpoint, fault: Fault)
    requires IsGrounded(s) && IsBlank(cp) && !cp.disposition.SuccessorObserved?
    ensures IsGrounded(IntendingStep(s, cp, fault))
  {
    if cp.disposition.Reused? && !fault.Lost? {
      var log := s.log + [ReuseSaved(cp.binding)];
      AppendKeepsGrounded(s.log, ReuseSaved(cp.binding));
      MoreIsWitnessed(s.store, s.log, [ReuseSaved(cp.binding)]);
      assert Witnessed(cp, log);
      SavedIsWitnessed(s.store, cp, fault, log);
      var reply := Replied(cp.binding, Reused, cp.selected);
      AppendKeepsGrounded(log, reply);
      MoreIsWitnessed(Save(s.store, cp, fault), log, [reply]);
      assert log + [] == log && s.log + [ReuseSaved(cp.binding)] + [reply] == log + [reply];
    } else {
      assert s.log + [] + [] == s.log;
      if cp.disposition.Requested? {
        SavedIsWitnessed(s.store, cp, fault, s.log);
      }
    }
  }

  lemma AskingKeepsGrounded(s: State, cp: Checkpoint, answer: Answer)
    requires IsGrounded(s) && s.pc == Asking(cp)
    ensures IsGrounded(AskingStep(s, cp, answer))
  {
    var t := AskingStep(s, cp, answer);
    var e := t.log[|s.log|];
    assert t.log == s.log + [e];
    AppendKeepsGrounded(s.log, e);
    MoreIsWitnessed(s.store, s.log, [e]);
  }

  lemma RefusingKeepsGrounded(s: State, cp: Checkpoint, code: string, fault: Fault)
    requires IsGrounded(s) && s.pc == Refusing(cp, code)
    ensures IsGrounded(RefusingStep(s, cp, code, fault))
  {
    var refused := cp.(refused := Some(code));
    SavedIsWitnessed(s.store, refused, fault, s.log);
    AppendKeepsGrounded(s.log, RefusalSaved(cp.binding));
    MoreIsWitnessed(Save(s.store, refused, fault), s.log, [RefusalSaved(cp.binding)]);
  }

  lemma AcknowledgingKeepsGrounded(s: State, cp: Checkpoint, receipt: nat, fault: Fault)
    requires IsGrounded(s) && s.pc == Acknowledging(cp, receipt)
    ensures IsGrounded(AcknowledgingStep(s, cp, receipt, fault))
  {
    var acknowledged := cp.(receipt := Some(receipt));
    var reply := Replied(cp.binding, Requested, cp.selected);
    SavedIsWitnessed(s.store, acknowledged, fault, s.log);
    AppendKeepsGrounded(s.log, reply);
    MoreIsWitnessed(Save(s.store, acknowledged, fault), s.log, [reply]);
  }

  lemma SuccessorKeepsGrounded(s: State, saved: Checkpoint, selected: Execution, fault: Fault)
    requires IsGrounded(s) && s.pc == Reconciling(saved, selected) && !saved.disposition.SuccessorObserved? && !fault.Lost?
    ensures
      var e := SuccessorSaved(saved.binding, selected);
      var observed := saved.(observed := Some(selected));
      var reply := Replied(saved.binding, SuccessorObserved, selected);
      && AllGrounded(s.log + [e]) && StoreWitnessed(Save(s.store, observed, fault), s.log + [e])
      && AllGrounded((s.log + [e]) + [reply]) && StoreWitnessed(Save(s.store, observed, fault), (s.log + [e]) + [reply])
  {
    var e := SuccessorSaved(saved.binding, selected);
    var observed := saved.(observed := Some(selected));
    var reply := Replied(saved.binding, SuccessorObserved, selected);
    var log := s.log + [e];
    AppendKeepsGrounded(s.log, e);
    MoreIsWitnessed(s.store, s.log, [e]);
    assert Witnessed(observed, log);
    SavedIsWitnessed(s.store, observed, fault, log);
    AppendKeepsGrounded(log, reply);
    MoreIsWitnessed(Save(s.store, observed, fault), log, [reply]);
  }

  lemma ReconcilingKeepsGrounded(s: State, saved: Checkpoint, selected: Execution, fault: Fault)
    requires IsGrounded(s) && s.pc == Reconciling(saved, selected) && !saved.disposition.SuccessorObserved?
    ensures IsGrounded(ReconcilingStep(s, saved, selected, fault))
  {
    var t := ReconcilingStep(s, saved, selected, fault);
    if selected.Succeeds(saved.selected) && !(saved.observed.Some? && !selected.Follows(saved.observed.value)) {
      if fault.Lost? {
        assert t.log == s.log && t.store == s.store;
      } else {
        SuccessorKeepsGrounded(s, saved, selected, fault);
        var log := s.log + [SuccessorSaved(saved.binding, selected)];
        assert t.log == if fault.Fine? then log + [Replied(saved.binding, SuccessorObserved, selected)] else log;
      }
    } else {
      var e :=
        if saved.observed.Some? && !selected.Follows(saved.observed.value) then Regressed(saved.binding, selected)
        else if selected.SameExecution(saved.selected) && (saved.receipt.Some? || saved.disposition.Reused?) then
          Replied(saved.binding, saved.disposition, selected)
        else Uncertain(saved.binding, selected);
      assert t.log == s.log + [e] && t.store == s.store;
      AppendKeepsGrounded(s.log, e);
      MoreIsWitnessed(s.store, s.log, [e]);
    }
  }

  lemma StepKeepsGrounded(s: State, c: Choice)
    requires Inv(s) && IsGrounded(s)
    ensures IsGrounded(Step(s, c))
  {
    match c
    case Crash =>
    case Start(b, selected, operationId, loads) => StartKeepsGrounded(s, b, selected, operationId, loads);
    case Go(fault, preflight, answer) =>
      match s.pc {
        case Choosing(b, selected, operationId) => ChoosingKeepsGrounded(s, b, selected, operationId, preflight);
        case Intending(cp) => IntendingKeepsGrounded(s, cp, fault);
        case Asking(cp) => AskingKeepsGrounded(s, cp, answer);
        case Refusing(cp, code) => RefusingKeepsGrounded(s, cp, code, fault);
        case Acknowledging(cp, receipt) => AcknowledgingKeepsGrounded(s, cp, receipt, fault);
        case Reconciling(saved, selected) => ReconcilingKeepsGrounded(s, saved, selected, fault);
        case _ =>
      }
  }

  /**
   Over every run, whatever is lost and wherever the process stops: a caller is told
   `Requested` only after a start that took effect, `Reused` only after the reuse was
   durable, and `SuccessorObserved` only after that very successor was.
   */
  lemma {:induction false} EveryReplyIsGrounded(choices: seq<Choice>)
    ensures AllGrounded(Run(INITIAL, choices).log)
    ensures IsGrounded(Run(INITIAL, choices))
  {
    if choices != [] {
      var some := choices[..|choices| - 1];
      RunKeepsInv(INITIAL, some);
      EveryReplyIsGrounded(some);
      StepKeepsGrounded(Run(INITIAL, some), choices[|choices| - 1]);
    }
  }

  // ----- what each call replies -----

  /** A call on anything but a matching, readable, well-formed checkpoint changes nothing. */
  lemma UnfitCallsChangeNothing(s: State, b: Binding, selected: Execution, operationId: nat, w: Weather)
    requires s.pc.Idle?
    requires
      || b.pullRequest != selected.pullRequest || b.workflowId != selected.workflowId || !w.loads
      || (b in s.store && (s.store[b].schemaVersion != 1 || s.store[b].binding != b || s.store[b].disposition.SuccessorObserved?))
    ensures Call(s, b, selected, operationId, w) == s
  {
  }

  /** The call finds a standing intent, or the durable reuse, for its binding. */
  predicate FindsStanding(s: State, b: Binding, selected: Execution, w: Weather) {
    && s.pc.Idle? && w.loads && b in s.store && b.pullRequest == selected.pullRequest && b.workflowId == selected.workflowId
    && s.store[b].schemaVersion == 1 && s.store[b].binding == b && !s.store[b].disposition.SuccessorObserved?
    && s.store[b].refused.None?
  }

  lemma StandingIsReconciled(s: State, b: Binding, selected: Execution, operationId: nat, w: Weather)
    requires FindsStanding(s, b, selected, w)
    ensures Call(s, b, selected, operationId, w) == ReconcilingStep(s.(pc := Reconciling(s.store[b], selected)), s.store[b], selected, w.observing)
  {
    OneStepOfMany(s.(pc := Reconciling(s.store[b], selected)), w);
  }

  /** The same execution again, without an acknowledgement: the call ends uncertain, asks nobody and stores nothing. */
  lemma UnacknowledgedIntentIsUncertain(s: State, b: Binding, selected: Execution, operationId: nat, w: Weather)
    requires FindsStanding(s, b, selected, w) && selected.SameExecution(s.store[b].selected)
    requires s.store[b].disposition.Requested? && s.store[b].receipt.None? && s.store[b].observed.None?
    ensures Call(s, b, selected, operationId, w) == s.(log := s.log + [Uncertain(b, selected)])
  {
    StandingIsReconciled(s, b, selected, operationId, w);
  }

  /** With an acknowledgement, or a durable reuse, the call confirms it. */
  lemma KnownStartIsConfirmed(s: State, b: Binding, selected: Execution, operationId: nat, w: Weather)
    requires FindsStanding(s, b, selected, w) && selected.SameExecution(s.store[b].selected)
    requires (s.store[b].disposition.Reused? || s.store[b].receipt.Some?) && s.store[b].observed.None?
    ensures Call(s, b, selected, operationId, w) == s.(log := s.log + [Replied(b, s.store[b].disposition, selected)])
  {
    StandingIsReconciled(s, b, selected, operationId, w);
  }

  /** A successor that does not fall behind an observed one is stored, then reported. */
  lemma SuccessorIsStoredThenReported(s: State, b: Binding, selected: Execution, operationId: nat, w: Weather)
    requires FindsStanding(s, b, selected, w) && selected.Succeeds(s.store[b].selected) && w.observing.Fine?
    requires s.store[b].observed.Some? ==> selected.Follows(s.store[b].observed.value)
    ensures Call(s, b, selected, operationId, w)
         == s.(store := s.store[b := s.store[b].(observed := Some(selected))],
               log := s.log + [SuccessorSaved(b, selected), Replied(b, SuccessorObserved, selected)])
  {
    StandingIsReconciled(s, b, selected, operationId, w);
    assert s.log + [SuccessorSaved(b, selected)] + [Replied(b, SuccessorObserved, selected)]
        == s.log + [SuccessorSaved(b, selected), Replied(b, SuccessorObserved, selected)];
  }

  /** An execution that is neither the same nor a successor proves nothing. */
  lemma ForeignExecutionIsUncertain(s: State, b: Binding, selected: Execution, operationId: nat, w: Weather)
    requires FindsStanding(s, b, selected, w) && s.store[b].observed.None?
    requires !selected.SameExecution(s.store[b].selected) && !selected.Succeeds(s.store[b].selected)
    ensures Call(s, b, selected, operationId, w) == s.(log := s.log + [Uncertain(b, selected)])
  {
    StandingIsReconciled(s, b, selected, operationId, w);
  }

  /** The call finds no checkpoint. */
  predicate FindsNothing(s: State, b: Binding, selected: Execution, w: Weather) {
    s.pc.Idle? && w.loads && b !in s.store && b.pullRequest == selected.pullRequest && b.workflowId == selected.workflowId
  }

  /** Nothing is stored for an execution that cannot be restarted, or whose preflight fails. */
  lemma UnrestartableIsRefused(s: State, b: Binding, selected: Execution, operationId: nat, w: Weather)
    requires FindsNothing(s, b, selected, w) && !selected.Reusable() && (!selected.Requestable() || !w.preflight)
    ensures Call(s, b, selected, operationId, w) == s
  {
    OneStepOfMany(s.(pc := Choosing(b, selected, operationId)), w);
  }

  /** A reusable execution is stored as reused, then reported. */
  lemma ReusableIsReused(s: State, b: Binding, selected: Execution, operationId: nat, w: Weather)
    requires FindsNothing(s, b, selected, w) && selected.Reusable() && w.intending.Fine?
    ensures Call(s, b, selected, operationId, w)
         == s.(store := s.store[b := Checkpoint(1, b, selected, operationId, Reused, None, None, None)],
               log := s.log + [ReuseSaved(b), Replied(b, Reused, selected)])
  {
    OneStepOfMany(s.(pc := Choosing(b, selected, operationId)), w);
    OneStepOfMany(s.(pc := Intending(NewCheckpoint(b, selected, operationId, Reused))), w);
    assert s.log + [ReuseSaved(b)] + [Replied(b, Reused, selected)] == s.log + [ReuseSaved(b), Replied(b, Reused, selected)];
  }

  /** An intent whose save fails asks nobody, whether or not it was stored. */
  lemma UnsavedIntentAsksNobody(s: State, b: Binding, selected: Execution, operationId: nat, w: Weather)
    requires FindsNothing(s, b, selected, w) && !selected.Reusable() && selected.Requestable() && w.preflight && !w.intending.Fine?
    ensures Call(s, b, selected, operationId, w)
         == if w.intending.Lost? then s
            else s.(store := s.store[b := Checkpoint(1, b, selected, operationId, Requested, None, None, None)])
  {
    OneStepOfMany(s.(pc := Choosing(b, selected, operationId)), w);
    OneStepOfMany(s.(pc := Intending(NewCheckpoint(b, selected, operationId, Requested))), w);
  }

  /** A restartable execution is asked for after its intent is stored; then the answer is recorded. */
  lemma RequestIsRecorded(s: State, b: Binding, selected: Execution, operationId: nat, w: Weather)
    requires FindsNothing(s, b, selected, w) && !selected.Reusable() && selected.Requestable() && w.preflight
    requires w.intending.Fine? && w.recording.Fine?
    ensures
      var cp := Checkpoint(1, b, selected, operationId, Requested, None, None, None);
      Call(s, b, selected, operationId, w) ==
        match w.answer
        case Accepted(receipt) =>
          s.(store := s.store[b := cp.(receipt := Some(receipt))], log := s.log + [Asked(b, true), Replied(b, Requested, selected)])
        case RefusedBeforeWrite(code) =>
          s.(store := s.store[b := cp.(refused := Some(code))], log := s.log + [Asked(b, false), RefusalSaved(b)])
        case Failed(effective) =>
          s.(store := s.store[b := cp], log := s.log + [Asked(b, effective)])
  {
    var cp := NewCheckpoint(b, selected, operationId, Requested);
    OneStepOfMany(s.(pc := Choosing(b, selected, operationId)), w);
    OneStepOfMany(s.(pc := Intending(cp)), w);
    IntentIsSaved(s, cp, w);
    AnswerIsRecorded(s, cp, w);
  }

  lemma IntentIsSaved(s: State, cp: Checkpoint, w: Weather)
    requires cp.disposition.Requested? && w.intending.Fine?
    ensures Step(s.(pc := Intending(cp)), NextChoice(Intending(cp), w)) == s.(store := s.store[cp.binding := cp], pc := Asking(cp))
  {
  }

  lemma AnswerIsRecorded(s: State, cp: Checkpoint, w: Weather)
    requires w.recording.Fine? && s.pc.Idle?
    ensures
      var b := cp.binding;
      var store := s.store[b := cp];
      Drive(s.(store := store, pc := Asking(cp)), w) ==
        match w.answer
        case Accepted(receipt) =>
          s.(store := store[b := cp.(receipt := Some(receipt))], log := s.log + [Asked(b, true), Replied(b, Requested, cp.selected)])
        case RefusedBeforeWrite(code) =>
          s.(store := store[b := cp.(refused := Some(code))], log := s.log + [Asked(b, false), RefusalSaved(b)])
        case Failed(effective) => s.(store := store, log := s.log + [Asked(b, effective)])
  {
    var b := cp.binding;
    var t := s.(store := s.store[b := cp], pc := Asking(cp));
    OneStepOfMany(t, w);
    match w.answer
    case Accepted(receipt) =>
      OneStepOfMany(t.(log := t.log + [Asked(b, true)], pc := Acknowledging(cp, receipt)), w);
      assert t.log + [Asked(b, true)] + [Replied(b, Requested, cp.selected)] == t.log + [Asked(b, true), Replied(b, Requested, cp.selected)];
    case RefusedBeforeWrite(code) =>
      OneStepOfMany(t.(log := t.log + [Asked(b, false)], pc := Refusing(cp, code)), w);
      assert t.log + [Asked(b, false)] + [RefusalSaved(b)] == t.log + [Asked(b, false), RefusalSaved(b)];
    case Failed(effective) =>
  }

  /** A refused checkpoint is put away first; then the call goes on as if it had never been. */
  lemma RefusedCheckpointIsArchived(s: State, b: Binding, selected: Execution, operationId: nat, w: Weather)
    requires s.pc.Idle? && w.loads && b in s.store && b.pullRequest == selected.pullRequest && b.workflowId == selected.workflowId
    requires s.store[b].schemaVersion == 1 && s.store[b].binding == b && !s.store[b].disposition.SuccessorObserved?
    requires s.store[b].refused.Some? && w.archiving.Fine? && w.removing.Fine?
    ensures Call(s, b, selected, operationId, w)
         == Call(s.(store := s.store - {b}, archive := s.archive + {s.store[b]}), b, selected, operationId, w)
  {
    var t := s.(pc := Archiving(s.store[b], selected, operationId));
    OneStepOfMany(t, w);
    OneStepOfMany(t.(archive := s.archive + {s.store[b]}, pc := Removing(b, selected, operationId)), w);
  }
}
