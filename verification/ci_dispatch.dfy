/**
 The durable CI-start protocol (src/ci_dispatch.rs) as a system of single steps.
 Between two steps the process may stop; every durable write may be lost, or may
 take effect and still report an error; the provider may lose its reply.
 */
module CiDispatch {
  import opened Common
  import opened Sequences
  import opened CiExecutions

  datatype Disposition = Requested | Reused | SuccessorObserved

  datatype Binding = Binding(repository: string, pullRequest: PullBinding, members: seq<Pr>, workflowId: nat)

  datatype Checkpoint = Checkpoint(
    schemaVersion: nat,
    binding: Binding,
    selected: Execution,
    operationId: nat,
    disposition: Disposition,
    receipt: Option<nat>,
    observed: Option<Execution>,
    refused: Option<string>)

  /** Reply of the provider. Only a typed refusal promises that nothing was started. */
  datatype Answer = Accepted(receipt: nat) | RefusedBeforeWrite(code: string) | Failed(effective: bool)

  /** What became durable, what the provider was asked, and what the caller was told. */
  datatype Event =
    | Asked(binding: Binding, effective: bool)
    | RefusalSaved(binding: Binding)
    | ReuseSaved(binding: Binding)
    | SuccessorSaved(binding: Binding, seen: Execution)
    | Replied(binding: Binding, disposition: Disposition, seen: Execution)
    | Regressed(binding: Binding, seen: Execution)
    | Uncertain(binding: Binding, seen: Execution)

  /** Next action of the one process that holds the writer guard. */
  datatype Pc =
    | Idle
    | Archiving(saved: Checkpoint, selected: Execution, operationId: nat)
    | Removing(binding: Binding, selected: Execution, operationId: nat)
    | Choosing(binding: Binding, selected: Execution, operationId: nat)
    | Intending(checkpoint: Checkpoint)
    | Asking(checkpoint: Checkpoint)
    | Refusing(checkpoint: Checkpoint, code: string)
    | Acknowledging(checkpoint: Checkpoint, receipt: nat)
    | Reconciling(saved: Checkpoint, selected: Execution)

  /** The digest that names a checkpoint is injective, so the binding is its key. */
  datatype State = State(
    store: map<Binding, Checkpoint>,
    archive: set<Checkpoint>,
    log: seq<Event>,
    pc: Pc)

  datatype Choice =
    | Start(binding: Binding, selected: Execution, operationId: nat, loads: bool)
    | Go(fault: Fault, preflight: bool, answer: Answer)
    | Crash

  const INITIAL := State(map[], {}, [], Idle)

  function NewCheckpoint(b: Binding, selected: Execution, operationId: nat, d: Disposition): Checkpoint {
    Checkpoint(1, b, selected, operationId, d, None, None, None)
  }

  function Save(store: map<Binding, Checkpoint>, cp: Checkpoint, fault: Fault): map<Binding, Checkpoint> {
    if fault.Lost? then store else store[cp.binding := cp]
  }

  /** The entry of `dispatch`: match the binding, load, and pick the path. */
  function StartStep(s: State, b: Binding, selected: Execution, operationId: nat, loads: bool): State {
    if b.pullRequest != selected.pullRequest || b.workflowId != selected.workflowId || !loads then s
    else if b in s.store then
      var saved := s.store[b];
      if saved.schemaVersion != 1 || saved.binding != b || saved.disposition.SuccessorObserved? then s
      else if saved.refused.None? then s.(pc := Reconciling(saved, selected))
      else s.(pc := Archiving(saved, selected, operationId))
    else s.(pc := Choosing(b, selected, operationId))
  }

  function ChoosingStep(s: State, b: Binding, selected: Execution, operationId: nat, preflight: bool): State {
    if selected.Reusable() then s.(pc := Intending(NewCheckpoint(b, selected, operationId, Reused)))
    else if !selected.Requestable() || !preflight then s.(pc := Idle)
    else s.(pc := Intending(NewCheckpoint(b, selected, operationId, Requested)))
  }

  function IntendingStep(s: State, cp: Checkpoint, fault: Fault): State {
    var store := Save(s.store, cp, fault);
    if cp.disposition.Reused? then
      var durable := if fault.Lost? then [] else [ReuseSaved(cp.binding)];
      var reply := if fault.Fine? then [Replied(cp.binding, Reused, cp.selected)] else [];
      s.(store := store, log := s.log + durable + reply, pc := Idle)
    else s.(store := store, pc := if fault.Fine? then Asking(cp) else Idle)
  }

  function AskingStep(s: State, cp: Checkpoint, answer: Answer): State {
    match answer
    case Accepted(receipt) => s.(log := s.log + [Asked(cp.binding, true)], pc := Acknowledging(cp, receipt))
    case RefusedBeforeWrite(code) => s.(log := s.log + [Asked(cp.binding, false)], pc := Refusing(cp, code))
    case Failed(effective) => s.(log := s.log + [Asked(cp.binding, effective)], pc := Idle)
  }

  function RefusingStep(s: State, cp: Checkpoint, code: string, fault: Fault): State {
    s.(store := Save(s.store, cp.(refused := Some(code)), fault),
       log := if fault.Lost? then s.log else s.log + [RefusalSaved(cp.binding)],
       pc := Idle)
  }

  function AcknowledgingStep(s: State, cp: Checkpoint, receipt: nat, fault: Fault): State {
    s.(store := Save(s.store, cp.(receipt := Some(receipt)), fault),
       log := if fault.Fine? then s.log + [Replied(cp.binding, Requested, cp.selected)] else s.log,
       pc := Idle)
  }

  function ReconcilingStep(s: State, saved: Checkpoint, selected: Execution, fault: Fault): State {
    var b := saved.binding;
    if saved.observed.Some? && !selected.Follows(saved.observed.value) then
      s.(log := s.log + [Regressed(b, selected)], pc := Idle)
    else if selected.Succeeds(saved.selected) then
      var durable := if fault.Lost? then [] else [SuccessorSaved(b, selected)];
      var reply := if fault.Fine? then [Replied(b, SuccessorObserved, selected)] else [];
      s.(store := Save(s.store, saved.(observed := Some(selected)), fault), log := s.log + durable + reply, pc := Idle)
    else if selected.SameExecution(saved.selected) && (saved.receipt.Some? || saved.disposition.Reused?) then
      s.(log := s.log + [Replied(b, saved.disposition, selected)], pc := Idle)
    else s.(log := s.log + [Uncertain(b, selected)], pc := Idle)
  }

  function Step(s: State, c: Choice): State {
    match c
    case Crash => s.(pc := Idle)
    case Start(b, selected, operationId, loads) =>
      if s.pc.Idle? then StartStep(s, b, selected, operationId, loads) else s
    case Go(fault, preflight, answer) =>
      match s.pc
      case Idle => s
      case Archiving(saved, selected, operationId) =>
        s.(archive := if fault.Lost? then s.archive else s.archive + {saved},
           pc := if fault.Fine? then Removing(saved.binding, selected, operationId) else Idle)
      case Removing(b, selected, operationId) =>
        s.(store := if fault.Lost? then s.store else s.store - {b},
           pc := if fault.Fine? then Choosing(b, selected, operationId) else Idle)
      case Choosing(b, selected, operationId) => ChoosingStep(s, b, selected, operationId, preflight)
      case Intending(cp) => IntendingStep(s, cp, fault)
      case Asking(cp) => AskingStep(s, cp, answer)
      case Refusing(cp, code) => RefusingStep(s, cp, code, fault)
      case Acknowledging(cp, receipt) => AcknowledgingStep(s, cp, receipt, fault)
      case Reconciling(saved, selected) => ReconcilingStep(s, saved, selected, fault)
  }

  function Run(s: State, choices: seq<Choice>): State {
    if choices == [] then s else Step(Run(s, choices[..|choices| - 1]), choices[|choices| - 1])
  }

  // ----- what a log promises -----

  ghost predicate RefusedBetween(log: seq<Event>, i: nat, j: nat, b: Binding) {
    exists k :: i < k < j && k < |log| && log[k] == RefusalSaved(b)
  }

  /** What may stand at `i` when `later` stands at `j` in the history of one binding. */
  ghost predicate Orderly(log: seq<Event>, i: nat, j: nat)
    requires i < j < |log|
  {
    var (first, later) := (log[i], log[j]);
    first.binding == later.binding ==>
      && (first.Asked? && later.Asked? ==> !first.effective && RefusedBetween(log, i, j, first.binding))
      && (first.ReuseSaved? ==> !later.Asked?)
      && (first.SuccessorSaved? ==>
          && !later.Asked?
          && !later.Uncertain?
          && (later.SuccessorSaved? ==> later.seen.Follows(first.seen))
          && (later.Replied? ==> later.disposition.SuccessorObserved? && later.seen.Follows(first.seen)))
  }

  ghost predicate Safe(log: seq<Event>) {
    forall i, j :: 0 <= i < j < |log| ==> Orderly(log, i, j)
  }

  /** Nothing that forbids a start was recorded for `b`, and nothing was started. */
  ghost predicate Harmless(log: seq<Event>, b: Binding) {
    forall i :: 0 <= i < |log| && log[i].binding == b ==>
      !log[i].ReuseSaved? && !log[i].SuccessorSaved? && (log[i].Asked? ==> !log[i].effective)
  }

  /** Moreover every request for `b` is followed by its durable refusal. */
  ghost predicate Clear(log: seq<Event>, b: Binding) {
    && Harmless(log, b)
    && forall i :: 0 <= i < |log| && log[i].binding == b && log[i].Asked? ==> RefusedBetween(log, i, |log|, b)
  }

  ghost predicate NoSuccessor(log: seq<Event>, b: Binding) {
    forall i :: 0 <= i < |log| && log[i].binding == b ==> !log[i].SuccessorSaved?
  }

  // ----- the invariant -----

  ghost predicate GoodCheckpoint(cp: Checkpoint, b: Binding) {
    && cp.schemaVersion == 1
    && cp.binding == b
    && !cp.disposition.SuccessorObserved?
    && (cp.observed.Some? ==> cp.refused.None? && cp.observed.value.Succeeds(cp.selected))
  }

  ghost predicate StoreOk(s: State) {
    forall b :: b in s.store ==> GoodCheckpoint(s.store[b], b)
  }

  ghost predicate Free(s: State, b: Binding) {
    b !in s.store || s.store[b].refused.Some?
  }

  ghost predicate FreeMeansClear(s: State) {
    forall b {:trigger Free(s, b)} {:trigger Clear(s.log, b)} :: Free(s, b) ==> Clear(s.log, b)
  }

  /** A successor in the log is still known to the store. */
  ghost predicate Remembered(s: State, e: Event) {
    e.SuccessorSaved? ==>
      && e.binding in s.store
      && s.store[e.binding].refused.None?
      && s.store[e.binding].observed.Some?
      && s.store[e.binding].observed.value.Follows(e.seen)
  }

  ghost predicate AllRemembered(s: State) {
    forall i :: 0 <= i < |s.log| ==> Remembered(s, s.log[i])
  }

  ghost predicate PcOk(s: State) {
    match s.pc
    case Idle => true
    case Archiving(saved, _, _) =>
      saved.binding in s.store && s.store[saved.binding] == saved && saved.refused.Some?
    case Removing(b, _, _) => Free(s, b)
    case Choosing(b, _, _) => b !in s.store
    case Intending(cp) =>
      && cp.binding !in s.store
      && GoodCheckpoint(cp, cp.binding) && cp.observed.None? && cp.refused.None?
    case Asking(cp) =>
      && cp.binding in s.store && s.store[cp.binding] == cp && Clear(s.log, cp.binding)
      && cp.observed.None? && cp.refused.None? && cp.disposition.Requested?
    case Refusing(cp, _) =>
      && cp.binding in s.store && s.store[cp.binding] == cp && Harmless(s.log, cp.binding)
      && cp.observed.None? && cp.refused.None?
    case Acknowledging(cp, _) =>
      && cp.binding in s.store && s.store[cp.binding] == cp && NoSuccessor(s.log, cp.binding)
      && cp.observed.None? && cp.refused.None?
    case Reconciling(saved, _) =>
      && saved.binding in s.store && s.store[saved.binding] == saved && saved.refused.None?
  }

  ghost predicate Inv(s: State) {
    Safe(s.log) && StoreOk(s) && FreeMeansClear(s) && AllRemembered(s) && PcOk(s)
  }

  // ----- preservation -----

  /** An event may be appended when it is orderly after every earlier event. */
  lemma AppendKeepsSafe(log: seq<Event>, e: Event)
    requires Safe(log)
    requires e.Asked? ==> Clear(log, e.binding)
    requires (e.Uncertain? || e.Replied? || e.SuccessorSaved?) ==>
      forall i :: 0 <= i < |log| && log[i].SuccessorSaved? && log[i].binding == e.binding ==>
        && !e.Uncertain?
        && (e.Replied? ==> e.disposition.SuccessorObserved?)
        && e.seen.Follows(log[i].seen)
    ensures Safe(log + [e])
  {
    var grown := log + [e];
    forall i, j | 0 <= i < j < |grown|
      ensures Orderly(grown, i, j)
    {
      if j < |log| {
        assert Orderly(log, i, j);
        if RefusedBetween(log, i, j, log[i].binding) {
          var k :| i < k < j && k < |log| && log[k] == RefusalSaved(log[i].binding);
          assert grown[k] == log[k];
        }
      } else if e.Asked? && log[i].binding == e.binding && log[i].Asked? {
        assert RefusedBetween(log, i, |log|, e.binding);
        var k :| i < k < |log| && log[k] == RefusalSaved(e.binding);
        assert grown[k] == log[k];
      }
    }
  }

  /** Which events leave the promises about a binding in force. */
  lemma AppendKeepsClear(log: seq<Event>, e: Event, b: Binding)
    requires e.binding == b ==> !e.ReuseSaved? && !e.SuccessorSaved? && (e.Asked? ==> !e.effective)
    ensures Harmless(log, b) ==> Harmless(log + [e], b)
    ensures Clear(log, b) && (e.binding == b ==> !e.Asked?) ==> Clear(log + [e], b)
    ensures Harmless(log, b) && e == RefusalSaved(b) ==> Clear(log + [e], b)
  {
    var grown := log + [e];
    if Harmless(log, b) {
      forall i | 0 <= i < |grown| && grown[i].binding == b && grown[i].Asked? && !(e.binding == b && e.Asked?)
        && (Clear(log, b) || e == RefusalSaved(b))
        ensures RefusedBetween(grown, i, |grown|, b)
      {
        if e == RefusalSaved(b) {
          assert grown[|log|] == e && i < |log|;
        } else {
          assert log[i] == grown[i] && RefusedBetween(log, i, |log|, b);
          var k :| i < k < |log| && log[k] == RefusalSaved(b);
          assert grown[k] == log[k];
        }
      }
    }
  }

  /** One durable or visible event together with the checkpoint it belongs to. */
  lemma AppendKeepsRest(s: State, t: State, e: Event)
    requires FreeMeansClear(s) && AllRemembered(s) && StoreOk(s) && StoreOk(t)
    requires t.log == s.log + [e]
    requires forall b :: b != e.binding ==> (b in t.store <==> b in s.store)
    requires forall b :: b != e.binding && b in s.store ==> t.store[b] == s.store[b]
    requires Free(t, e.binding) ==> Clear(t.log, e.binding)
    requires Remembered(t, e)
    requires forall i :: 0 <= i < |s.log| && s.log[i].binding == e.binding ==> Remembered(t, s.log[i])
    ensures FreeMeansClear(t) && AllRemembered(t)
  {
    forall b | Free(t, b)
      ensures Clear(t.log, b)
    {
      if b != e.binding {
        assert Free(s, b);
        AppendKeepsClear(s.log, e, b);
      }
    }
    forall i | 0 <= i < |t.log|
      ensures Remembered(t, t.log[i])
    {
      if i < |s.log| {
        assert Remembered(s, s.log[i]);
      }
    }
  }

  lemma StartStepKeepsInv(s: State, b: Binding, selected: Execution, operationId: nat, loads: bool)
    requires Inv(s) && s.pc.Idle?
    ensures Inv(StartStep(s, b, selected, operationId, loads))
  {
    SameLogKeepsRest(s, StartStep(s, b, selected, operationId, loads));
  }

  /** Steps that only drop or add checkpoints of bindings that stay free, or nothing. */
  lemma SameLogKeepsRest(s: State, t: State)
    requires FreeMeansClear(s) && AllRemembered(s)
    requires t.log == s.log
    requires forall b :: b in s.store && s.store[b].refused.None? ==> b in t.store && t.store[b] == s.store[b]
    ensures FreeMeansClear(t) && AllRemembered(t)
  {
    forall b | Free(t, b)
      ensures Clear(t.log, b)
    {
      assert Free(s, b);
    }
    forall i | 0 <= i < |t.log|
      ensures Remembered(t, t.log[i])
    {
      assert Remembered(s, s.log[i]);
    }
  }

  lemma IntendingKeepsInv(s: State, cp: Checkpoint, fault: Fault)
    requires Inv(s) && s.pc == Intending(cp)
    ensures Inv(IntendingStep(s, cp, fault))
  {
    var t := IntendingStep(s, cp, fault);
    assert Free(s, cp.binding);
    if cp.disposition.Requested? || fault.Lost? {
      SameLogKeepsRest(s, t);
    } else {
      var e := ReuseSaved(cp.binding);
      var u := s.(store := t.store, log := s.log + [e], pc := Idle);
      AppendKeepsSafe(s.log, e);
      AppendKeepsRest(s, u, e);
      if fault.Fine? {
        ReplyKeepsInv(u, Replied(cp.binding, Reused, cp.selected));
        assert t.log == u.log + [Replied(cp.binding, Reused, cp.selected)];
      } else {
        assert t.log == u.log;
      }
    }
  }

  /** A reply that agrees with every recorded successor changes nothing durable. */
  lemma ReplyKeepsInv(s: State, e: Event)
    requires Inv(s) && s.pc.Idle?
    requires e.Replied? || e.Regressed? || e.Uncertain?
    requires !Free(s, e.binding)
    requires e.Uncertain? ==> NoSuccessor(s.log, e.binding)
    requires e.Replied? ==> forall i :: 0 <= i < |s.log| && s.log[i].SuccessorSaved? && s.log[i].binding == e.binding ==>
      e.disposition.SuccessorObserved? && e.seen.Follows(s.log[i].seen)
    ensures Inv(s.(log := s.log + [e]))
  {
    AppendKeepsSafe(s.log, e);
    AppendKeepsRest(s, s.(log := s.log + [e]), e);
  }

  lemma AskingKeepsInv(s: State, cp: Checkpoint, answer: Answer)
    requires Inv(s) && s.pc == Asking(cp)
    ensures Inv(AskingStep(s, cp, answer))
  {
    var t := AskingStep(s, cp, answer);
    var e := t.log[|s.log|];
    assert t.log == s.log + [e];
    AppendKeepsSafe(s.log, e);
    AppendKeepsRest(s, t, e);
    if !e.effective {
      AppendKeepsClear(s.log, e, cp.binding);
    }
  }

  lemma RefusingKeepsInv(s: State, cp: Checkpoint, code: string, fault: Fault)
    requires Inv(s) && s.pc == Refusing(cp, code)
    ensures Inv(RefusingStep(s, cp, code, fault))
  {
    var t := RefusingStep(s, cp, code, fault);
    if fault.Lost? {
      SameLogKeepsRest(s, t);
    } else {
      var e := RefusalSaved(cp.binding);
      AppendKeepsSafe(s.log, e);
      AppendKeepsClear(s.log, e, cp.binding);
      AppendKeepsRest(s, t, e);
    }
  }

  lemma AcknowledgingKeepsInv(s: State, cp: Checkpoint, receipt: nat, fault: Fault)
    requires Inv(s) && s.pc == Acknowledging(cp, receipt)
    ensures Inv(AcknowledgingStep(s, cp, receipt, fault))
  {
    var t := AcknowledgingStep(s, cp, receipt, fault);
    var u := t.(log := s.log);
    SuccessorlessRewrite(s, u, cp.binding);
    if fault.Fine? {
      ReplyKeepsInv(u, Replied(cp.binding, Requested, cp.selected));
    }
  }

  /** A binding without a recorded successor may be rewritten in place. */
  lemma SuccessorlessRewrite(s: State, t: State, b: Binding)
    requires Inv(s) && NoSuccessor(s.log, b) && b in s.store && b in t.store
    requires t.log == s.log && t.pc.Idle? && t.store == s.store[b := t.store[b]]
    requires GoodCheckpoint(t.store[b], b) && t.store[b].refused.None?
    ensures Inv(t)
  {
    forall c | Free(t, c)
      ensures Clear(t.log, c)
    {
      assert Free(s, c);
    }
    forall i | 0 <= i < |t.log|
      ensures Remembered(t, t.log[i])
    {
      assert Remembered(s, s.log[i]);
    }
  }

  lemma SavingTheSuccessorKeepsInv(s: State, saved: Checkpoint, selected: Execution)
    requires Inv(s) && s.pc == Reconciling(saved, selected) && selected.Succeeds(saved.selected)
    requires saved.observed.Some? ==> selected.Follows(saved.observed.value)
    ensures Inv(s.(store := s.store[saved.binding := saved.(observed := Some(selected))],
                   log := s.log + [SuccessorSaved(saved.binding, selected)], pc := Idle))
  {
    var e := SuccessorSaved(saved.binding, selected);
    var u := s.(store := s.store[saved.binding := saved.(observed := Some(selected))], log := s.log + [e], pc := Idle);
    assert forall i :: 0 <= i < |s.log| ==> Remembered(s, s.log[i]);
    AppendKeepsSafe(s.log, e);
    AppendKeepsRest(s, u, e);
  }

  lemma ReconcilingKeepsInv(s: State, saved: Checkpoint, selected: Execution, fault: Fault)
    requires Inv(s) && s.pc == Reconciling(saved, selected)
    ensures Inv(ReconcilingStep(s, saved, selected, fault))
  {
    var b := saved.binding;
    var idle := s.(pc := Idle);
    var t := ReconcilingStep(s, saved, selected, fault);
    assert Inv(idle) by { SameLogKeepsRest(s, idle); }
    assert forall i :: 0 <= i < |s.log| ==> Remembered(s, s.log[i]);
    if saved.observed.Some? && !selected.Follows(saved.observed.value) {
      ReplyKeepsInv(idle, Regressed(b, selected));
    } else if selected.Succeeds(saved.selected) {
      if !fault.Lost? {
        var e := SuccessorSaved(b, selected);
        var u := idle.(store := t.store, log := s.log + [e]);
        SavingTheSuccessorKeepsInv(s, saved, selected);
        if fault.Fine? {
          ReplyKeepsInv(u, Replied(b, SuccessorObserved, selected));
          assert t.log == u.log + [Replied(b, SuccessorObserved, selected)];
        } else {
          assert t.log == u.log;
        }
      } else {
        assert t.log == s.log;
      }
    } else {
      assert saved.observed.None?;
      if selected.SameExecution(saved.selected) && (saved.receipt.Some? || saved.disposition.Reused?) {
        ReplyKeepsInv(idle, Replied(b, saved.disposition, selected));
      } else {
        ReplyKeepsInv(idle, Uncertain(b, selected));
      }
    }
  }

  lemma ArchivingKeepsInv(s: State, fault: Fault, preflight: bool, answer: Answer)
    requires Inv(s) && s.pc.Archiving?
    ensures Inv(Step(s, Go(fault, preflight, answer)))
  {
    SameLogKeepsRest(s, Step(s, Go(fault, preflight, answer)));
  }

  lemma RemovingKeepsInv(s: State, fault: Fault, preflight: bool, answer: Answer)
    requires Inv(s) && s.pc.Removing?
    ensures Inv(Step(s, Go(fault, preflight, answer)))
  {
    SameLogKeepsRest(s, Step(s, Go(fault, preflight, answer)));
  }

  lemma ChoosingKeepsInv(s: State, b: Binding, selected: Execution, operationId: nat, preflight: bool)
    requires Inv(s) && s.pc == Choosing(b, selected, operationId)
    ensures Inv(ChoosingStep(s, b, selected, operationId, preflight))
  {
    SameLogKeepsRest(s, ChoosingStep(s, b, selected, operationId, preflight));
  }

  lemma StepKeepsInv(s: State, c: Choice)
    requires Inv(s)
    ensures Inv(Step(s, c))
  {
    match c
    case Crash => SameLogKeepsRest(s, Step(s, c));
    case Start(b, selected, operationId, loads) =>
      if s.pc.Idle? {
        StartStepKeepsInv(s, b, selected, operationId, loads);
      }
    case Go(fault, preflight, answer) =>
      match s.pc {
        case Idle =>
        case Archiving(_, _, _) => ArchivingKeepsInv(s, fault, preflight, answer);
        case Removing(_, _, _) => RemovingKeepsInv(s, fault, preflight, answer);
        case Choosing(b, selected, operationId) => ChoosingKeepsInv(s, b, selected, operationId, preflight);
        case Intending(cp) => IntendingKeepsInv(s, cp, fault);
        case Asking(cp) => AskingKeepsInv(s, cp, answer);
        case Refusing(cp, code) => RefusingKeepsInv(s, cp, code, fault);
        case Acknowledging(cp, receipt) => AcknowledgingKeepsInv(s, cp, receipt, fault);
        case Reconciling(saved, selected) => ReconcilingKeepsInv(s, saved, selected, fault);
      }
  }

  // ----- every run -----

  lemma {:induction false} RunKeepsInv(s: State, choices: seq<Choice>)
    requires Inv(s)
    ensures Inv(Run(s, choices))
  {
    if choices != [] {
      RunKeepsInv(s, choices[..|choices| - 1]);
      StepKeepsInv(Run(s, choices[..|choices| - 1]), choices[|choices| - 1]);
    }
  }

  function Effects(log: seq<Event>, b: Binding): nat {
    if log == [] then 0
    else Effects(log[..|log| - 1], b) + (if log[|log| - 1] == Asked(b, true) then 1 else 0)
  }

  lemma {:induction false} SafeLogStartsOnce(log: seq<Event>, b: Binding)
    requires Safe(log)
    ensures Effects(log, b) <= 1
    ensures Effects(log, b) == 0 <==> Asked(b, true) !in log
  {
    if log != [] {
      var n := |log| - 1;
      assert Safe(log[..n]) by {
        forall i, j | 0 <= i < j < n
          ensures Orderly(log[..n], i, j)
        {
          assert Orderly(log, i, j);
          if RefusedBetween(log, i, j, log[i].binding) {
            var k :| i < k < j && log[k] == RefusalSaved(log[i].binding);
            assert log[..n][k] == log[k];
          }
        }
      }
      SafeLogStartsOnce(log[..n], b);
      if log[n] == Asked(b, true) {
        forall i | 0 <= i < n
          ensures log[i] != Asked(b, true)
        {
          assert Orderly(log, i, n);
        }
      }
    }
  }

  /**
   Over every run from an empty store, whatever is lost and wherever the process
   stops: at most one start takes effect for a binding; a second request follows
   the durable refusal of the one before; a reused execution is never restarted;
   and once a successor is durable, replies only move forward.
   */
  lemma EveryRunIsSafe(choices: seq<Choice>, b: Binding)
    ensures Safe(Run(INITIAL, choices).log)
    ensures Effects(Run(INITIAL, choices).log, b) <= 1
  {
    RunKeepsInv(INITIAL, choices);
    SafeLogStartsOnce(Run(INITIAL, choices).log, b);
  }

  // ----- what is asked for -----

  predicate BoundTo(b: Binding, e: Execution) {
    b.pullRequest == e.pullRequest && b.workflowId == e.workflowId
  }

  /** The checkpoint is about an execution of its binding that may be requested, or reused. */
  predicate Backed(cp: Checkpoint) {
    && BoundTo(cp.binding, cp.selected)
    && (cp.disposition.Requested? ==> cp.selected.Requestable() && !cp.selected.Reusable())
    && (cp.disposition.Reused? ==> cp.selected.Reusable())
  }

  ghost predicate PcBacked(pc: Pc) {
    match pc
    case Idle => true
    case Archiving(saved, selected, _) => BoundTo(saved.binding, selected)
    case Removing(b, selected, _) => BoundTo(b, selected)
    case Choosing(b, selected, _) => BoundTo(b, selected)
    case Intending(cp) => Backed(cp)
    case Asking(cp) => Backed(cp)
    case Refusing(cp, _) => Backed(cp)
    case Acknowledging(cp, _) => Backed(cp)
    case Reconciling(saved, selected) => Backed(saved) && BoundTo(saved.binding, selected)
  }

  ghost predicate StoreBacked(store: map<Binding, Checkpoint>) {
    forall b :: b in store ==> Backed(store[b]) && store[b].binding == b
  }

  ghost predicate AllBacked(s: State) {
    PcBacked(s.pc) && StoreBacked(s.store)
  }

  lemma ChoosingKeepsBacked(s: State, b: Binding, selected: Execution, operationId: nat, preflight: bool)
    requires AllBacked(s) && BoundTo(b, selected)
    ensures AllBacked(ChoosingStep(s, b, selected, operationId, preflight))
  {
  }

  lemma SaveKeepsBacked(store: map<Binding, Checkpoint>, cp: Checkpoint, fault: Fault)
    requires StoreBacked(store) && Backed(cp)
    ensures StoreBacked(Save(store, cp, fault))
  {
  }

  lemma StartKeepsBacked(s: State, b: Binding, selected: Execution, operationId: nat, loads: bool)
    requires AllBacked(s)
    ensures AllBacked(StartStep(s, b, selected, operationId, loads))
  {
    if b in s.store {
      assert Backed(s.store[b]);
    }
  }

  lemma AcknowledgingKeepsBacked(s: State, cp: Checkpoint, receipt: nat, fault: Fault)
    requires AllBacked(s) && Backed(cp)
    ensures AllBacked(AcknowledgingStep(s, cp, receipt, fault))
  {
    SaveKeepsBacked(s.store, cp.(receipt := Some(receipt)), fault);
  }

  lemma RefusingKeepsBacked(s: State, cp: Checkpoint, code: string, fault: Fault)
    requires AllBacked(s) && Backed(cp)
    ensures AllBacked(RefusingStep(s, cp, code, fault))
  {
    SaveKeepsBacked(s.store, cp.(refused := Some(code)), fault);
  }

  lemma ReconcilingKeepsBacked(s: State, saved: Checkpoint, selected: Execution, fault: Fault)
    requires AllBacked(s) && Backed(saved)
    ensures AllBacked(ReconcilingStep(s, saved, selected, fault))
  {
    SaveKeepsBacked(s.store, saved.(observed := Some(selected)), fault);
  }

  lemma IntendingKeepsBacked(s: State, cp: Checkpoint, fault: Fault)
    requires AllBacked(s) && Backed(cp)
    ensures AllBacked(IntendingStep(s, cp, fault))
  {
    SaveKeepsBacked(s.store, cp, fault);
  }

  lemma StepKeepsBacked(s: State, c: Choice)
    requires AllBacked(s)
    ensures AllBacked(Step(s, c))
  {
    match c
    case Crash =>
    case Start(b, selected, operationId, loads) => StartKeepsBacked(s, b, selected, operationId, loads);
    case Go(fault, preflight, answer) =>
      match s.pc {
        case Choosing(b, selected, operationId) => ChoosingKeepsBacked(s, b, selected, operationId, preflight);
        case Intending(cp) => IntendingKeepsBacked(s, cp, fault);
        case Refusing(cp, code) => RefusingKeepsBacked(s, cp, code, fault);
        case Acknowledging(cp, receipt) => AcknowledgingKeepsBacked(s, cp, receipt, fault);
        case Reconciling(saved, selected) => ReconcilingKeepsBacked(s, saved, selected, fault);
        case _ =>
      }
  }

  lemma {:induction false} RunKeepsBacked(choices: seq<Choice>)
    ensures AllBacked(Run(INITIAL, choices))
  {
    if choices != [] {
      RunKeepsBacked(choices[..|choices| - 1]);
      StepKeepsBacked(Run(INITIAL, choices[..|choices| - 1]), choices[|choices| - 1]);
    }
  }

  /**
   Whenever the provider is about to be asked, the intent is durable, it is for a
   restartable execution of its own binding, no start took effect before, and every
   earlier request was durably refused.
   */
  lemma IntentIsWrittenAhead(choices: seq<Choice>)
    requires Run(INITIAL, choices).pc.Asking?
    ensures
      var s := Run(INITIAL, choices);
      var cp := s.pc.checkpoint;
      && cp.binding in s.store && s.store[cp.binding] == cp && cp.disposition.Requested?
      && BoundTo(cp.binding, cp.selected) && cp.selected.Requestable() && !cp.selected.Reusable()
      && Clear(s.log, cp.binding) && Effects(s.log, cp.binding) == 0
  {
    RunKeepsInv(INITIAL, choices);
    RunKeepsBacked(choices);
    var s := Run(INITIAL, choices);
    SafeLogStartsOnce(s.log, s.pc.checkpoint.binding);
  }

  /** An intent to request comes from a passed preflight, and no step but the request asks the provider. */
  lemma RequestsPassThePreflight(s: State, c: Choice)
    ensures
      var t := Step(s, c);
      && (t.pc.Intending? && t.pc != s.pc && t.pc.checkpoint.disposition.Requested? ==> s.pc.Choosing? && c.Go? && c.preflight)
      && (t.pc.Asking? && t.pc != s.pc ==> s.pc.Intending? && s.pc.checkpoint == t.pc.checkpoint && c.Go? && c.fault.Fine?)
      && (|t.log| > |s.log| && t.log[|s.log|].Asked? ==> s.pc.Asking?)
  {
  }

  /** Behind every request of a run there is a preflight that passed, from which its very intent came. */
  lemma {:induction false} PreflightCameFirst(choices: seq<Choice>) returns (i: nat)
    requires
      var pc := Run(INITIAL, choices).pc;
      pc.Asking? || (pc.Intending? && pc.checkpoint.disposition.Requested?)
    ensures i < |choices| && Run(INITIAL, choices[..i]).pc.Choosing? && choices[i].Go? && choices[i].preflight
    ensures Run(INITIAL, choices[..i + 1]).pc == Intending(Run(INITIAL, choices).pc.checkpoint)
  {
    var n := |choices| - 1;
    var s := Run(INITIAL, choices[..n]);
    RunKeepsInv(INITIAL, choices);
    RequestsPassThePreflight(s, choices[n]);
    assert choices[..n + 1] == choices;
    if s.pc.Choosing? {
      i := n;
    } else {
      i := PreflightCameFirst(choices[..n]);
      assert choices[..n][..i] == choices[..i] && choices[..n][..i + 1] == choices[..i + 1];
    }
  }

  /** After a durable successor the original execution is refused, and the store keeps it. */
  lemma OriginalIsRefusedAfterSuccessor(choices: seq<Choice>, i: nat, selected: Execution, operationId: nat, go: Choice)
    requires i < |Run(INITIAL, choices).log| && Run(INITIAL, choices).log[i].SuccessorSaved?
    requires Run(INITIAL, choices).pc.Idle? && go.Go?
    requires
      var s := Run(INITIAL, choices);
      var b := s.log[i].binding;
      && b in s.store
      && selected.SameExecution(s.store[b].selected)
      && b.pullRequest == selected.pullRequest && b.workflowId == selected.workflowId
    ensures
      var s := Run(INITIAL, choices);
      var b := s.log[i].binding;
      var t := Run(INITIAL, choices + [Start(b, selected, operationId, true), go]);
      t.log == s.log + [Regressed(b, selected)] && t.store == s.store
  {
    var s := Run(INITIAL, choices);
    var b := s.log[i].binding;
    RunKeepsInv(INITIAL, choices);
    assert Remembered(s, s.log[i]);
    var start := Start(b, selected, operationId, true);
    RunAppend(INITIAL, choices, [start, go]);
    RunOneTwo(s, start, go);
    OriginalRegresses(s, b, selected, operationId, go);
  }

  lemma OriginalRegresses(s: State, b: Binding, selected: Execution, operationId: nat, go: Choice)
    requires s.pc.Idle? && go.Go? && b in s.store && GoodCheckpoint(s.store[b], b) && s.store[b].observed.Some?
    requires selected.SameExecution(s.store[b].selected)
    requires b.pullRequest == selected.pullRequest && b.workflowId == selected.workflowId
    ensures
      var t := Step(Step(s, Start(b, selected, operationId, true)), go);
      t.log == s.log + [Regressed(b, selected)] && t.store == s.store
  {
    assert !selected.Follows(s.store[b].observed.value);
  }

  lemma RunThen(s: State, choices: seq<Choice>, c: Choice)
    ensures Run(s, choices + [c]) == Step(Run(s, choices), c)
  {
    assert (choices + [c])[..|choices|] == choices;
  }

  lemma RunOneTwo(s: State, a: Choice, b: Choice)
    ensures Run(s, [a]) == Step(s, a)
    ensures Run(s, [a, b]) == Step(Step(s, a), b)
  {
    RunThen(s, [], a);
    RunThen(s, [a], b);
    assert [] + [a] == [a] && [a] + [b] == [a, b];
  }

  lemma {:induction false} RunAppend(s: State, first: seq<Choice>, second: seq<Choice>)
    ensures Run(s, first + second) == Run(Run(s, first), second)
  {
    if second == [] {
      assert first + second == first;
    } else {
      var n := |second| - 1;
      RunAppend(s, first, second[..n]);
      TakeOneMore(second, n);
      assert second[..n + 1] == second;
      AppendAssociates(first, second[..n], [second[n]]);
      RunThen(s, first + second[..n], second[n]);
      RunThen(Run(s, first), second[..n], second[n]);
    }
  }

  /** A refused start is not lost: in fair weather the next call asks the provider again. */
  lemma RefusedStartAsksAgain(s: State, selected: Execution, b: Binding, operationId: nat, receipt: nat) returns (choices: seq<Choice>)
    requires Inv(s) && s.pc.Idle? && b in s.store && s.store[b].refused.Some?
    requires selected.Requestable() && !selected.Reusable()
    requires b.pullRequest == selected.pullRequest && b.workflowId == selected.workflowId
    ensures Run(s, choices).log == s.log + [Asked(b, true), Replied(b, Requested, selected)]
    ensures s.store[b] in Run(s, choices).archive
    ensures b in Run(s, choices).store && Run(s, choices).store[b].receipt == Some(receipt)
  {
    var go := Go(Fine, true, Accepted(receipt));
    var start := Start(b, selected, operationId, true);
    RefusedStartIsRetired(s, selected, b, operationId, go);
    RunTwoTwo(s, start, go);
    var t := Run(s, [start, go, go]);
    FreshStartIsAcknowledged(t, selected, b, operationId, receipt);
    RunTwoTwo(t, go, go);
    RunThen(t, [go, go, go], go);
    RunAppend(s, [start, go, go], [go, go, go] + [go]);
    choices := [start, go, go] + ([go, go, go] + [go]);
  }

  lemma RunTwoTwo(s: State, a: Choice, b: Choice)
    ensures Run(s, [a, b, b]) == Step(Step(Step(s, a), b), b)
  {
    RunOneTwo(s, a, b);
    RunThen(s, [a, b], b);
    assert [a, b] + [b] == [a, b, b];
  }

  /** The refused checkpoint is archived, then removed. */
  lemma RefusedStartIsRetired(s: State, selected: Execution, b: Binding, operationId: nat, go: Choice)
    requires s.pc.Idle? && b in s.store && GoodCheckpoint(s.store[b], b) && s.store[b].refused.Some?
    requires b.pullRequest == selected.pullRequest && b.workflowId == selected.workflowId
    requires go.Go? && go.fault.Fine?
    ensures
      var t := Step(Step(Step(s, Start(b, selected, operationId, true)), go), go);
      t == s.(store := s.store - {b}, archive := s.archive + {s.store[b]}, pc := Choosing(b, selected, operationId))
  {
    assert Step(s, Start(b, selected, operationId, true)) == s.(pc := Archiving(s.store[b], selected, operationId));
  }

  /** A fresh start in fair weather: intent, request, acknowledgement. */
  lemma FreshStartIsAcknowledged(t: State, selected: Execution, b: Binding, operationId: nat, receipt: nat)
    requires t.pc == Choosing(b, selected, operationId) && selected.Requestable() && !selected.Reusable()
    ensures
      var go := Go(Fine, true, Accepted(receipt));
      var u := Step(Step(Step(Step(t, go), go), go), go);
      && u.log == t.log + [Asked(b, true), Replied(b, Requested, selected)] && u.archive == t.archive
      && b in u.store && u.store[b].receipt == Some(receipt)
  {
    var go := Go(Fine, true, Accepted(receipt));
    var cp := NewCheckpoint(b, selected, operationId, Requested);
    var t1 := t.(pc := Intending(cp));
    assert Step(t, go) == t1;
    var t2 := t.(store := t.store[b := cp], pc := Asking(cp));
    assert Step(t1, go) == t2;
    var t3 := t2.(log := t.log + [Asked(b, true)], pc := Acknowledging(cp, receipt));
    assert Step(t2, go) == t3;
    assert t.log + [Asked(b, true)] + [Replied(b, Requested, selected)] == t.log + [Asked(b, true), Replied(b, Requested, selected)];
  }

  // ----- the program -----

  /** How storage and provider treat one call; any field may be the last one that matters. */
  datatype Weather = Weather(
    loads: bool,
    archiving: Fault,
    removing: Fault,
    preflight: bool,
    intending: Fault,
    answer: Answer,
    recording: Fault,
    observing: Fault)

  /** How many steps the call in progress still has at most. */
  function StepsLeft(pc: Pc): nat {
    match pc
    case Archiving(_, _, _) => 6
    case Removing(_, _, _) => 5
    case Choosing(_, _, _) => 4
    case Intending(_) => 3
    case Asking(_) => 2
    case Idle => 0
    case _ => 1
  }

  /** The choice that this weather makes at this place. */
  function NextChoice(pc: Pc, w: Weather): Choice {
    match pc
    case Archiving(_, _, _) => Go(w.archiving, w.preflight, w.answer)
    case Removing(_, _, _) => Go(w.removing, w.preflight, w.answer)
    case Intending(_) => Go(w.intending, w.preflight, w.answer)
    case Refusing(_, _) => Go(w.recording, w.preflight, w.answer)
    case Acknowledging(_, _) => Go(w.recording, w.preflight, w.answer)
    case Reconciling(_, _) => Go(w.observing, w.preflight, w.answer)
    case _ => Go(Fine, w.preflight, w.answer)
  }

  lemma EveryStepBringsTheEndNearer(s: State, w: Weather)
    requires !s.pc.Idle?
    ensures StepsLeft(Step(s, NextChoice(s.pc, w)).pc) < StepsLeft(s.pc)
  {
  }

  /** Steps until the call ends. */
  function Drive(s: State, w: Weather): State
    decreases StepsLeft(s.pc)
  {
    if s.pc.Idle? then s else
      EveryStepBringsTheEndNearer(s, w);
      Drive(Step(s, NextChoice(s.pc, w)), w)
  }

  /** One whole call. */
  function Call(s: State, b: Binding, selected: Execution, operationId: nat, w: Weather): State {
    Drive(Step(s, Start(b, selected, operationId, w.loads)), w)
  }

  lemma OneStepOfMany(s: State, w: Weather)
    requires !s.pc.Idle?
    ensures Drive(s, w) == Drive(Step(s, NextChoice(s.pc, w)), w)
  {
    EveryStepBringsTheEndNearer(s, w);
  }

  /** Where the entry of a call leads. */
  lemma EntryLeads(s: State, b: Binding, selected: Execution, operationId: nat, w: Weather)
    requires s.pc.Idle?
    ensures
      var matches := b.pullRequest == selected.pullRequest && b.workflowId == selected.workflowId;
      Call(s, b, selected, operationId, w) ==
        if !matches || !w.loads || !IsFit(s.store, b) then s
        else if b !in s.store then Drive(s.(pc := Choosing(b, selected, operationId)), w)
        else if s.store[b].refused.None? then Drive(s.(pc := Reconciling(s.store[b], selected)), w)
        else Drive(s.(pc := Archiving(s.store[b], selected, operationId)), w)
  {
  }

  /** Where the choice of a fresh start leads. */
  lemma ChoiceLeads(s: State, b: Binding, selected: Execution, operationId: nat, w: Weather)
    requires s.pc.Idle?
    ensures
      Drive(s.(pc := Choosing(b, selected, operationId)), w) ==
        if selected.Reusable() then Drive(s.(pc := Intending(NewCheckpoint(b, selected, operationId, Reused))), w)
        else if !selected.Requestable() || !w.preflight then s
        else Drive(s.(pc := Intending(NewCheckpoint(b, selected, operationId, Requested))), w)
  {
    OneStepOfMany(s.(pc := Choosing(b, selected, operationId)), w);
  }

  /** Where the save of an intent leads. */
  lemma IntentLeads(s: State, cp: Checkpoint, w: Weather)
    requires s.pc.Idle?
    ensures
      var saved := s.(store := Save(s.store, cp, w.intending));
      Drive(s.(pc := Intending(cp)), w) ==
        if cp.disposition.Reused? then
          if w.intending.Lost? then saved
          else if w.intending.Late? then saved.(log := s.log + [ReuseSaved(cp.binding)])
          else saved.(log := s.log + [ReuseSaved(cp.binding)] + [Replied(cp.binding, Reused, cp.selected)])
        else if w.intending.Fine? then Drive(saved.(pc := Asking(cp)), w)
        else saved
  {
    OneStepOfMany(s.(pc := Intending(cp)), w);
    assert s.log + [] + [] == s.log;
    assert s.log + [ReuseSaved(cp.binding)] + [] == s.log + [ReuseSaved(cp.binding)];
  }

  lemma {:induction false} DriveIsARun(s: State, w: Weather) returns (choices: seq<Choice>)
    ensures Drive(s, w) == Run(s, choices) && Drive(s, w).pc.Idle?
    decreases StepsLeft(s.pc)
  {
    if s.pc.Idle? {
      choices := [];
    } else {
      EveryStepBringsTheEndNearer(s, w);
      var next := NextChoice(s.pc, w);
      var rest := DriveIsARun(Step(s, next), w);
      RunThen(s, [], next);
      RunAppend(s, [next], rest);
      assert [] + [next] == [next];
      choices := [next] + rest;
    }
  }

  /** Whatever holds over every run holds after any calls: a call is a run that ends between two calls. */
  lemma EveryCallIsARun(s: State, b: Binding, selected: Execution, operationId: nat, w: Weather) returns (choices: seq<Choice>)
    ensures Call(s, b, selected, operationId, w) == Run(s, choices)
    ensures Call(s, b, selected, operationId, w).pc.Idle?
  {
    var start := Start(b, selected, operationId, w.loads);
    var rest := DriveIsARun(Step(s, start), w);
    RunThen(s, [], start);
    RunAppend(s, [start], rest);
    assert [] + [start] == [start];
    choices := [start] + rest;
  }

  datatype DispatchError =
    | Unavailable
    | Storage
    | PreflightFailed
    | ProviderFailed
    | Indeterminate

  datatype Outcome = Done(disposition: Disposition, operationId: nat, receipt: Option<nat>) | Stopped(error: DispatchError)

  /** The stored checkpoint can be worked on. */
  predicate IsFit(store: map<Binding, Checkpoint>, b: Binding) {
    b in store ==> store[b].schemaVersion == 1 && store[b].binding == b && !store[b].disposition.SuccessorObserved?
  }

  /** Nothing stands in the way of a fresh start: no checkpoint, or a refused one that was put away. */
  predicate IsCleared(store: map<Binding, Checkpoint>, b: Binding, w: Weather) {
    b in store ==> store[b].refused.Some? && w.archiving.Fine? && w.removing.Fine?
  }

  /** Something was recorded, so there is a last event. */
  predicate Grew(log: seq<Event>, before: seq<Event>) {
    |before| < |log|
  }

  /** One repository: its checkpoint files, and a ghost record of what happened. */
  class Host {
    var store: map<Binding, Checkpoint>
    var archive: set<Checkpoint>
    ghost var log: seq<Event>

    ghost function Abs(): State
      reads this
    {
      State(store, archive, log, Idle)
    }

    /**
     The outcome and the record agree. A call is done exactly when the last thing that
     happened is its reply, which names the durable checkpoint; the acknowledgement is
     handed on exactly when this very call asked.
     */
    ghost predicate Answered(r: Outcome, b: Binding, selected: Execution, before: seq<Event>)
      reads this
    {
      && before <= log
      && (r.Done? <==> Grew(log, before) && log[|log| - 1].Replied?)
      && (r == Stopped(Indeterminate) <==> Grew(log, before) && log[|log| - 1].Uncertain?)
      && (r.Done? ==>
            && log[|log| - 1] == Replied(b, r.disposition, selected)
            && b in store && store[b].operationId == r.operationId
            && r.receipt == if log[|before|] == Asked(b, true) then store[b].receipt else None)
    }

    constructor ()
      ensures Abs() == INITIAL
    {
      store, archive, log := map[], {}, [];
    }

    method Write(cp: Checkpoint, fault: Fault) returns (ok: bool)
      modifies this`store
      ensures store == Save(old(store), cp, fault) && ok == fault.Fine?
    {
      if !fault.Lost? {
        store := store[cp.binding := cp];
      }
      ok := fault.Fine?;
    }

    /** One call, and why it stopped if it did. */
    method Dispatch(b: Binding, selected: Execution, operationId: nat, weather: Weather) returns (r: Outcome)
      modifies this
      ensures Abs() == Call(old(Abs()), b, selected, operationId, weather)
      ensures Answered(r, b, selected, old(log))
      ensures
        var matches := b.pullRequest == selected.pullRequest && b.workflowId == selected.workflowId;
        var begins := matches && weather.loads && IsFit(old(store), b) && IsCleared(old(store), b, weather);
        && (r == Stopped(PreflightFailed) <==> begins && !selected.Reusable() && selected.Requestable() && !weather.preflight)
        && (r == Stopped(ProviderFailed) <==> ProviderSaidNo(old(log), weather))
        && (r == Stopped(Unavailable) <==>
              || !matches || (weather.loads && !IsFit(old(store), b))
              || (begins && !selected.Reusable() && !selected.Requestable())
              || (Grew(log, old(log)) && log[|log| - 1].Regressed?))
    {
      EntryLeads(Abs(), b, selected, operationId, weather);
      if b.pullRequest != selected.pullRequest || b.workflowId != selected.workflowId {
        return Stopped(Unavailable);
      }
      if !weather.loads {
        return Stopped(Storage);
      }
      if b in store {
        var saved := store[b];
        if saved.schemaVersion != 1 || saved.binding != b || saved.disposition.SuccessorObserved? {
          return Stopped(Unavailable);
        }
        if saved.refused.None? {
          r := Reconcile(saved, selected, weather);
          return;
        }
        var ok := Retire(saved, selected, operationId, weather);
        if !ok {
          return Stopped(Storage);
        }
      }
      r := StartFresh(b, selected, operationId, weather);
    }

    /** Move a refused checkpoint to the archive, then free its key. */
    method Retire(saved: Checkpoint, selected: Execution, operationId: nat, weather: Weather) returns (ok: bool)
      modifies this`store, this`archive
      ensures ok <==> weather.archiving.Fine? && weather.removing.Fine?
      ensures Drive(old(Abs()).(pc := Archiving(saved, selected, operationId)), weather)
           == Drive(Abs().(pc := if ok then Choosing(saved.binding, selected, operationId) else Idle), weather)
    {
      ghost var s := Abs().(pc := Archiving(saved, selected, operationId));
      OneStepOfMany(s, weather);
      if !weather.archiving.Lost? {
        archive := archive + {saved};
      }
      if !weather.archiving.Fine? {
        return false;
      }
      OneStepOfMany(Abs().(pc := Removing(saved.binding, selected, operationId)), weather);
      if !weather.removing.Lost? {
        store := store - {saved.binding};
      }
      ok := weather.removing.Fine?;
    }

    /** Write the intent ahead, then ask the provider and record what it said. */
    method StartFresh(b: Binding, selected: Execution, operationId: nat, weather: Weather) returns (r: Outcome)
      modifies this`store, this`log
      ensures Abs() == Drive(old(Abs()).(pc := Choosing(b, selected, operationId)), weather)
      ensures Answered(r, b, selected, old(log))
      ensures r == Stopped(PreflightFailed) <==> !selected.Reusable() && selected.Requestable() && !weather.preflight
      ensures r == Stopped(Unavailable) <==> !selected.Reusable() && !selected.Requestable()
      ensures r == Stopped(ProviderFailed) <==> ProviderSaidNo(old(log), weather)
      ensures !(Grew(log, old(log)) && log[|log| - 1].Regressed?)
    {
      ChoiceLeads(Abs(), b, selected, operationId, weather);
      var disposition := Reused;
      if !selected.Reusable() {
        if !selected.Requestable() {
          return Stopped(Unavailable);
        }
        if !weather.preflight {
          return Stopped(PreflightFailed);
        }
        disposition := Requested;
      }
      var checkpoint := NewCheckpoint(b, selected, operationId, disposition);
      IntentLeads(Abs(), checkpoint, weather);
      var ok := Write(checkpoint, weather.intending);
      if disposition.Reused? && !weather.intending.Lost? {
        log := log + [ReuseSaved(b)];
      }
      if !ok {
        return Stopped(Storage);
      }
      if disposition.Reused? {
        log := log + [Replied(b, Reused, selected)];
        return Done(Reused, operationId, None);
      }
      r := Ask(checkpoint, weather);
    }

    /** The last thing that happened was a request that failed, or a typed refusal that was saved. */
    ghost predicate ProviderSaidNo(before: seq<Event>, w: Weather)
      reads this
    {
      && Grew(log, before)
      && (log[|log| - 1].Asked? || (log[|log| - 1].RefusalSaved? && w.recording.Fine?))
      && !w.answer.Accepted? && (w.answer.RefusedBeforeWrite? ==> w.recording.Fine?)
    }

    method Ask(checkpoint: Checkpoint, weather: Weather) returns (r: Outcome)
      requires checkpoint.receipt.None?
      modifies this`store, this`log
      ensures Abs() == Drive(old(Abs()).(pc := Asking(checkpoint)), weather)
      ensures Answered(r, checkpoint.binding, checkpoint.selected, old(log))
      ensures r == Stopped(ProviderFailed) <==> ProviderSaidNo(old(log), weather)
      ensures r.Done? || r.error.ProviderFailed? || r.error.Storage?
      ensures Grew(log, old(log)) && !log[|log| - 1].Regressed?
    {
      OneStepOfMany(Abs().(pc := Asking(checkpoint)), weather);
      var ok;
      match weather.answer
      case Failed(effective) =>
        log := log + [Asked(checkpoint.binding, effective)];
        return Stopped(ProviderFailed);
      case RefusedBeforeWrite(code) =>
        log := log + [Asked(checkpoint.binding, false)];
        OneStepOfMany(Abs().(pc := Refusing(checkpoint, code)), weather);
        ok := Write(checkpoint.(refused := Some(code)), weather.recording);
        log := if weather.recording.Lost? then log else log + [RefusalSaved(checkpoint.binding)];
        return Stopped(if ok then ProviderFailed else Storage);
      case Accepted(receipt) =>
        log := log + [Asked(checkpoint.binding, true)];
        OneStepOfMany(Abs().(pc := Acknowledging(checkpoint, receipt)), weather);
        ok := Write(checkpoint.(receipt := Some(receipt)), weather.recording);
        if !ok {
          return Stopped(Storage);
        }
        log := log + [Replied(checkpoint.binding, Requested, checkpoint.selected)];
        return Done(Requested, checkpoint.operationId, Some(receipt));
    }

    method Reconcile(saved: Checkpoint, selected: Execution, weather: Weather) returns (r: Outcome)
      requires saved.binding in store && store[saved.binding] == saved && !saved.disposition.SuccessorObserved?
      modifies this`store, this`log
      ensures Abs() == Drive(old(Abs()).(pc := Reconciling(saved, selected)), weather)
      ensures Answered(r, saved.binding, selected, old(log))
      ensures r == Stopped(Unavailable) <==> Grew(log, old(log)) && log[|log| - 1].Regressed?
      ensures r.Stopped? ==> r.error in {Unavailable, Storage, Indeterminate}
      ensures !ProviderSaidNo(old(log), weather)
    {
      OneStepOfMany(Abs().(pc := Reconciling(saved, selected)), weather);
      if saved.observed.Some? && !selected.Follows(saved.observed.value) {
        log := log + [Regressed(saved.binding, selected)];
        return Stopped(Unavailable);
      }
      var disposition := saved.disposition;
      if selected.Succeeds(saved.selected) {
        var ok := Write(saved.(observed := Some(selected)), weather.observing);
        log := log + (if weather.observing.Lost? then [] else [SuccessorSaved(saved.binding, selected)]);
        if !ok {
          return Stopped(Storage);
        }
        disposition := SuccessorObserved;
      } else if !selected.SameExecution(saved.selected) || (saved.receipt.None? && !saved.disposition.Reused?) {
        log := log + [Uncertain(saved.binding, selected)];
        return Stopped(Indeterminate);
      }
      log := log + [Replied(saved.binding, disposition, selected)];
      return Done(disposition, saved.operationId, None);
    }
  }
}
