/**
 The request budget shared by concurrent runners (src/command.rs). One step is one
 atomic access or one launch; the runners interleave in any order.
 */
module RequestBudget {
  import opened Common

  /**
   Where one runner is. `again` tells that the one-shot retry after an
   authentication failure is still allowed; `launched` counts this call's children.
   */
  datatype Runner =
    | Idle
    | Loading(again: bool, launched: nat)
    | Loaded(seen: nat, again: bool, launched: nat)
    | Reserved(again: bool, launched: nat)
    | Running(again: bool, launched: nat)

  /** `granted` and `spawned` count over the whole operation; `refusals` lists the values refused on. */
  datatype State = State(limit: nat, used: nat, granted: nat, spawned: nat, refusals: seq<nat>, runners: seq<Runner>)

  datatype Choice =
    | Begin(again: bool)
    | Load
    | Exchange(spurious: bool)
    | Launch(fails: bool)
    | Return(authRejected: bool)

  function Init(limit: nat, runners: nat): State {
    State(limit, 0, 0, 0, [], seq(runners, _ => Idle))
  }

  function Put(s: State, t: nat, r: Runner): State
    requires t < |s.runners|
  {
    s.(runners := s.runners[t := r])
  }

  /** One step of runner t; a choice that does not fit its place changes nothing. */
  function Step(s: State, t: nat, c: Choice): State
    requires t < |s.runners|
  {
    match (s.runners[t], c)
    case (Idle, Begin(again)) => Put(s, t, Loading(again, 0))
    case (Loading(again, n), Load) => Put(s, t, Loaded(s.used, again, n))
    case (Loaded(seen, again, n), Exchange(spurious)) =>
      if seen >= s.limit then Put(s, t, Idle).(refusals := s.refusals + [seen])
      else if seen != s.used || spurious then Put(s, t, Loaded(s.used, again, n))
      else Put(s, t, Reserved(again, n)).(used := seen + 1, granted := s.granted + 1)
    case (Reserved(again, n), Launch(fails)) =>
      if fails then Put(s, t, Idle) else Put(s, t, Running(again, n + 1)).(spawned := s.spawned + 1)
    case (Running(again, n), Return(authRejected)) =>
      if authRejected && again then Put(s, t, Loading(false, n)) else Put(s, t, Idle)
    case _ => s
  }

  datatype Move = Move(runner: nat, choice: Choice)

  function Run(s: State, moves: seq<Move>): (r: State)
    requires forall i :: 0 <= i < |moves| ==> moves[i].runner < |s.runners|
    ensures |r.runners| == |s.runners| && r.limit == s.limit
  {
    if moves == [] then s
    else
      var n := |moves| - 1;
      Step(Run(s, moves[..n]), moves[n].runner, moves[n].choice)
  }

  function Pending(runners: seq<Runner>): nat {
    if runners == [] then 0 else Pending(runners[1..]) + if runners[0].Reserved? then 1 else 0
  }

  lemma {:induction false} PendingUpdate(runners: seq<Runner>, t: nat, r: Runner)
    requires t < |runners|
    ensures Pending(runners[t := r]) + (if runners[t].Reserved? then 1 else 0) == Pending(runners) + (if r.Reserved? then 1 else 0)
  {
    var updated := runners[t := r];
    if t == 0 {
      assert updated[1..] == runners[1..];
    } else {
      assert updated[1..] == runners[1..][t - 1 := r];
      PendingUpdate(runners[1..], t - 1, r);
    }
  }

  /** A call has launched nothing before its first reservation, and one child before its second. */
  predicate RunnerOk(r: Runner, used: nat) {
    match r
    case Idle => true
    case Loading(again, n) => n <= if again then 0 else 1
    case Loaded(seen, again, n) => seen <= used && n <= if again then 0 else 1
    case Reserved(again, n) => n <= if again then 0 else 1
    case Running(again, n) => n <= if again then 1 else 2
  }

  ghost predicate Inv(s: State) {
    && s.used == s.granted <= s.limit
    && s.spawned + Pending(s.runners) <= s.granted
    && (forall i :: 0 <= i < |s.refusals| ==> s.refusals[i] == s.limit)
    && (s.refusals != [] ==> s.used == s.limit)
    && forall t :: 0 <= t < |s.runners| ==> RunnerOk(s.runners[t], s.used)
  }

  lemma StepKeepsInv(s: State, t: nat, c: Choice)
    requires t < |s.runners| && Inv(s)
    ensures Inv(Step(s, t, c)) && s.used <= Step(s, t, c).used
  {
    var r := Step(s, t, c);
    assert RunnerOk(s.runners[t], s.used);
    PendingUpdate(s.runners, t, r.runners[t]);
    assert r.runners == s.runners[t := r.runners[t]];
  }

  lemma {:induction false} InitHasNothingPending(n: nat)
    ensures Pending(seq(n, _ => Idle)) == 0
  {
    var all := seq(n, _ => Idle);
    if n > 0 {
      assert all[1..] == seq(n - 1, _ => Idle);
      InitHasNothingPending(n - 1);
    }
  }

  /**
   In every interleaving: reservations equal the counter, the counter and the
   children never pass the limit, a refusal means that the budget is spent, and
   no call launches more than two children.
   */
  lemma {:induction false} EveryInterleavingIsBounded(limit: nat, runners: nat, moves: seq<Move>)
    requires forall i :: 0 <= i < |moves| ==> moves[i].runner < runners
    ensures
      var s := Run(Init(limit, runners), moves);
      && Inv(s) && s.limit == limit
      && s.granted == s.used <= limit && s.spawned <= limit
      && (s.refusals != [] ==> s.used == limit)
      && forall t :: 0 <= t < runners && s.runners[t].Running? ==> s.runners[t].launched <= 2
  {
    var init := Init(limit, runners);
    if moves == [] {
      InitHasNothingPending(runners);
    } else {
      var n := |moves| - 1;
      EveryInterleavingIsBounded(limit, runners, moves[..n]);
      StepKeepsInv(Run(init, moves[..n]), moves[n].runner, moves[n].choice);
      var s := Run(init, moves);
      forall t | 0 <= t < runners && s.runners[t].Running?
        ensures s.runners[t].launched <= 2
      {
        assert RunnerOk(s.runners[t], s.used);
      }
    }
  }

  /** Below the limit the exchange of an up-to-date runner succeeds: no unit is lost. */
  lemma BudgetIsUsable(s: State, t: nat)
    requires t < |s.runners| && Inv(s) && s.runners[t].Loading? && s.used < s.limit
    ensures
      var r := Step(Step(s, t, Load), t, Exchange(false));
      r.runners[t].Reserved? && r.used == s.used + 1
  {
  }
}
