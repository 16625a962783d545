/**
 Planning a concatenation (src/concat.rs): which of the refusals comes first, and
 what a plan says about the topology it leads to.
 */
module ConcatPlans {
  import opened Common
  import opened Ordering
  import opened Fleets
  import Text

  datatype Fact = Fact(member: Member, baseOid: string, crossRepository: bool, repository: string)

  datatype Caravan = Caravan(id: Pr, members: seq<Pr>, parked: bool)

  datatype Pause = Pause(effective: bool, head: Pr)

  datatype Status = Status(
    repository: string,
    healthy: bool,
    caravans: seq<Caravan>,
    pauses: seq<Pause>,
    prs: map<Pr, Fact>)

  datatype Input = Input(sourceHead: Pr, targetTail: Pr, actor: string, reason: string)

  datatype Compatibility = CheckFailed | Clean | Conflicting

  /** The refusals in the order in which they are tried; the last two name a place in the source caravan. */
  datatype Refusal =
    | ActorRequired
    | ReasonRequired
    | FleetUnhealthy
    | SourceHeadNotFound
    | TargetTailNotFound
    | CaravanParked
    | CycleRefused
    | CaravanHeld
    | TargetIncomplete
    | SourceIncomplete
    | ForkRefused
    | CheckerFailed
    | Incompatible
    | MemberIncomplete(index: nat)
    | MemberFork(index: nat)
  {
    function Rank(): nat {
      match this
      case ActorRequired => 0
      case ReasonRequired => 1
      case FleetUnhealthy => 2
      case SourceHeadNotFound => 3
      case TargetTailNotFound => 4
      case CaravanParked => 5
      case CycleRefused => 6
      case CaravanHeld => 7
      case TargetIncomplete => 8
      case SourceIncomplete => 9
      case ForkRefused => 10
      case CheckerFailed => 11
      case Incompatible => 12
      case MemberIncomplete(i) => 13 + i
      case MemberFork(i) => 13 + i
    }
  }

  datatype MemberPlan = MemberPlan(
    pr: Pr,
    branch: string,
    oldHead: string,
    oldBase: string,
    oldBaseOid: string,
    targetPr: Pr,
    targetBranch: string,
    targetHead: string)

  /** The digest over all fields is injective, so a plan is its own hash. */
  datatype Plan = Plan(
    repository: string,
    source: Pr,
    target: Pr,
    sourceMembers: seq<Pr>,
    targetMembers: seq<Pr>,
    newOrdering: seq<Pr>,
    members: seq<MemberPlan>,
    actor: string,
    reason: string,
    rollbackHeads: seq<(string, string)>)

  datatype Planned = Refused(refusal: Refusal) | Ready(plan: Plan)

  predicate IsControl(c: char) {
    c < ' ' || ('\U{7f}' <= c <= '\U{9f}')
  }

  /** Not empty, bounded in bytes, no surrounding white space and no control character. */
  predicate Audited(text: string, limit: nat) {
    text != "" && Text.Utf8Length(text) <= limit && Text.Trim(text) == text && forall i :: 0 <= i < |text| ==> !IsControl(text[i])
  }

  function HeadedBy(caravans: seq<Caravan>, pr: Pr): (r: Option<Caravan>)
    ensures r.Some? ==> r.value in caravans && r.value.id == pr
    ensures r.None? ==> forall c :: c in caravans ==> c.id != pr
  {
    if caravans == [] then None
    else if caravans[0].id == pr then Some(caravans[0])
    else HeadedBy(caravans[1..], pr)
  }

  predicate EndsIn(c: Caravan, pr: Pr) {
    c.members != [] && c.members[|c.members| - 1] == pr
  }

  function EndingIn(caravans: seq<Caravan>, pr: Pr): (r: Option<Caravan>)
    ensures r.Some? ==> r.value in caravans && EndsIn(r.value, pr)
    ensures r.None? ==> forall c :: c in caravans ==> !EndsIn(c, pr)
  {
    if caravans == [] then None
    else if EndsIn(caravans[0], pr) then Some(caravans[0])
    else EndingIn(caravans[1..], pr)
  }

  predicate IsFork(s: Status, pr: Pr)
    requires pr in s.prs
  {
    s.prs[pr].crossRepository || s.prs[pr].repository != s.repository
  }

  predicate Held(s: Status, c: Option<Caravan>) {
    c.Some? && exists i :: 0 <= i < |s.pauses| && s.pauses[i].effective && s.pauses[i].head == c.value.id
  }

  /** The condition of each refusal, whatever its place in the order. */
  predicate Refuses(s: Status, input: Input, answer: Compatibility, e: Refusal) {
    var source := HeadedBy(s.caravans, input.sourceHead);
    var target := EndingIn(s.caravans, input.targetTail);
    match e
    case ActorRequired => !Audited(input.actor, 256)
    case ReasonRequired => !Audited(input.reason, 512)
    case FleetUnhealthy => !s.healthy
    case SourceHeadNotFound => source.None?
    case TargetTailNotFound => target.None?
    case CaravanParked => (source.Some? && source.value.parked) || (target.Some? && target.value.parked)
    case CycleRefused => source.Some? && target.Some? && source.value.id == target.value.id
    case CaravanHeld => Held(s, source) || Held(s, target)
    case TargetIncomplete => input.targetTail !in s.prs
    case SourceIncomplete => input.sourceHead !in s.prs
    case ForkRefused =>
      || (input.sourceHead in s.prs && IsFork(s, input.sourceHead))
      || (input.targetTail in s.prs && IsFork(s, input.targetTail))
    case CheckerFailed => answer.CheckFailed?
    case Incompatible => answer.Conflicting?
    case MemberIncomplete(i) => source.Some? && i < |source.value.members| && source.value.members[i] !in s.prs
    case MemberFork(i) =>
      && source.Some? && i < |source.value.members|
      && source.value.members[i] in s.prs && IsFork(s, source.value.members[i])
  }

  ghost predicate PassesBefore(s: Status, input: Input, answer: Compatibility, rank: nat) {
    forall e: Refusal :: e.Rank() < rank ==> !Refuses(s, input, answer, e)
  }

  ghost predicate PassesAll(s: Status, input: Input, answer: Compatibility) {
    forall e :: !Refuses(s, input, answer, e)
  }

  /** The member that member `i` of the source caravan is put behind. */
  function Predecessor(members: seq<Pr>, tail: Pr, i: nat): Pr
    requires i < |members|
  {
    if i == 0 then tail else members[i - 1]
  }

  function PlanOf(s: Status, pr: Pr, behind: Pr): MemberPlan
    requires pr in s.prs && behind in s.prs
  {
    var (m, b) := (s.prs[pr].member, s.prs[behind].member);
    MemberPlan(pr, m.head, m.oid, m.base, s.prs[pr].baseOid, behind, b.head, b.oid)
  }

  ghost predicate PlansUpTo(s: Status, source: seq<Pr>, tail: Pr, n: nat, members: seq<MemberPlan>, heads: seq<(string, string)>) {
    && n == |members| == |heads| <= |source| && tail in s.prs
    && forall i :: 0 <= i < n ==>
      && source[i] in s.prs && Predecessor(source, tail, i) in s.prs
      && members[i] == PlanOf(s, source[i], Predecessor(source, tail, i))
      && heads[i] == (members[i].branch, members[i].oldHead)
  }

  /** Every source member is put behind its predecessor, the first one behind the target tail. */
  ghost predicate IsPlan(s: Status, input: Input, p: Plan) {
    var source := HeadedBy(s.caravans, input.sourceHead);
    var target := EndingIn(s.caravans, input.targetTail);
    && source.Some? && target.Some?
    && p.repository == s.repository && p.actor == input.actor && p.reason == input.reason
    && p.source == source.value.id && p.target == target.value.id
    && p.sourceMembers == source.value.members && p.targetMembers == target.value.members
    && p.newOrdering == p.targetMembers + p.sourceMembers
    && PlansUpTo(s, p.sourceMembers, input.targetTail, |p.sourceMembers|, p.members, p.rollbackHeads)
  }

  /** A status and an input have one plan. */
  lemma PlanIsUnique(s: Status, input: Input, p: Plan, q: Plan)
    requires IsPlan(s, input, p) && IsPlan(s, input, q)
    ensures p == q
  {
    assert p.members == q.members;
    assert p.rollbackHeads == q.rollbackHeads;
  }

  lemma Passes(s: Status, input: Input, answer: Compatibility, e: Refusal)
    requires PassesBefore(s, input, answer, e.Rank()) && !Refuses(s, input, answer, e) && e.Rank() < 13
    ensures PassesBefore(s, input, answer, e.Rank() + 1)
  {
    forall x: Refusal | x.Rank() < e.Rank() + 1
      ensures !Refuses(s, input, answer, x)
    {
      if x.Rank() == e.Rank() {
        assert x == e;
      }
    }
  }

  lemma PassesMember(s: Status, input: Input, answer: Compatibility, i: nat)
    requires PassesBefore(s, input, answer, 13 + i)
    requires !Refuses(s, input, answer, MemberIncomplete(i)) && !Refuses(s, input, answer, MemberFork(i))
    ensures PassesBefore(s, input, answer, 14 + i)
  {
    forall x: Refusal | x.Rank() < 14 + i
      ensures !Refuses(s, input, answer, x)
    {
      if x.Rank() == 13 + i {
        assert x == MemberIncomplete(i) || x == MemberFork(i);
      }
    }
  }

  lemma NothingLeftToRefuse(s: Status, input: Input, answer: Compatibility, source: Caravan)
    requires HeadedBy(s.caravans, input.sourceHead) == Some(source)
    requires PassesBefore(s, input, answer, 13 + |source.members|)
    ensures PassesAll(s, input, answer)
  {
    forall e: Refusal
      ensures !Refuses(s, input, answer, e)
    {
      if e.Rank() >= 13 + |source.members| {
        assert e.MemberIncomplete? || e.MemberFork?;
      }
    }
  }

  /** The least refusal that applies, or the one plan when none applies. */
  method PlanConcat(s: Status, input: Input, answer: Compatibility) returns (r: Planned)
    ensures r.Refused? ==> Refuses(s, input, answer, r.refusal) && PassesBefore(s, input, answer, r.refusal.Rank())
    ensures r.Ready? <==> PassesAll(s, input, answer)
    ensures r.Ready? ==> IsPlan(s, input, r.plan)
  {
    var refusal := CheckRequest(s, input, answer);
    if refusal.None? {
      refusal := CheckCaravans(s, input, answer);
    }
    if refusal.None? {
      refusal := CheckFacts(s, input, answer);
    }
    if refusal.Some? {
      return Refused(refusal.value);
    }
    assert !Refuses(s, input, answer, SourceHeadNotFound) && !Refuses(s, input, answer, TargetTailNotFound);
    assert !Refuses(s, input, answer, TargetIncomplete);
    r := PlanMembers(s, input, answer, HeadedBy(s.caravans, input.sourceHead).value, EndingIn(s.caravans, input.targetTail).value);
  }

  ghost predicate IsFirst(s: Status, input: Input, answer: Compatibility, r: Option<Refusal>, next: nat) {
    match r
    case Some(e) => Refuses(s, input, answer, e) && PassesBefore(s, input, answer, e.Rank()) && e.Rank() < next
    case None => PassesBefore(s, input, answer, next)
  }

  method CheckRequest(s: Status, input: Input, answer: Compatibility) returns (r: Option<Refusal>)
    ensures IsFirst(s, input, answer, r, 3)
  {
    if !Audited(input.actor, 256) {
      return Some(ActorRequired);
    }
    Passes(s, input, answer, ActorRequired);
    if !Audited(input.reason, 512) {
      return Some(ReasonRequired);
    }
    Passes(s, input, answer, ReasonRequired);
    if !s.healthy {
      return Some(FleetUnhealthy);
    }
    Passes(s, input, answer, FleetUnhealthy);
    r := None;
  }

  method CheckCaravans(s: Status, input: Input, answer: Compatibility) returns (r: Option<Refusal>)
    requires PassesBefore(s, input, answer, 3)
    ensures IsFirst(s, input, answer, r, 8)
  {
    var source := HeadedBy(s.caravans, input.sourceHead);
    if source.None? {
      return Some(SourceHeadNotFound);
    }
    Passes(s, input, answer, SourceHeadNotFound);
    var target := EndingIn(s.caravans, input.targetTail);
    if target.None? {
      return Some(TargetTailNotFound);
    }
    Passes(s, input, answer, TargetTailNotFound);
    if source.value.parked || target.value.parked {
      return Some(CaravanParked);
    }
    Passes(s, input, answer, CaravanParked);
    if source.value.id == target.value.id {
      return Some(CycleRefused);
    }
    Passes(s, input, answer, CycleRefused);
    if Held(s, source) || Held(s, target) {
      return Some(CaravanHeld);
    }
    Passes(s, input, answer, CaravanHeld);
    r := None;
  }

  method CheckFacts(s: Status, input: Input, answer: Compatibility) returns (r: Option<Refusal>)
    requires PassesBefore(s, input, answer, 8)
    ensures IsFirst(s, input, answer, r, 13)
  {
    if input.targetTail !in s.prs {
      return Some(TargetIncomplete);
    }
    Passes(s, input, answer, TargetIncomplete);
    if input.sourceHead !in s.prs {
      return Some(SourceIncomplete);
    }
    Passes(s, input, answer, SourceIncomplete);
    if IsFork(s, input.sourceHead) || IsFork(s, input.targetTail) {
      return Some(ForkRefused);
    }
    Passes(s, input, answer, ForkRefused);
    if answer.CheckFailed? {
      return Some(CheckerFailed);
    }
    Passes(s, input, answer, CheckerFailed);
    if answer.Conflicting? {
      return Some(Incompatible);
    }
    Passes(s, input, answer, Incompatible);
    r := None;
  }

  lemma OneMoreMember(s: Status, source: seq<Pr>, tail: Pr, n: nat, members: seq<MemberPlan>, heads: seq<(string, string)>,
                      m: MemberPlan)
    requires PlansUpTo(s, source, tail, n, members, heads) && n < |source|
    requires source[n] in s.prs && Predecessor(source, tail, n) in s.prs
    requires m == PlanOf(s, source[n], Predecessor(source, tail, n))
    ensures PlansUpTo(s, source, tail, n + 1, members + [m], heads + [(m.branch, m.oldHead)])
  {
    var (ms, hs) := (members + [m], heads + [(m.branch, m.oldHead)]);
    forall i | 0 <= i < n + 1
      ensures source[i] in s.prs && Predecessor(source, tail, i) in s.prs
      ensures ms[i] == PlanOf(s, source[i], Predecessor(source, tail, i)) && hs[i] == (ms[i].branch, ms[i].oldHead)
    {
      assert i < n ==> ms[i] == members[i] && hs[i] == heads[i];
    }
  }

  method PlanMembers(s: Status, input: Input, answer: Compatibility, source: Caravan, target: Caravan) returns (r: Planned)
    requires HeadedBy(s.caravans, input.sourceHead) == Some(source) && EndingIn(s.caravans, input.targetTail) == Some(target)
    requires PassesBefore(s, input, answer, 13) && input.targetTail in s.prs
    ensures r.Refused? ==> Refuses(s, input, answer, r.refusal) && PassesBefore(s, input, answer, r.refusal.Rank())
    ensures r.Ready? <==> PassesAll(s, input, answer)
    ensures r.Ready? ==> IsPlan(s, input, r.plan)
  {
    var predecessor := input.targetTail;
    var members: seq<MemberPlan> := [];
    var rollbackHeads: seq<(string, string)> := [];
    for i := 0 to |source.members|
      invariant PassesBefore(s, input, answer, 13 + i)
      invariant PlansUpTo(s, source.members, input.targetTail, i, members, rollbackHeads)
      invariant predecessor in s.prs
      invariant i < |source.members| ==> predecessor == Predecessor(source.members, input.targetTail, i)
    {
      var number := source.members[i];
      if number !in s.prs {
        assert Refuses(s, input, answer, MemberIncomplete(i));
        return Refused(MemberIncomplete(i));
      }
      if IsFork(s, number) {
        assert Refuses(s, input, answer, MemberFork(i));
        return Refused(MemberFork(i));
      }
      PassesMember(s, input, answer, i);
      var member := PlanOf(s, number, predecessor);
      OneMoreMember(s, source.members, input.targetTail, i, members, rollbackHeads, member);
      members := members + [member];
      rollbackHeads := rollbackHeads + [(member.branch, member.oldHead)];
      predecessor := number;
    }
    NothingLeftToRefuse(s, input, answer, source);
    r := Ready(Plan(s.repository, source.id, target.id, source.members, target.members, target.members + source.members,
                    members, input.actor, input.reason, rollbackHeads));
  }

  // ----- what a plan means for the topology -----

  predicate Lists(s: Status, members: seq<Pr>) {
    exists i :: 0 <= i < |s.caravans| && s.caravans[i].members == members
  }

  /** A parked caravan whose members are outside the fleet: its problems are quarantined with it. */
  predicate IsQuarantined(c: Caravan, f: Fleet) {
    c.parked && forall p :: p in c.members ==> p !in f
  }

  /** Every caravan of f is listed under its first member, and besides them only quarantined ones. */
  ghost predicate ShowsCaravans(s: Status, f: Fleet, d: string) {
    && (forall c :: c in s.caravans ==> c.members != [] && c.id == c.members[0])
    && (forall c :: c in s.caravans ==> IsCaravan(f, d, c.members) || IsQuarantined(c, f))
    && (forall m :: IsCaravan(f, d, m) ==> Lists(s, m))
  }

  predicate ShowsFacts(s: Status, f: Fleet) {
    forall p :: p in f ==> p in s.prs && s.prs[p].member == f[p]
  }

  /** The status shows the facts of f and, if it is healthy, its caravans. An unhealthy one may list anything. */
  ghost predicate Shows(s: Status, f: Fleet, d: string) {
    ShowsFacts(s, f) && (s.healthy ==> ShowsCaravans(s, f, d) && WellFormed(f, d))
  }

  lemma ListedCaravan(s: Status, f: Fleet, d: string, c: Caravan)
    requires ShowsCaravans(s, f, d) && c in s.caravans && (!c.parked || c.id in f)
    ensures IsCaravan(f, d, c.members) && c.id == c.members[0]
  {
    assert c.members[0] in c.members;
  }

  // ----- a true status exists -----

  /** The caravan that starts at a root. */
  ghost function CaravanFrom(f: Fleet, d: string, root: Pr): (c: seq<Pr>)
    requires AllInCaravans(f, d) && IsRoot(f, d, root)
    ensures IsCaravan(f, d, c) && c[0] == root
  {
    assert InCaravan(f, d, root);
    var c :| IsCaravan(f, d, c) && root in c;
    LaterMembersAreNoRoots(f, d, c);
    c
  }

  ghost function Roots(f: Fleet, d: string): set<Pr> {
    set p | p in f && f[p].base == d
  }

  ghost function CaravanList(f: Fleet, d: string): seq<Caravan>
    requires AllInCaravans(f, d)
  {
    var roots := Ascending(Roots(f, d));
    seq(|roots|, i requires 0 <= i < |roots| =>
      assert roots[i] in roots; Caravan(roots[i], CaravanFrom(f, d, roots[i]), false))
  }

  /** The status of a fleet as it is. */
  ghost function StatusOf(f: Fleet, d: string, repository: string): Status {
    Status(repository, WellFormed(f, d), if WellFormed(f, d) then CaravanList(f, d) else [], [],
           map p | p in f :: Fact(f[p], "", false, repository))
  }

  lemma StatusOfIsTrue(f: Fleet, d: string, repository: string)
    ensures Shows(StatusOf(f, d, repository), f, d)
  {
    if WellFormed(f, d) {
      var (roots, list) := (Ascending(Roots(f, d)), CaravanList(f, d));
      forall m | IsCaravan(f, d, m)
        ensures exists i :: 0 <= i < |list| && list[i].members == m
      {
        assert m[0] in roots;
        var i :| 0 <= i < |roots| && roots[i] == m[0];
        CaravansAreDisjoint(f, d, m, list[i].members, m[0]);
      }
      forall i | 0 <= i < |list|
        ensures IsCaravan(f, d, list[i].members) && list[i].id == list[i].members[0]
      {
        assert roots[i] in roots;
      }
    }
  }

  /** A status whose list was derived from a fleet without problems shows the caravans of that fleet. */
  lemma DerivedListIsTrue(s: Status, f: Fleet, d: string, derived: seq<seq<Pr>>)
    requires SortedByHead(derived) && forall c :: c in derived <==> IsCaravan(f, d, c)
    requires |s.caravans| == |derived|
    requires forall i :: 0 <= i < |derived| ==> s.caravans[i].members == derived[i] && s.caravans[i].id == derived[i][0]
    ensures ShowsCaravans(s, f, d)
  {
    forall c | c in s.caravans
      ensures c.members in derived && c.members != [] && c.id == c.members[0]
    {
      var i :| 0 <= i < |s.caravans| && s.caravans[i] == c;
    }
    forall m | IsCaravan(f, d, m)
      ensures Lists(s, m)
    {
      var i :| 0 <= i < |derived| && derived[i] == m;
      assert s.caravans[i].members == m;
    }
  }

  lemma AcceptedFinds(s: Status, input: Input, answer: Compatibility)
    requires PassesAll(s, input, answer)
    ensures s.healthy
    ensures HeadedBy(s.caravans, input.sourceHead).Some? && EndingIn(s.caravans, input.targetTail).Some?
    ensures HeadedBy(s.caravans, input.sourceHead).value.id != EndingIn(s.caravans, input.targetTail).value.id
    ensures !HeadedBy(s.caravans, input.sourceHead).value.parked && !EndingIn(s.caravans, input.targetTail).value.parked
  {
    assert !Refuses(s, input, answer, CaravanParked);
    assert !Refuses(s, input, answer, FleetUnhealthy) && !Refuses(s, input, answer, CycleRefused);
    assert !Refuses(s, input, answer, SourceHeadNotFound) && !Refuses(s, input, answer, TargetTailNotFound);
  }

  // ----- what is accepted -----

  /** A text that may stand in the record: not empty, short enough in UTF-8, tight, and without control characters. */
  predicate MayBeRecorded(text: string, limit: nat) {
    && 0 < Text.Utf8Length(text) <= limit
    && text != "" && !Text.IsWhite(text[0]) && !Text.IsWhite(text[|text| - 1])
    && forall c :: c in text ==> ' ' <= c && !('\U{7f}' <= c <= '\U{9f}')
  }

  lemma TightTextsAreTrimmed(text: string)
    requires text != ""
    ensures Text.Trim(text) == text <==> !Text.IsWhite(text[0]) && !Text.IsWhite(text[|text| - 1])
  {
    if Text.Trim(text) == text {
      var start := Text.TrimStart(text);
      StartIsNoLonger(text);
      assert Text.TrimEnd(start) <= start && |start| == |text|;
      assert start == text;
    }
    if !Text.IsWhite(text[0]) && !Text.IsWhite(text[|text| - 1]) {
      Text.TrimOfTight(text);
    }
  }

  lemma {:induction false} StartIsNoLonger(text: string)
    ensures |Text.TrimStart(text)| <= |text|
    ensures |Text.TrimStart(text)| == |text| ==> Text.TrimStart(text) == text
  {
    if text != "" {
      StartIsNoLonger(text[1..]);
    }
  }

  lemma AuditedIs(text: string, limit: nat)
    ensures Audited(text, limit) <==> MayBeRecorded(text, limit)
  {
    if text != "" {
      TightTextsAreTrimmed(text);
      assert Text.Utf8Length(text) > 0;
      assert forall i :: 0 <= i < |text| ==> text[i] in text;
    }
  }

  /** The facts of the pull request are known, and its branch is one of this repository. */
  predicate IsOwned(s: Status, pr: Pr) {
    pr in s.prs && !s.prs[pr].crossRepository && s.prs[pr].repository == s.repository
  }

  predicate IsFree(s: Status, c: Caravan) {
    !c.parked && forall i :: 0 <= i < |s.pauses| && s.pauses[i].effective ==> s.pauses[i].head != c.id
  }

  /** Caravan i is the first listed one with this head, and caravan j the first with this tail. */
  ghost predicate AreNamed(s: Status, input: Input, i: nat, j: nat) {
    && i < |s.caravans| && s.caravans[i].id == input.sourceHead
    && (forall k :: 0 <= k < i ==> s.caravans[k].id != input.sourceHead)
    && j < |s.caravans| && EndsIn(s.caravans[j], input.targetTail)
    && (forall k :: 0 <= k < j ==> !EndsIn(s.caravans[k], input.targetTail))
  }

  ghost predicate MayBeJoined(s: Status, input: Input, i: nat, j: nat) {
    && AreNamed(s, input, i, j)
    && s.caravans[i].id != s.caravans[j].id && IsFree(s, s.caravans[i]) && IsFree(s, s.caravans[j])
    && IsOwned(s, input.targetTail) && IsOwned(s, input.sourceHead)
    && forall p :: p in s.caravans[i].members ==> IsOwned(s, p)
  }

  lemma {:induction false} FirstHeaded(caravans: seq<Caravan>, pr: Pr) returns (i: nat)
    ensures match HeadedBy(caravans, pr)
            case None => forall k :: 0 <= k < |caravans| ==> caravans[k].id != pr
            case Some(c) => i < |caravans| && caravans[i] == c && c.id == pr && forall k :: 0 <= k < i ==> caravans[k].id != pr
  {
    i := 0;
    if caravans != [] && caravans[0].id != pr {
      i := FirstHeaded(caravans[1..], pr);
      i := i + 1;
      assert forall k :: 1 <= k < |caravans| ==> caravans[k] == caravans[1..][k - 1];
    }
  }

  lemma {:induction false} FirstEnding(caravans: seq<Caravan>, pr: Pr) returns (i: nat)
    ensures match EndingIn(caravans, pr)
            case None => forall k :: 0 <= k < |caravans| ==> !EndsIn(caravans[k], pr)
            case Some(c) => i < |caravans| && caravans[i] == c && EndsIn(c, pr) && forall k :: 0 <= k < i ==> !EndsIn(caravans[k], pr)
  {
    i := 0;
    if caravans != [] && !EndsIn(caravans[0], pr) {
      i := FirstEnding(caravans[1..], pr);
      i := i + 1;
      assert forall k :: 1 <= k < |caravans| ==> caravans[k] == caravans[1..][k - 1];
    }
  }

  lemma NamedAreFound(s: Status, input: Input, i: nat, j: nat)
    requires AreNamed(s, input, i, j)
    ensures HeadedBy(s.caravans, input.sourceHead) == Some(s.caravans[i])
    ensures EndingIn(s.caravans, input.targetTail) == Some(s.caravans[j])
  {
    assert s.caravans[i] in s.caravans && s.caravans[j] in s.caravans;
    var a := FirstHeaded(s.caravans, input.sourceHead);
    var b := FirstEnding(s.caravans, input.targetTail);
  }

  lemma RefusalsOfCaravans(s: Status, input: Input, answer: Compatibility, i: nat, j: nat)
    requires AreNamed(s, input, i, j)
    ensures Refuses(s, input, answer, CaravanParked) <==> s.caravans[i].parked || s.caravans[j].parked
    ensures Refuses(s, input, answer, CycleRefused) <==> s.caravans[i].id == s.caravans[j].id
    ensures Refuses(s, input, answer, CaravanHeld) <==>
      exists k :: 0 <= k < |s.pauses| && s.pauses[k].effective && s.pauses[k].head in {s.caravans[i].id, s.caravans[j].id}
  {
    NamedAreFound(s, input, i, j);
  }

  lemma RefusalsOfFacts(s: Status, input: Input, answer: Compatibility)
    ensures Refuses(s, input, answer, TargetIncomplete) <==> input.targetTail !in s.prs
    ensures Refuses(s, input, answer, SourceIncomplete) <==> input.sourceHead !in s.prs
    ensures input.targetTail in s.prs && input.sourceHead in s.prs ==>
      (Refuses(s, input, answer, ForkRefused) <==> !IsOwned(s, input.targetTail) || !IsOwned(s, input.sourceHead))
  {
  }

  lemma RefusalsOfMembers(s: Status, input: Input, answer: Compatibility, i: nat, j: nat)
    requires AreNamed(s, input, i, j)
    ensures
      (forall k: nat :: !Refuses(s, input, answer, MemberIncomplete(k)) && !Refuses(s, input, answer, MemberFork(k))) <==>
      forall p :: p in s.caravans[i].members ==> IsOwned(s, p)
  {
    NamedAreFound(s, input, i, j);
    var members := s.caravans[i].members;
    if forall k: nat :: !Refuses(s, input, answer, MemberIncomplete(k)) && !Refuses(s, input, answer, MemberFork(k)) {
      forall p | p in members
        ensures IsOwned(s, p)
      {
        var k: nat :| k < |members| && members[k] == p;
        assert !Refuses(s, input, answer, MemberIncomplete(k)) && !Refuses(s, input, answer, MemberFork(k));
      }
    }
    if forall p :: p in members ==> IsOwned(s, p) {
      forall k: nat
        ensures !Refuses(s, input, answer, MemberIncomplete(k)) && !Refuses(s, input, answer, MemberFork(k))
      {
        assert k < |members| ==> members[k] in members;
      }
    }
  }

  /** The order of the refusals that do not name a member of the source caravan. */
  const ORDER := [
    ActorRequired, ReasonRequired, FleetUnhealthy, SourceHeadNotFound, TargetTailNotFound, CaravanParked, CycleRefused,
    CaravanHeld, TargetIncomplete, SourceIncomplete, ForkRefused, CheckerFailed, Incompatible]

  lemma RankedByOrder(e: Refusal)
    ensures e.MemberIncomplete? || e.MemberFork? || (e.Rank() < 13 && ORDER[e.Rank()] == e)
  {
  }

  /** The refusal that planning meets first is the first one in the order that applies. */
  lemma TheFirstInOrderIsMet(s: Status, input: Input, answer: Compatibility, k: nat)
    requires k < |ORDER|
    ensures IsFirstRefusal(s, input, answer, ORDER[k]) <==>
      Refuses(s, input, answer, ORDER[k]) && forall j :: 0 <= j < k ==> !Refuses(s, input, answer, ORDER[j])
  {
    var all := ORDER;
    assert forall j :: 0 <= j < 13 ==> all[j].Rank() == j;
    forall e: Refusal
      ensures e.Rank() < k ==> e == all[e.Rank()]
    {
      RankedByOrder(e);
    }
  }

  /** The refusal that names a member comes last, at the first member that is not known or not owned. */
  lemma MembersAreMetLast(s: Status, input: Input, answer: Compatibility, e: Refusal, i: nat)
    requires e == MemberIncomplete(i) || e == MemberFork(i)
    ensures IsFirstRefusal(s, input, answer, e) <==>
      && Refuses(s, input, answer, e) && (forall j :: 0 <= j < |ORDER| ==> !Refuses(s, input, answer, ORDER[j]))
      && forall j: nat :: j < i ==> !Refuses(s, input, answer, MemberIncomplete(j)) && !Refuses(s, input, answer, MemberFork(j))
  {
    OthersPass(s, input, answer);
    MembersPass(s, input, answer, i);
  }

  lemma OthersPass(s: Status, input: Input, answer: Compatibility)
    ensures PassesBefore(s, input, answer, 13) <==> forall j :: 0 <= j < |ORDER| ==> !Refuses(s, input, answer, ORDER[j])
  {
    var all := ORDER;
    assert forall j :: 0 <= j < 13 ==> all[j].Rank() == j;
    forall x: Refusal
      ensures x.Rank() < 13 ==> x == all[x.Rank()]
    {
      RankedByOrder(x);
    }
  }

  lemma MembersPass(s: Status, input: Input, answer: Compatibility, i: nat)
    ensures PassesBefore(s, input, answer, 13 + i) <==>
      && PassesBefore(s, input, answer, 13)
      && forall j: nat :: j < i ==> !Refuses(s, input, answer, MemberIncomplete(j)) && !Refuses(s, input, answer, MemberFork(j))
  {
    forall j: nat
      ensures MemberIncomplete(j).Rank() == 13 + j && MemberFork(j).Rank() == 13 + j
    {
    }
    forall x: Refusal
      ensures 13 <= x.Rank() < 13 + i ==> x in {MemberIncomplete(x.Rank() - 13), MemberFork(x.Rank() - 13)}
    {
    }
  }

  /** An accepted input, in the fields of the status: nothing is missing, parked, held or foreign, and the merge is clean. */
  ghost predicate MayBePlanned(s: Status, input: Input, answer: Compatibility) {
    && MayBeRecorded(input.actor, 256) && MayBeRecorded(input.reason, 512)
    && s.healthy && answer.Clean?
    && exists i: nat, j: nat :: MayBeJoined(s, input, i, j)
  }

  /** An input is planned exactly when it may be. */
  lemma PlannedIffItMayBe(s: Status, input: Input, answer: Compatibility)
    ensures PassesAll(s, input, answer) <==> MayBePlanned(s, input, answer)
  {
    AuditedIs(input.actor, 256);
    AuditedIs(input.reason, 512);
    RefusalsOfFacts(s, input, answer);
    if PassesAll(s, input, answer) {
      PassingAllMayBePlanned(s, input, answer);
    }
    if MayBePlanned(s, input, answer) {
      var i: nat, j: nat :| MayBeJoined(s, input, i, j);
      RefusalsOfCaravans(s, input, answer, i, j);
      RefusalsOfMembers(s, input, answer, i, j);
      NamedAreFound(s, input, i, j);
      forall e: Refusal
        ensures !Refuses(s, input, answer, e)
      {
      }
    }
  }

  lemma PassingAllMayBePlanned(s: Status, input: Input, answer: Compatibility)
    requires PassesAll(s, input, answer)
    ensures MayBePlanned(s, input, answer)
  {
    AcceptedFinds(s, input, answer);
    var i := FirstHeaded(s.caravans, input.sourceHead);
    var j := FirstEnding(s.caravans, input.targetTail);
    assert AreNamed(s, input, i, j);
    AuditedIs(input.actor, 256);
    AuditedIs(input.reason, 512);
    RefusalsOfFacts(s, input, answer);
    RefusalsOfCaravans(s, input, answer, i, j);
    RefusalsOfMembers(s, input, answer, i, j);
    assert !Refuses(s, input, answer, ActorRequired) && !Refuses(s, input, answer, ReasonRequired);
    assert !Refuses(s, input, answer, CheckerFailed) && !Refuses(s, input, answer, Incompatible);
    assert MayBeJoined(s, input, i, j);
  }

  /** Every member is put behind the one before it, the first one behind the target tail, at the heads that were read. */
  lemma MembersFollowEachOther(s: Status, input: Input, p: Plan, i: nat)
    requires IsPlan(s, input, p) && i < |p.sourceMembers|
    ensures |p.members| == |p.sourceMembers| == |p.rollbackHeads|
    ensures
      var m := p.members[i];
      && m.pr == p.sourceMembers[i] && m.pr in s.prs
      && m.branch == s.prs[m.pr].member.head && m.oldHead == s.prs[m.pr].member.oid
      && m.oldBase == s.prs[m.pr].member.base && m.oldBaseOid == s.prs[m.pr].baseOid
      && p.rollbackHeads[i] == (s.prs[m.pr].member.head, s.prs[m.pr].member.oid)
      && (i == 0 ==>
            && input.targetTail in s.prs && m.targetPr == input.targetTail
            && m.targetBranch == s.prs[input.targetTail].member.head && m.targetHead == s.prs[input.targetTail].member.oid)
      && (i > 0 ==>
            m.targetPr == p.members[i - 1].pr && m.targetBranch == p.members[i - 1].branch && m.targetHead == p.members[i - 1].oldHead)
  {
    assert i > 0 ==> Predecessor(p.sourceMembers, input.targetTail, i) == p.sourceMembers[i - 1];
    assert i > 0 ==> p.members[i - 1] == PlanOf(s, p.sourceMembers[i - 1], Predecessor(p.sourceMembers, input.targetTail, i - 1));
  }

  /** Source and target of an accepted input are two whole caravans. */
  lemma AcceptedCaravans(s: Status, f: Fleet, d: string, input: Input, answer: Compatibility, p: Plan)
    requires ShowsCaravans(s, f, d) && PassesAll(s, input, answer) && IsPlan(s, input, p)
    ensures IsCaravan(f, d, p.sourceMembers) && p.sourceMembers[0] == p.source == input.sourceHead
    ensures IsCaravan(f, d, p.targetMembers) && p.targetMembers[|p.targetMembers| - 1] == input.targetTail
    ensures p.targetMembers != p.sourceMembers && p.source in f && input.targetTail in f
  {
    AcceptedFinds(s, input, answer);
    ListedCaravan(s, f, d, HeadedBy(s.caravans, input.sourceHead).value);
    ListedCaravan(s, f, d, EndingIn(s.caravans, input.targetTail).value);
    EndsAreInFleet(f, d, p.sourceMembers);
    EndsAreInFleet(f, d, p.targetMembers);
  }

  lemma EndsAreInFleet(f: Fleet, d: string, c: seq<Pr>)
    requires IsPath(f, d, c)
    ensures c[0] in f && c[|c| - 1] in f
  {
    PathMember(f, d, c, |c| - 1);
  }

  lemma FirstMemberPlan(s: Status, f: Fleet, input: Input, p: Plan)
    requires ShowsFacts(s, f) && IsPlan(s, input, p) && p.sourceMembers != [] && p.sourceMembers[0] in f && input.targetTail in f
    ensures p.members != [] && p.newOrdering == p.targetMembers + p.sourceMembers
    ensures
      var m := p.members[0];
      && m.pr == p.sourceMembers[0] && m.oldBase == f[m.pr].base
      && m.targetPr == input.targetTail && m.targetBranch == f[input.targetTail].head
  {
    assert p.members[0] == PlanOf(s, p.sourceMembers[0], input.targetTail);
  }

  /** The shape of a plan, without the status it was made from. */
  ghost predicate Joins(f: Fleet, d: string, input: Input, p: Plan) {
    && Paired(f, d, p.targetMembers, p.sourceMembers) && AllInCaravans(f, d)
    && p.members != [] && p.members[0].pr == p.source == p.sourceMembers[0] == input.sourceHead
    && p.members[0].targetPr == p.targetMembers[|p.targetMembers| - 1] == input.targetTail
    && p.source in f && f[p.source].base == p.members[0].oldBase == d
    && input.targetTail in f && f[input.targetTail].head == p.members[0].targetBranch
    && p.newOrdering == p.targetMembers + p.sourceMembers
  }

  /** A plan joins two whole caravans. Its one base edge puts the source root on the branch of the target tail. */
  lemma PlanJoinsTwoCaravans(s: Status, f: Fleet, d: string, input: Input, answer: Compatibility, p: Plan)
    requires Shows(s, f, d) && PassesAll(s, input, answer) && IsPlan(s, input, p)
    ensures Joins(f, d, input, p)
    ensures Joined(f, p.targetMembers, p.sourceMembers) == Retarget(f, p.source, p.members[0].targetBranch)
  {
    AcceptedFinds(s, input, answer);
    AcceptedCaravans(s, f, d, input, answer, p);
    FirstMemberPlan(s, f, input, p);
    CaravansJoin(f, d, input, p);
  }

  lemma CaravansJoin(f: Fleet, d: string, input: Input, p: Plan)
    requires UniqueHeads(f) && NoBranching(f, d) && AllInCaravans(f, d)
    requires IsCaravan(f, d, p.sourceMembers) && p.sourceMembers[0] == p.source == input.sourceHead
    requires IsCaravan(f, d, p.targetMembers) && p.targetMembers[|p.targetMembers| - 1] == input.targetTail
    requires p.targetMembers != p.sourceMembers && p.newOrdering == p.targetMembers + p.sourceMembers
    requires input.targetTail in f && p.members != []
    requires p.members[0].pr == p.source && p.members[0].oldBase == f[p.source].base
    requires p.members[0].targetPr == input.targetTail && p.members[0].targetBranch == f[input.targetTail].head
    ensures Joins(f, d, input, p)
    ensures Joined(f, p.targetMembers, p.sourceMembers) == Retarget(f, p.source, p.members[0].targetBranch)
  {
  }

  lemma SplicedHeads(f: Fleet, g: Fleet, d: string, target: seq<Pr>, source: seq<Pr>, root: Pr, c: seq<Pr>)
    requires Spliced(f, g, d, target, source, root) && IsCaravan(g, d, c)
    ensures !Heads(c, root)
  {
    assert IsSpliced(f, g, d, target, source, root, c);
  }

  lemma ShowsNoCaravanHeadedBy(s: Status, f: Fleet, g: Fleet, d: string, target: seq<Pr>, source: seq<Pr>, root: Pr)
    requires ShowsCaravans(s, g, d) && Spliced(f, g, d, target, source, root) && root in g
    ensures HeadedBy(s.caravans, root).None?
  {
    var found := HeadedBy(s.caravans, root);
    if found.Some? {
      ListedCaravan(s, g, d, found.value);
      SplicedHeads(f, g, d, target, source, root, found.value.members);
      assert false;
    }
  }

  lemma RequestStillPasses(s: Status, input: Input, answer: Compatibility, later: Status, laterAnswer: Compatibility)
    requires PassesAll(s, input, answer)
    ensures PassesBefore(later, input, laterAnswer, FleetUnhealthy.Rank())
    ensures later.healthy ==> PassesBefore(later, input, laterAnswer, SourceHeadNotFound.Rank())
  {
    assert !Refuses(s, input, answer, ActorRequired) && !Refuses(s, input, answer, ReasonRequired);
    forall e: Refusal | e.Rank() < 3 && (later.healthy || e.Rank() < 2)
      ensures !Refuses(later, input, laterAnswer, e)
    {
      assert e == ActorRequired || e == ReasonRequired || e == FleetUnhealthy;
    }
  }

  /** The refusal that planning meets first. */
  ghost predicate IsFirstRefusal(s: Status, input: Input, answer: Compatibility, e: Refusal) {
    Refuses(s, input, answer, e) && PassesBefore(s, input, answer, e.Rank())
  }

  /** Once the two caravans are one the same input is refused: the source heads no caravan, or the fleet is unhealthy. */
  lemma PlanningAgainIsRefused(s: Status, f: Fleet, g: Fleet, d: string, input: Input, answer: Compatibility, p: Plan,
                               later: Status, laterAnswer: Compatibility)
    requires PassesAll(s, input, answer) && Spliced(f, g, d, p.targetMembers, p.sourceMembers, input.sourceHead)
    requires input.sourceHead in g && Shows(later, g, d)
    ensures IsFirstRefusal(later, input, laterAnswer, if later.healthy then SourceHeadNotFound else FleetUnhealthy)
  {
    if later.healthy {
      ShowsNoCaravanHeadedBy(later, f, g, d, p.targetMembers, p.sourceMembers, input.sourceHead);
    }
    RequestStillPasses(s, input, answer, later, laterAnswer);
  }

  /** So it is when the one base edge of the plan is made. */
  lemma JoiningOnceIsEnough(s: Status, f: Fleet, d: string, input: Input, answer: Compatibility, p: Plan,
                            later: Status, laterAnswer: Compatibility)
    requires PassesAll(s, input, answer) && Joins(f, d, input, p) && f[input.targetTail].head != d
    requires Shows(later, Retarget(f, p.source, p.members[0].targetBranch), d)
    ensures IsFirstRefusal(later, input, laterAnswer, if later.healthy then SourceHeadNotFound else FleetUnhealthy)
  {
    ChainSurgery(f, d, p.targetMembers, p.sourceMembers);
    PlanningAgainIsRefused(s, f, Joined(f, p.targetMembers, p.sourceMembers), d, input, answer, p, later, laterAnswer);
  }
}
