/** Printing and reading of supersession declarations (src/generation.rs). */
module GenerationDeclarations {
  import opened Common
  import opened Sequences
  import opened Ordering
  import opened Text
  import opened Generations

  const TITLE := "**Caravan canonical generation declared.**"

  const SUPERSEDED := "- **Superseded:**"

  function Marker(canonical: Pr, head: string): string {
    "<!-- caravan-generation-supersession:v1:" + Print(canonical) + ":" + head + " -->"
  }

  function NumberList(prs: seq<Pr>): string {
    if prs == [] then "" else if |prs| == 1 then "#" + Print(prs[0])
    else "#" + Print(prs[0]) + ", " + NumberList(prs[1..])
  }

  /** The lines after the list: actor and reason may be any text. */
  function Trailer(actor: string, reason: string): string {
    "- **Actor:** " + actor + "\n- **Reason:** " + reason + "\n"
  }

  ghost function Body(canonical: Pr, head: string, superseded: set<Pr>, actor: string, reason: string): string {
    Marker(canonical, head) + "\n"
    + ("" + "\n"
    + (TITLE + "\n"
    + ("" + "\n"
    + ("- **Canonical:** #" + Print(canonical) + " at `" + head + "`" + "\n"
    + (SUPERSEDED + " " + NumberList(Ascending(superseded)) + "\n"
    + Trailer(actor, reason))))))
  }

  /** The numbers among the pieces of a list. */
  function Numbers(pieces: seq<string>): set<nat> {
    if pieces == [] then {} else
      Numbers(pieces[1..]) + match ParseU64(pieces[0]) case Some(n) => {n} case None => {}
  }

  function NotDigit(): char -> bool {
    c => !IsDigit(c)
  }

  function LastContaining(bodies: seq<string>, marker: string): Option<string> {
    if bodies == [] then None
    else if Contains(bodies[|bodies| - 1], marker) then Some(bodies[|bodies| - 1])
    else LastContaining(bodies[..|bodies| - 1], marker)
  }

  function Listed(text: string, canonical: Pr): Option<set<Pr>> {
    var found := Numbers(SplitBy(text, NotDigit()));
    var values := found - {0, canonical};
    if values == {} then None else Some(values)
  }

  function DeclaredSupersessions(canonical: Pr, head: string, bodies: seq<string>): Option<set<Pr>> {
    match LastContaining(bodies, Marker(canonical, head))
    case None => None
    case Some(body) =>
      match FirstStripped(Lines(body), SUPERSEDED)
      case None => None
      case Some(line) => Listed(line, canonical)
  }

  /** The historical controller receipt, read only when no declaration applies. */
  function LegacySupersessions(canonical: Pr, bodies: seq<string>): Option<set<Pr>> {
    match LastContaining(bodies, "<!-- caravan-control-label-audit:v2:priority_")
    case None => None
    case Some(body) =>
      if !Contains(body, "<!-- caravan-control-label-audit:v2:priority_set:" + Print(canonical) + ":")
        || !Contains(body, "- **Actor/source:** caravan-dogfood-controller")
      then None
      else
        match FirstStripped(Lines(body), "- **Reason:**")
        case None => None
        case Some(reason) =>
          match AfterFirst(Trim(reason), "superseding PRs ")
          case None => None
          case Some(suffix) => Listed(suffix, canonical)
  }

  function IndexOfPr(facts: seq<Fact>, pr: Pr): (i: nat)
    ensures i <= |facts| && (i < |facts| ==> facts[i].pr == pr)
    ensures forall k :: 0 <= k < i ==> facts[k].pr != pr
  {
    if facts == [] || facts[0].pr == pr then 0 else
      var i := IndexOfPr(facts[1..], pr);
      assert forall k :: 1 <= k <= i ==> facts[k] == facts[1..][k - 1];
      i + 1
  }

  function Supersedes(facts: seq<Fact>, canonical: Pr, bodies: seq<string>): Option<set<Pr>> {
    var i := IndexOfPr(facts, canonical);
    if i == |facts| then None else
      match DeclaredSupersessions(canonical, facts[i].providerHead, bodies)
      case Some(declared) => Some(declared)
      case None => LegacySupersessions(canonical, bodies)
  }

  lemma IndexIs(facts: seq<Fact>, pr: Pr, i: nat)
    requires i <= |facts| && (i < |facts| ==> facts[i].pr == pr) && forall k :: 0 <= k < i ==> facts[k].pr != pr
    ensures i == IndexOfPr(facts, pr)
  {
  }

  method AttachReviewedLinks(facts: array<Fact>, canonical: Pr, bodies: seq<string>)
    modifies facts
    ensures forall k :: 0 <= k < facts.Length ==>
      facts[k] == if k == IndexOfPr(old(facts[..]), canonical) && Supersedes(old(facts[..]), canonical, bodies).Some?
                  then old(facts[k]).(supersedes := Supersedes(old(facts[..]), canonical, bodies).value)
                  else old(facts[k])
  {
    var i := 0;
    while i < facts.Length && facts[i].pr != canonical
      invariant 0 <= i <= facts.Length
      invariant forall k :: 0 <= k < i ==> facts[k].pr != canonical
    {
      i := i + 1;
    }
    IndexIs(facts[..], canonical, i);
    if i == facts.Length {
      return;
    }
    var links := DeclaredSupersessions(canonical, facts[i].providerHead, bodies);
    if links.None? {
      links := LegacySupersessions(canonical, bodies);
    }
    if links.Some? {
      facts[i] := facts[i].(supersedes := links.value);
    }
  }

  // ----- the round trip -----

  lemma {:induction false} NumbersAppend(a: seq<string>, b: seq<string>)
    ensures Numbers(a + b) == Numbers(a) + Numbers(b)
  {
    if a == [] {
      assert a + b == b;
    } else {
      assert (a + b)[1..] == a[1..] + b;
      NumbersAppend(a[1..], b);
    }
  }

  /** A number and the separator before it. */
  lemma NumberAfterSeparator(c: char, n: nat)
    requires !IsDigit(c) && n <= U64_MAX
    ensures Numbers(SplitBy([c] + Print(n), NotDigit())) == {n}
  {
    SplitAfterSeparator(c, n);
    ParseOfPrint(n);
    assert [[], Print(n)][1..] == [Print(n)] && [Print(n)][1..] == [];
    assert Numbers([Print(n)]) == {n};
  }

  lemma SplitAfterSeparator(c: char, n: nat)
    requires !IsDigit(c)
    ensures SplitBy([c] + Print(n), NotDigit()) == [[], Print(n)]
  {
    assert [c] + Print(n) == [] + [c] + Print(n);
    SplitByAppend([], c, Print(n), NotDigit());
    SplitByNone(Print(n), NotDigit());
    assert SplitBy([], NotDigit()) == [[]];
  }

  lemma LongerList(prs: seq<Pr>)
    requires |prs| > 1
    ensures NumberList(prs) == (['#'] + Print(prs[0])) + [','] + ([] + [' '] + NumberList(prs[1..]))
  {
    CommaSpace("#" + Print(prs[0]), NumberList(prs[1..]));
  }

  lemma CommaSpace(first: string, rest: string)
    ensures first + ", " + rest == first + [','] + ([] + [' '] + rest)
  {
    assert ", " == [','] + [' '];
  }

  function Members(prs: seq<Pr>): set<Pr> {
    set p | p in prs
  }

  lemma MembersOfMore(prs: seq<Pr>)
    requires prs != []
    ensures Members(prs) == {prs[0]} + Members(prs[1..])
  {
    assert prs == [prs[0]] + prs[1..];
  }

  lemma NumbersOfMore(prs: seq<Pr>)
    requires |prs| > 1 && prs[0] <= U64_MAX
    ensures Numbers(SplitBy(NumberList(prs), NotDigit())) == {prs[0]} + Numbers(SplitBy(NumberList(prs[1..]), NotDigit()))
  {
    LongerList(prs);
    OneMoreNumber(prs[0], NumberList(prs[1..]));
  }

  lemma NumbersOfOne(prs: seq<Pr>)
    requires |prs| == 1 && prs[0] <= U64_MAX
    ensures Numbers(SplitBy(NumberList(prs), NotDigit())) == {prs[0]}
  {
    assert NumberList(prs) == ['#'] + Print(prs[0]);
    NumberAfterSeparator('#', prs[0]);
  }

  lemma {:induction false} NumbersOfList(prs: seq<Pr>)
    requires forall i :: 0 <= i < |prs| ==> prs[i] <= U64_MAX
    ensures Numbers(SplitBy(NumberList(prs), NotDigit())) == Members(prs)
  {
    if prs == [] {
      assert SplitBy("", NotDigit()) == [[]];
    } else {
      MembersOfMore(prs);
      if |prs| == 1 {
        NumbersOfOne(prs);
      } else {
        NumbersOfMore(prs);
        NumbersOfList(prs[1..]);
      }
    }
  }

  lemma OneMoreNumber(n: nat, rest: string)
    requires n <= U64_MAX
    ensures Numbers(SplitBy((['#'] + Print(n)) + [','] + ([] + [' '] + rest), NotDigit())) == {n} + Numbers(SplitBy(rest, NotDigit()))
  {
    var first := ['#'] + Print(n);
    NumberAfterSeparator('#', n);
    SplitByAppend(first, ',', [] + [' '] + rest, NotDigit());
    SplitByAppend([], ' ', rest, NotDigit());
    NumbersAppend(SplitBy(first, NotDigit()), SplitBy([] + [' '] + rest, NotDigit()));
    NumbersAppend(SplitBy([], NotDigit()), SplitBy(rest, NotDigit()));
    assert SplitBy([], NotDigit()) == [[]];
  }

  /** Text without a newline whose last character is a digit or a hash. */
  lemma {:induction false} ListIsTight(prs: seq<Pr>)
    ensures '\n' !in NumberList(prs)
    ensures prs != [] ==> NumberList(prs) != "" && IsDigit(NumberList(prs)[|NumberList(prs)| - 1])
  {
    if |prs| == 1 {
      DigitsAreNotWhite(Print(prs[0]));
    } else if |prs| > 1 {
      DigitsAreNotWhite(Print(prs[0]));
      ListIsTight(prs[1..]);
    }
  }

  lemma MarkerIsTight(canonical: Pr, head: string)
    requires '\n' !in head
    ensures '\n' !in Marker(canonical, head)
    ensures var m := Marker(canonical, head); m != "" && m[0] == '<' && m[|m| - 1] == '>'
  {
    DigitsAreNotWhite(Print(canonical));
    var a := "<!-- caravan-generation-supersession:v1:";
    NoNewline(a, Print(canonical));
    NoNewline(a + Print(canonical), ":");
    NoNewline(a + Print(canonical) + ":", head);
    NoNewline(a + Print(canonical) + ":" + head, " -->");
  }

  lemma CanonicalLineIsTight(canonical: Pr, head: string)
    requires '\n' !in head
    ensures
      var l := "- **Canonical:** #" + Print(canonical) + " at `" + head + "`";
      '\n' !in l && l[0] == '-' && l[4] == 'C' && l[|l| - 1] == '`'
  {
    DigitsAreNotWhite(Print(canonical));
    var a := "- **Canonical:** #";
    NoNewline(a, Print(canonical));
    NoNewline(a + Print(canonical), " at `");
    NoNewline(a + Print(canonical) + " at `", head);
    NoNewline(a + Print(canonical) + " at `" + head, "`");
  }

  predicate Passes(l: string) {
    '\n' !in l && (l == "" || (!IsWhite(l[0]) && !IsWhite(l[|l| - 1]))) && !(SUPERSEDED <= l)
  }

  lemma PassOver(l: string, rest: string)
    requires Passes(l)
    ensures FirstStripped(Lines(l + "\n" + rest), SUPERSEDED) == FirstStripped(Lines(rest), SUPERSEDED)
  {
    SkipLine(l, rest, SUPERSEDED);
  }

  lemma TitlePasses()
    ensures Passes(TITLE) && Passes("")
  {
    assert TITLE[0] == '*' && SUPERSEDED[0] == '-';
  }

  lemma MarkerPasses(l: string)
    requires '\n' !in l && l != "" && l[0] == '<' && l[|l| - 1] == '>'
    ensures Passes(l)
  {
    assert SUPERSEDED[0] == '-';
  }

  lemma CanonicalLinePasses(l: string)
    requires '\n' !in l && |l| > 4 && l[0] == '-' && l[4] == 'C' && l[|l| - 1] == '`'
    ensures Passes(l)
  {
    assert SUPERSEDED[4] == 'S';
  }

  /** The five lines before the list are passed over. */
  lemma HeaderIsSkipped(l1: string, l3: string, l5: string, rest: string)
    requires Passes(l1) && Passes("") && Passes(l3) && Passes(l5)
    ensures FirstStripped(Lines(l1 + "\n" + ("" + "\n" + (l3 + "\n" + ("" + "\n" + (l5 + "\n" + rest))))), SUPERSEDED)
         == FirstStripped(Lines(rest), SUPERSEDED)
  {
    var r4 := l5 + "\n" + rest;
    var r3 := "" + "\n" + r4;
    var r2 := l3 + "\n" + r3;
    PassOver(l1, "" + "\n" + r2);
    PassOver("", r2);
    PassOver(l3, r3);
    PassOver("", r4);
    PassOver(l5, rest);
  }

  lemma EmptyListLineIsRead(rest: string)
    ensures FirstStripped(Lines(SUPERSEDED + " " + "\n" + rest), SUPERSEDED) == Some("")
  {
    var line := SUPERSEDED + " ";
    assert '\n' !in line;
    LinesCons(line, rest);
    assert TrimStart(line) == line && line[..|line| - 1] == SUPERSEDED;
    assert TrimEnd(SUPERSEDED) == SUPERSEDED;
    assert StripReturn(line) == line && Trim(line) == SUPERSEDED;
    assert SUPERSEDED[|SUPERSEDED|..] == "";
  }

  lemma ListLineIsRead(superseded: set<Pr>, rest: string)
    ensures FirstStripped(Lines(SUPERSEDED + " " + NumberList(Ascending(superseded)) + "\n" + rest), SUPERSEDED)
         == Some(if superseded == {} then "" else " " + NumberList(Ascending(superseded)))
  {
    var prs := Ascending(superseded);
    if superseded == {} {
      assert SUPERSEDED + " " + NumberList(prs) == SUPERSEDED + " ";
      EmptyListLineIsRead(rest);
    } else {
      assert prs != [];
      ListIsTight(prs);
      FullListLineIsRead(NumberList(prs), rest);
    }
  }

  lemma FullListLineIsRead(list: string, rest: string)
    requires '\n' !in list && list != "" && IsDigit(list[|list| - 1])
    ensures FirstStripped(Lines(SUPERSEDED + " " + list + "\n" + rest), SUPERSEDED) == Some(" " + list)
  {
    PrefixedLineIsRead(SUPERSEDED, list, rest);
  }

  lemma PrefixedLineIsRead(prefix: string, list: string, rest: string)
    requires prefix != "" && '\n' !in prefix && !IsWhite(prefix[0])
    requires list != "" && '\n' !in list && IsDigit(list[|list| - 1])
    ensures FirstStripped(Lines(prefix + " " + list + "\n" + rest), prefix) == Some(" " + list)
  {
    var line := prefix + " " + list;
    NoNewline(prefix + " ", list);
    AppendAssociates(prefix, " ", list);
    PrefixOf(prefix, " " + list);
    DigitsAreNotWhite([list[|list| - 1]]);
    assert line[0] == prefix[0] && line[|line| - 1] == list[|list| - 1];
    SkipLine(line, rest, prefix);
  }

  lemma PrefixOf(prefix: string, rest: string)
    ensures prefix <= prefix + rest && (prefix + rest)[|prefix|..] == rest
  {
  }

  /** The first line that carries the list is the printed one. */
  lemma BodyShowsTheList(canonical: Pr, head: string, superseded: set<Pr>, actor: string, reason: string)
    requires '\n' !in head
    ensures FirstStripped(Lines(Body(canonical, head, superseded, actor, reason)), SUPERSEDED)
         == Some(if superseded == {} then "" else " " + NumberList(Ascending(superseded)))
  {
    MarkerIsTight(canonical, head);
    CanonicalLineIsTight(canonical, head);
    var l5 := "- **Canonical:** #" + Print(canonical) + " at `" + head + "`";
    TitlePasses();
    MarkerPasses(Marker(canonical, head));
    CanonicalLinePasses(l5);
    HeaderIsSkipped(Marker(canonical, head), TITLE, l5,
                    SUPERSEDED + " " + NumberList(Ascending(superseded)) + "\n" + Trailer(actor, reason));
    ListLineIsRead(superseded, Trailer(actor, reason));
  }

  lemma BodyContainsMarker(canonical: Pr, head: string, superseded: set<Pr>, actor: string, reason: string)
    ensures Contains(Body(canonical, head, superseded, actor, reason), Marker(canonical, head))
  {
    assert HasAt(Body(canonical, head, superseded, actor, reason), Marker(canonical, head), 0);
  }

  lemma {:induction false} LastContainingIs(older: seq<string>, body: string, newer: seq<string>, marker: string)
    requires Contains(body, marker) && forall i :: 0 <= i < |newer| ==> !Contains(newer[i], marker)
    ensures LastContaining(older + [body] + newer, marker) == Some(body)
  {
    var all := older + [body] + newer;
    if newer == [] {
      assert all[|all| - 1] == body;
    } else {
      assert all[..|all| - 1] == older + [body] + newer[..|newer| - 1];
      assert all[|all| - 1] == newer[|newer| - 1];
      LastContainingIs(older, body, newer[..|newer| - 1], marker);
    }
  }

  /**
   Reading the newest declaration for a canonical pull request at its head gives
   the declared set without zero and the canonical itself, whatever was posted
   before, whatever else is posted after, and whatever actor and reason say.
   */
  lemma DeclarationRoundTrip(canonical: Pr, head: string, superseded: set<Pr>, actor: string, reason: string,
                             older: seq<string>, newer: seq<string>)
    requires '\n' !in head && forall p :: p in superseded ==> p <= U64_MAX
    requires forall i :: 0 <= i < |newer| ==> !Contains(newer[i], Marker(canonical, head))
    ensures
      var declared := superseded - {0, canonical};
      DeclaredSupersessions(canonical, head, older + [Body(canonical, head, superseded, actor, reason)] + newer)
        == if declared == {} then None else Some(declared)
  {
    var body := Body(canonical, head, superseded, actor, reason);
    BodyContainsMarker(canonical, head, superseded, actor, reason);
    LastContainingIs(older, body, newer, Marker(canonical, head));
    BodyShowsTheList(canonical, head, superseded, actor, reason);
    ShownListIsReadBack(superseded);
  }

  /**
   Attaching: the newest declaration at the current head of the canonical pull request
   decides what it supersedes. If it declares nobody else, the historical receipt does.
   */
  lemma AttachingRecoversTheDeclaration(facts: seq<Fact>, canonical: Pr, superseded: set<Pr>, actor: string, reason: string,
                                        older: seq<string>, newer: seq<string>)
    requires IndexOfPr(facts, canonical) < |facts| && forall p :: p in superseded ==> p <= U64_MAX
    requires '\n' !in facts[IndexOfPr(facts, canonical)].providerHead
    requires
      var head := facts[IndexOfPr(facts, canonical)].providerHead;
      forall i :: 0 <= i < |newer| ==> !Contains(newer[i], Marker(canonical, head))
    ensures
      var head := facts[IndexOfPr(facts, canonical)].providerHead;
      var bodies := older + [Body(canonical, head, superseded, actor, reason)] + newer;
      var declared := superseded - {0, canonical};
      Supersedes(facts, canonical, bodies) == if declared == {} then LegacySupersessions(canonical, bodies) else Some(declared)
  {
    DeclarationRoundTrip(canonical, facts[IndexOfPr(facts, canonical)].providerHead, superseded, actor, reason, older, newer);
  }

  lemma ShownListIsReadBack(superseded: set<Pr>)
    requires forall p :: p in superseded ==> p <= U64_MAX
    ensures Numbers(SplitBy(if superseded == {} then "" else " " + NumberList(Ascending(superseded)), NotDigit())) == superseded
  {
    var prs := Ascending(superseded);
    forall i | 0 <= i < |prs|
      ensures prs[i] <= U64_MAX
    {
      assert prs[i] in prs;
    }
    NumbersOfList(prs);
    assert Members(prs) == superseded;
    if superseded == {} {
      assert SplitBy([], NotDigit()) == [[]] && Numbers([[]]) == {};
    } else {
      NumbersAfterSpace(NumberList(prs));
    }
  }

  lemma NumbersAfterSpace(s: string)
    ensures Numbers(SplitBy(" " + s, NotDigit())) == Numbers(SplitBy(s, NotDigit()))
  {
    assert " " + s == [] + [' '] + s;
    SplitByAppend([], ' ', s, NotDigit());
    NumbersAppend(SplitBy([], NotDigit()), SplitBy(s, NotDigit()));
    assert SplitBy([], NotDigit()) == [[]];
  }
}
