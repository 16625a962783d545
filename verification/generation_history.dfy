/** What the readers of reviewed links accept (src/generation.rs), in the text of the comments. */
module GenerationHistory {
  import opened Common
  import opened Text
  import opened Generations
  import opened GenerationDeclarations

  // ----- the numbers of a list -----

  /** A run of digits that cannot be made longer. */
  predicate IsDigitRun(text: string, i: nat, j: nat) {
    && i < j <= |text| && AllDigits(text[i..j])
    && (i > 0 ==> !IsDigit(text[i - 1])) && (j < |text| ==> !IsDigit(text[j]))
  }

  /** The number stands in the text, written in at most 64 bits. */
  ghost predicate Mentions(text: string, n: nat) {
    n <= U64_MAX && exists i: nat, j: nat :: IsDigitRun(text, i, j) && Value(text[i..j]) == n
  }

  lemma OneDigitRun(text: string)
    requires text != "" && AllDigits(text)
    ensures forall i: nat, j: nat :: IsDigitRun(text, i, j) <==> i == 0 && j == |text|
  {
    assert text[0..|text|] == text;
    assert forall k :: 0 <= k < |text| ==> IsDigit(text[k]);
  }

  /** Behind a character that is no digit the runs are those of the rest. */
  lemma RunsBehind(a: string, c: char, b: string, i: nat, j: nat)
    requires AllDigits(a) && !IsDigit(c)
    ensures IsDigitRun(a + [c] + b, |a| + 1 + i, |a| + 1 + j) <==> IsDigitRun(b, i, j)
    ensures i < j <= |b| ==> (a + [c] + b)[|a| + 1 + i..|a| + 1 + j] == b[i..j]
  {
    var text := a + [c] + b;
    if i < j <= |b| {
      assert text[|a| + 1 + i..|a| + 1 + j] == b[i..j];
    }
  }

  lemma RunInFront(a: string, c: char, b: string, i: nat, j: nat)
    requires AllDigits(a) && !IsDigit(c) && i <= |a|
    ensures IsDigitRun(a + [c] + b, i, j) <==> i == 0 && j == |a| && a != ""
    ensures (a + [c] + b)[0..|a|] == a
  {
    var text := a + [c] + b;
    assert text[0..|a|] == a && text[|a|] == c;
    assert forall k :: 0 <= k < |a| ==> IsDigit(a[k]) && text[k] == a[k];
    if |a| < j <= |text| {
      assert text[i..j][|a| - i] == c;
    }
  }

  lemma MentionsOfBoth(a: string, c: char, b: string, n: nat)
    requires AllDigits(a) && !IsDigit(c)
    ensures Mentions(a + [c] + b, n) <==> Mentions(a, n) || Mentions(b, n)
  {
    if Mentions(a + [c] + b, n) {
      MentionedInOne(a, c, b, n);
    }
    MentionedInBoth(a, c, b, n);
  }

  lemma MentionedInOne(a: string, c: char, b: string, n: nat)
    requires AllDigits(a) && !IsDigit(c) && Mentions(a + [c] + b, n)
    ensures Mentions(a, n) || Mentions(b, n)
  {
    var text := a + [c] + b;
    var i: nat, j: nat :| IsDigitRun(text, i, j) && Value(text[i..j]) == n;
    if i <= |a| {
      RunInFront(a, c, b, i, j);
      OneDigitRun(a);
      assert IsDigitRun(a, 0, |a|) && a[0..|a|] == a;
    } else {
      RunsBehind(a, c, b, i - |a| - 1, j - |a| - 1);
      assert IsDigitRun(b, i - |a| - 1, j - |a| - 1);
    }
  }

  lemma MentionedInBoth(a: string, c: char, b: string, n: nat)
    requires AllDigits(a) && !IsDigit(c)
    ensures Mentions(a, n) || Mentions(b, n) ==> Mentions(a + [c] + b, n)
  {
    var text := a + [c] + b;
    if Mentions(a, n) {
      var i: nat, j: nat :| IsDigitRun(a, i, j) && Value(a[i..j]) == n;
      OneDigitRun(a);
      RunInFront(a, c, b, 0, |a|);
      assert a[0..|a|] == a;
      assert IsDigitRun(text, 0, |a|);
    }
    if Mentions(b, n) {
      var i: nat, j: nat :| IsDigitRun(b, i, j) && Value(b[i..j]) == n;
      RunsBehind(a, c, b, i, j);
      assert IsDigitRun(text, |a| + 1 + i, |a| + 1 + j);
    }
  }

  function LeadingDigits(text: string): (k: nat)
    ensures k <= |text| && AllDigits(text[..k]) && (k < |text| ==> !IsDigit(text[k]))
  {
    if text == "" || !IsDigit(text[0]) then 0
    else
      var k := LeadingDigits(text[1..]);
      assert text[..k + 1] == [text[0]] + text[1..][..k];
      k + 1
  }

  lemma NumberOfDigits(a: string, n: nat)
    requires AllDigits(a)
    ensures n in Numbers(SplitBy(a, NotDigit())) <==> Mentions(a, n)
  {
    assert forall i :: 0 <= i < |a| ==> IsDigit(a[i]);
    SplitByNone(a, NotDigit());
    assert [a][1..] == [];
    if a != "" {
      OneDigitRun(a);
      assert a[0..|a|] == a;
      assert IsDigit(a[0]) && a[0] != '+';
      assert IsDigitRun(a, 0, |a|);
    }
  }

  /** The numbers of a list are exactly its runs of digits that fit 64 bits. */
  lemma {:induction false} NumbersAreTheDigitRuns(text: string, n: nat)
    ensures n in Numbers(SplitBy(text, NotDigit())) <==> Mentions(text, n)
    decreases |text|
  {
    var k := LeadingDigits(text);
    if k == |text| {
      assert text[..k] == text;
      NumberOfDigits(text, n);
    } else {
      var (a, c, b) := (text[..k], text[k], text[k + 1..]);
      assert text == a + [c] + b;
      SplitByAppend(a, c, b, NotDigit());
      NumbersAppend(SplitBy(a, NotDigit()), SplitBy(b, NotDigit()));
      NumberOfDigits(a, n);
      NumbersAreTheDigitRuns(b, n);
      MentionsOfBoth(a, c, b, n);
    }
  }

  /** The links of a list: the numbers it mentions, without zero and the canonical one; an empty list is none. */
  ghost predicate AreLinks(text: string, canonical: Pr, links: set<Pr>) {
    links != {} && forall n :: n in links <==> Mentions(text, n) && n != 0 && n != canonical
  }

  lemma ListedAreLinks(text: string, canonical: Pr, links: set<Pr>)
    ensures Listed(text, canonical) == Some(links) <==> AreLinks(text, canonical, links)
  {
    forall n
      ensures n in Numbers(SplitBy(text, NotDigit())) <==> Mentions(text, n)
    {
      NumbersAreTheDigitRuns(text, n);
    }
    var values := Numbers(SplitBy(text, NotDigit())) - {0, canonical};
    if AreLinks(text, canonical, links) {
      assert links == values;
    }
  }

  // ----- the two kinds of comments -----

  /** The newest comment with the marker. */
  ghost predicate IsNewestWith(bodies: seq<string>, marker: string, i: nat) {
    i < |bodies| && Contains(bodies[i], marker) && forall j :: i < j < |bodies| ==> !Contains(bodies[j], marker)
  }

  lemma {:induction false} NewestWith(bodies: seq<string>, marker: string, body: string)
    ensures LastContaining(bodies, marker) == Some(body) <==> exists i: nat :: IsNewestWith(bodies, marker, i) && bodies[i] == body
  {
    if bodies != [] {
      var n := |bodies| - 1;
      var fewer := bodies[..n];
      if Contains(bodies[n], marker) {
        assert IsNewestWith(bodies, marker, n);
      } else {
        NewestWith(fewer, marker, body);
        forall i: nat | i < n
          ensures IsNewestWith(bodies, marker, i) <==> IsNewestWith(fewer, marker, i)
        {
          assert forall j :: i <= j < n ==> bodies[j] == fewer[j];
        }
      }
    }
  }

  /** The first line with the prefix lists these links behind it. */
  ghost predicate Lists(lines: seq<string>, prefix: string, canonical: Pr, links: set<Pr>) {
    exists k: nat :: IsFirstWith(lines, prefix, k) && AreLinks(Trim(lines[k])[|prefix|..], canonical, links)
  }

  lemma ListsIs(lines: seq<string>, prefix: string, canonical: Pr, links: set<Pr>)
    ensures Lists(lines, prefix, canonical, links) <==>
      FirstStripped(lines, prefix).Some? && Listed(FirstStripped(lines, prefix).value, canonical) == Some(links)
  {
    var found := FirstStripped(lines, prefix);
    if Lists(lines, prefix, canonical, links) {
      var k: nat :| IsFirstWith(lines, prefix, k) && AreLinks(Trim(lines[k])[|prefix|..], canonical, links);
      FirstStrippedIs(lines, prefix, Trim(lines[k])[|prefix|..]);
      ListedAreLinks(found.value, canonical, links);
    } else if found.Some? {
      FirstStrippedIs(lines, prefix, found.value);
      ListedAreLinks(found.value, canonical, links);
    }
  }

  /** The body lists these links behind its first line of superseded pull requests. */
  ghost predicate Declares(body: string, canonical: Pr, links: set<Pr>) {
    Lists(Lines(body), SUPERSEDED, canonical, links)
  }

  /** A declaration gives links exactly when the newest one for this number and head lists them. */
  lemma DeclarationIsRead(canonical: Pr, head: string, bodies: seq<string>, links: set<Pr>)
    ensures DeclaredSupersessions(canonical, head, bodies) == Some(links) <==>
      exists i: nat :: IsNewestWith(bodies, Marker(canonical, head), i) && Declares(bodies[i], canonical, links)
  {
    forall body
      ensures LastContaining(bodies, Marker(canonical, head)) == Some(body) <==>
        exists i: nat :: IsNewestWith(bodies, Marker(canonical, head), i) && bodies[i] == body
    {
      NewestWith(bodies, Marker(canonical, head), body);
    }
    var found := LastContaining(bodies, Marker(canonical, head));
    if found.Some? {
      ListsIs(Lines(found.value), SUPERSEDED, canonical, links);
    }
    forall i: nat | IsNewestWith(bodies, Marker(canonical, head), i)
      ensures found == Some(bodies[i])
    {
    }
  }

  const AUDIT := "<!-- caravan-control-label-audit:v2:priority_"
  const ACTOR := "- **Actor/source:** caravan-dogfood-controller"
  const REASON := "- **Reason:**"
  const SUPERSEDING := "superseding PRs "

  /** The body is the controller's receipt for this number, and its first reason names these links after the first phrase. */
  ghost predicate Reports(body: string, canonical: Pr, links: set<Pr>) {
    && Contains(body, "<!-- caravan-control-label-audit:v2:priority_set:" + Print(canonical) + ":")
    && Contains(body, ACTOR)
    && exists k: nat :: IsFirstWith(Lines(body), REASON, k) && ReasonGives(Trim(Trim(Lines(body)[k])[|REASON|..]), canonical, links)
  }

  ghost predicate ReasonGives(reason: string, canonical: Pr, links: set<Pr>) {
    exists at: nat :: IsFirstAt(reason, SUPERSEDING, at) && AreLinks(reason[at + |SUPERSEDING|..], canonical, links)
  }

  lemma ReasonIs(reason: string, canonical: Pr, links: set<Pr>)
    ensures ReasonGives(reason, canonical, links) <==>
      AfterFirst(reason, SUPERSEDING).Some? && Listed(AfterFirst(reason, SUPERSEDING).value, canonical) == Some(links)
  {
    var found := AfterFirst(reason, SUPERSEDING);
    forall rest
      ensures found == Some(rest) <==>
        exists i: nat :: IsFirstAt(reason, SUPERSEDING, i) && rest == reason[i + |SUPERSEDING|..]
    {
      AfterFirstIs(reason, SUPERSEDING, rest);
    }
    if found.Some? {
      ListedAreLinks(found.value, canonical, links);
    }
    forall i: nat | IsFirstAt(reason, SUPERSEDING, i)
      ensures found == Some(reason[i + |SUPERSEDING|..])
    {
    }
  }

  lemma FirstReasonIs(body: string, canonical: Pr, links: set<Pr>)
    ensures
      (exists k: nat :: IsFirstWith(Lines(body), REASON, k) && ReasonGives(Trim(Trim(Lines(body)[k])[|REASON|..]), canonical, links)) <==>
      FirstStripped(Lines(body), REASON).Some? && ReasonGives(Trim(FirstStripped(Lines(body), REASON).value), canonical, links)
  {
    var found := FirstStripped(Lines(body), REASON);
    forall rest
      ensures found == Some(rest) <==>
        exists k: nat :: IsFirstWith(Lines(body), REASON, k) && rest == Trim(Lines(body)[k])[|REASON|..]
    {
      FirstStrippedIs(Lines(body), REASON, rest);
    }
    forall k: nat | IsFirstWith(Lines(body), REASON, k)
      ensures found == Some(Trim(Lines(body)[k])[|REASON|..])
    {
    }
  }

  /**
   The historical receipt gives links exactly when the newest audit comment is the
   controller's own for this very number and its reason names them. So another actor,
   another number or a newer audit comment of another kind gives none.
   */
  lemma HistoricalReceiptIsRead(canonical: Pr, bodies: seq<string>, links: set<Pr>)
    ensures LegacySupersessions(canonical, bodies) == Some(links) <==>
      exists i: nat :: IsNewestWith(bodies, AUDIT, i) && Reports(bodies[i], canonical, links)
  {
    forall body
      ensures LastContaining(bodies, AUDIT) == Some(body) <==> exists i: nat :: IsNewestWith(bodies, AUDIT, i) && bodies[i] == body
    {
      NewestWith(bodies, AUDIT, body);
    }
    var found := LastContaining(bodies, AUDIT);
    forall i: nat | IsNewestWith(bodies, AUDIT, i)
      ensures found == Some(bodies[i])
    {
    }
    if found.Some? {
      FirstReasonIs(found.value, canonical, links);
      var reason := FirstStripped(Lines(found.value), REASON);
      if reason.Some? {
        ReasonIs(Trim(reason.value), canonical, links);
      }
    }
  }
}
