/** The string operations the parsers rely on: lines, trimming, splitting and decimal numbers. */
module Text {
  import opened Common

  /** The Unicode White_Space property. */
  predicate IsWhite(c: char) {
    var n := c as int;
    || 0x09 <= n <= 0x0d || n == 0x20 || n == 0x85 || n == 0xa0 || n == 0x1680
    || 0x2000 <= n <= 0x200a || n == 0x2028 || n == 0x2029 || n == 0x202f || n == 0x205f || n == 0x3000
  }

  predicate IsAsciiWhite(c: char) {
    c == ' ' || c == '\t' || c == '\n' || c == '\r' || c as int == 0x0c
  }

  predicate IsDigit(c: char) {
    '0' <= c <= '9'
  }

  /** Bytes of a string in UTF-8. */
  function Utf8Length(s: string): nat {
    if s == [] then 0 else
      var n := s[0] as int;
      Utf8Length(s[1..]) + if n < 0x80 then 1 else if n < 0x800 then 2 else if n < 0x1_0000 then 3 else 4
  }

  function TrimStart(s: string): (r: string)
    ensures r == [] || !IsWhite(r[0])
  {
    if s != [] && IsWhite(s[0]) then TrimStart(s[1..]) else s
  }

  function TrimEnd(s: string): (r: string)
    ensures r <= s
    ensures r == [] || !IsWhite(r[|r| - 1])
  {
    if s != [] && IsWhite(s[|s| - 1]) then TrimEnd(s[..|s| - 1]) else s
  }

  function Trim(s: string): string {
    TrimEnd(TrimStart(s))
  }

  function StripPrefix(s: string, prefix: string): Option<string> {
    if prefix <= s then Some(s[|prefix|..]) else None
  }

  predicate HasAt(s: string, sub: string, i: nat) {
    i + |sub| <= |s| && s[i..i + |sub|] == sub
  }

  predicate Contains(s: string, sub: string) {
    exists i :: 0 <= i <= |s| && HasAt(s, sub, i)
  }

  /** What follows the first occurrence of `sub`. */
  function AfterFirst(s: string, sub: string): Option<string> {
    if sub <= s then Some(s[|sub|..])
    else if s == [] then None
    else AfterFirst(s[1..], sub)
  }

  /** Index of the first `c`, or the length of the string. */
  function Find(s: string, c: char): (n: nat)
    ensures n <= |s| && c !in s[..n] && (n < |s| ==> s[n] == c)
  {
    if s == [] || s[0] == c then 0 else
      var n := Find(s[1..], c);
      assert s[..n + 1] == [s[0]] + s[1..][..n];
      n + 1
  }

  lemma {:induction false} FindAt(a: string, c: char, b: string)
    requires c !in a
    ensures Find(a + [c] + b, c) == |a|
  {
    if a != [] {
      assert (a + [c] + b)[1..] == a[1..] + [c] + b;
      FindAt(a[1..], c, b);
    }
  }

  function SplitOnce(s: string, c: char): Option<(string, string)> {
    var n := Find(s, c);
    if n == |s| then None else Some((s[..n], s[n + 1..]))
  }

  function StripReturn(s: string): string {
    if s != [] && s[|s| - 1] == '\r' then s[..|s| - 1] else s
  }

  /** Lines end in a newline or a carriage return and a newline; a final empty line is dropped. */
  function Lines(s: string): seq<string>
    decreases |s|
  {
    if s == [] then [] else
      var n := Find(s, '\n');
      if n == |s| then [s] else [StripReturn(s[..n])] + Lines(s[n + 1..])
  }

  lemma LinesCons(l: string, rest: string)
    requires '\n' !in l
    ensures Lines(l + "\n" + rest) == [StripReturn(l)] + Lines(rest)
  {
    var s := l + "\n" + rest;
    FindAt(l, '\n', rest);
    assert s == l + ['\n'] + rest;
    assert s[..|l|] == l && s[|l| + 1..] == rest;
  }

  function JoinLines(lines: seq<string>): string {
    if lines == [] then "" else lines[0] + "\n" + JoinLines(lines[1..])
  }

  lemma {:induction false} LinesOfJoin(lines: seq<string>)
    requires forall i :: 0 <= i < |lines| ==> '\n' !in lines[i] && '\r' !in lines[i]
    ensures Lines(JoinLines(lines)) == lines
  {
    if lines != [] {
      LinesCons(lines[0], JoinLines(lines[1..]));
      LinesOfJoin(lines[1..]);
      assert StripReturn(lines[0]) == lines[0];
    }
  }

  /** The pieces between separators, empty ones included. */
  function SplitBy(s: string, separator: char -> bool): (r: seq<string>)
    ensures r != []
  {
    if s == [] then [[]]
    else
      AddChar(s[0], separator(s[0]), SplitBy(s[1..], separator))
  }

  /** The pieces of a string that has one more character in front. */
  function AddChar(c: char, separates: bool, rest: seq<string>): (r: seq<string>)
    requires rest != []
    ensures r != []
  {
    if separates then [[]] + rest else [[c] + rest[0]] + rest[1..]
  }

  lemma AddCharAppend(c: char, separates: bool, some: seq<string>, more: seq<string>)
    requires some != []
    ensures AddChar(c, separates, some + more) == AddChar(c, separates, some) + more
  {
  }

  lemma {:induction false} SplitByAppend(a: string, c: char, b: string, separator: char -> bool)
    requires separator(c)
    ensures SplitBy(a + [c] + b, separator) == SplitBy(a, separator) + SplitBy(b, separator)
  {
    var s := a + [c] + b;
    if a == [] {
      assert s[1..] == b && s[0] == c;
    } else {
      SplitByAppend(a[1..], c, b, separator);
      assert s[1..] == a[1..] + [c] + b && s[0] == a[0];
      AddCharAppend(a[0], separator(a[0]), SplitBy(a[1..], separator), SplitBy(b, separator));
    }
  }

  lemma {:induction false} SplitByNone(a: string, separator: char -> bool)
    requires forall i :: 0 <= i < |a| ==> !separator(a[i])
    ensures SplitBy(a, separator) == [a]
  {
    if a != [] {
      SplitByNone(a[1..], separator);
      assert a == [a[0]] + a[1..];
    }
  }

  function NonEmpty(pieces: seq<string>): seq<string> {
    if pieces == [] then [] else (if pieces[0] == "" then [] else [pieces[0]]) + NonEmpty(pieces[1..])
  }

  lemma {:induction false} NonEmptyAppend(a: seq<string>, b: seq<string>)
    ensures NonEmpty(a + b) == NonEmpty(a) + NonEmpty(b)
  {
    if a == [] {
      assert a + b == b;
    } else {
      assert (a + b)[1..] == a[1..] + b;
      NonEmptyAppend(a[1..], b);
    }
  }

  function Words(s: string): seq<string> {
    NonEmpty(SplitBy(s, IsAsciiWhite))
  }

  function Join(words: seq<string>, separator: char): string {
    if words == [] then "" else if |words| == 1 then words[0]
    else words[0] + [separator] + Join(words[1..], separator)
  }

  predicate IsWord(w: string) {
    w != "" && forall i :: 0 <= i < |w| ==> !IsAsciiWhite(w[i])
  }

  lemma {:induction false} WordsOfJoin(words: seq<string>)
    requires forall i :: 0 <= i < |words| ==> IsWord(words[i])
    ensures Words(Join(words, ' ')) == words
  {
    if words == [] {
      assert SplitBy("", IsAsciiWhite) == [""] && [""][1..] == [];
      assert NonEmpty([""]) == [];
    } else if |words| == 1 {
      SplitByNone(words[0], IsAsciiWhite);
      assert NonEmpty([words[0]]) == [words[0]] + NonEmpty([]);
    } else {
      var rest := Join(words[1..], ' ');
      SplitByAppend(words[0], ' ', rest, IsAsciiWhite);
      SplitByNone(words[0], IsAsciiWhite);
      NonEmptyAppend([words[0]], SplitBy(rest, IsAsciiWhite));
      assert Join(words, ' ') == words[0] + [' '] + rest;
      assert Words(Join(words, ' ')) == NonEmpty([words[0]]) + Words(rest);
      WordsOfJoin(words[1..]);
      assert NonEmpty([words[0]]) == [words[0]] by {
        assert [words[0]][1..] == [];
      }
      assert words == [words[0]] + words[1..];
    }
  }

  // ----- numbers -----

  function DigitValue(c: char): (d: nat)
    requires IsDigit(c)
    ensures d < 10
  {
    c as int - '0' as int
  }

  function DigitChar(d: nat): (c: char)
    requires d < 10
    ensures IsDigit(c) && DigitValue(c) == d
  {
    (d + '0' as int) as char
  }

  predicate AllDigits(s: string) {
    forall i :: 0 <= i < |s| ==> IsDigit(s[i])
  }

  function Value(s: string): nat
    requires AllDigits(s)
  {
    if s == [] then 0 else Value(s[..|s| - 1]) * 10 + DigitValue(s[|s| - 1])
  }

  function Print(n: nat): (s: string)
    ensures s != [] && AllDigits(s)
  {
    if n < 10 then [DigitChar(n)] else Print(n / 10) + [DigitChar(n % 10)]
  }

  /** An unsigned 64-bit number, with an optional leading plus sign. */
  function ParseU64(s: string): Option<nat> {
    var digits := if s != [] && s[0] == '+' then s[1..] else s;
    if digits != [] && AllDigits(digits) && Value(digits) <= U64_MAX then Some(Value(digits)) else None
  }

  lemma {:induction false} ValueOfPrint(n: nat)
    ensures Value(Print(n)) == n
  {
    var s := Print(n);
    if n >= 10 {
      ValueOfPrint(n / 10);
      assert s[..|s| - 1] == Print(n / 10);
    } else {
      assert s[..0] == [];
    }
  }

  lemma ParseOfPrint(n: nat)
    requires n <= U64_MAX
    ensures ParseU64(Print(n)) == Some(n)
  {
    ValueOfPrint(n);
    assert IsDigit(Print(n)[0]);
  }

  lemma DigitsAreNotWhite(s: string)
    requires AllDigits(s)
    ensures forall i :: 0 <= i < |s| ==> !IsWhite(s[i]) && !IsAsciiWhite(s[i]) && s[i] != '\n' && s[i] != '\r' && s[i] != '='
  {
  }

  // ----- trimming -----

  lemma TrimOfTight(s: string)
    requires s == [] || (!IsWhite(s[0]) && !IsWhite(s[|s| - 1]))
    ensures Trim(s) == s
  {
  }

  lemma NoNewline(a: string, b: string)
    requires '\n' !in a && '\n' !in b
    ensures '\n' !in a + b
  {
  }

  // ----- searching lines -----

  /** The rest of the first line that starts, once trimmed, with the prefix. */
  function FirstStripped(lines: seq<string>, prefix: string): Option<string> {
    if lines == [] then None else
      match StripPrefix(Trim(lines[0]), prefix)
      case Some(rest) => Some(rest)
      case None => FirstStripped(lines[1..], prefix)
  }

  lemma SkipLine(l: string, rest: string, prefix: string)
    requires '\n' !in l && (l == [] || (!IsWhite(l[0]) && !IsWhite(l[|l| - 1])))
    ensures FirstStripped(Lines(l + "\n" + rest), prefix)
         == if prefix <= l then Some(l[|prefix|..]) else FirstStripped(Lines(rest), prefix)
  {
    LinesCons(l, rest);
    assert StripReturn(l) == l;
    TrimOfTight(l);
    var all := Lines(l + "\n" + rest);
    assert all[0] == l && all[1..] == Lines(rest);
  }

  /** Line k is the first one that starts, once trimmed, with the prefix. */
  ghost predicate IsFirstWith(lines: seq<string>, prefix: string, k: nat) {
    k < |lines| && prefix <= Trim(lines[k]) && forall j :: 0 <= j < k ==> !(prefix <= Trim(lines[j]))
  }

  lemma {:induction false} FirstStrippedIs(lines: seq<string>, prefix: string, rest: string)
    ensures FirstStripped(lines, prefix) == Some(rest) <==>
      exists k: nat :: IsFirstWith(lines, prefix, k) && rest == Trim(lines[k])[|prefix|..]
  {
    if lines != [] {
      var tail := lines[1..];
      FirstStrippedIs(tail, prefix, rest);
      if prefix <= Trim(lines[0]) {
        assert IsFirstWith(lines, prefix, 0);
      } else {
        forall k: nat | k < |tail|
          ensures IsFirstWith(tail, prefix, k) <==> IsFirstWith(lines, prefix, k + 1)
        {
          assert forall j :: 0 <= j <= k ==> tail[j] == lines[j + 1];
          assert forall j :: 1 <= j <= k + 1 ==> lines[j] == tail[j - 1];
        }
        assert !IsFirstWith(lines, prefix, 0);
        assert forall k: nat :: IsFirstWith(lines, prefix, k) ==> k > 0 && IsFirstWith(tail, prefix, k - 1);
      }
    }
  }

  /** The first occurrence of `sub` is at i. */
  ghost predicate IsFirstAt(s: string, sub: string, i: nat) {
    HasAt(s, sub, i) && forall j: nat :: j < i ==> !HasAt(s, sub, j)
  }

  lemma {:induction false} AfterFirstIs(s: string, sub: string, rest: string)
    ensures AfterFirst(s, sub) == Some(rest) <==> exists i: nat :: IsFirstAt(s, sub, i) && rest == s[i + |sub|..]
  {
    assert HasAt(s, sub, 0) <==> sub <= s by {
      if |sub| <= |s| {
        assert s[0..0 + |sub|] == s[..|sub|];
      }
    }
    if sub <= s {
      assert IsFirstAt(s, sub, 0);
    } else if s != [] {
      var tail := s[1..];
      AfterFirstIs(tail, sub, rest);
      forall i: nat
        ensures HasAt(tail, sub, i) <==> HasAt(s, sub, i + 1)
      {
        if i + |sub| <= |tail| {
          assert tail[i..i + |sub|] == s[i + 1..i + 1 + |sub|];
        }
      }
      forall i: nat
        ensures IsFirstAt(tail, sub, i) <==> IsFirstAt(s, sub, i + 1)
      {
        assert forall j: nat :: j < i ==> (HasAt(tail, sub, j) <==> HasAt(s, sub, j + 1));
        assert forall j: nat :: 0 < j < i + 1 ==> (HasAt(s, sub, j) <==> HasAt(tail, sub, j - 1));
      }
      forall i: nat | IsFirstAt(s, sub, i)
        ensures i > 0 && IsFirstAt(tail, sub, i - 1) && s[i + |sub|..] == tail[i - 1 + |sub|..]
      {
        assert i > 0;
        assert IsFirstAt(s, sub, i - 1 + 1);
      }
      forall i: nat | IsFirstAt(tail, sub, i)
        ensures IsFirstAt(s, sub, i + 1) && s[i + 1 + |sub|..] == tail[i + |sub|..]
      {
      }
    }
  }
}
