/** Strict parsing of admission-gate receipts in job logs (src/ci.rs). */
module Receipts {
  import opened Common
  import opened Ordering
  import opened Text

  datatype Reason = Unjoined | MembershipChanged | Draft | RunUnproven | UnknownMembership

  datatype Receipt = Receipt(pr: Pr, head: string, base: string, reason: Reason)

  const EXIT := "##[error]Process completed with exit code 78."
  const DEFERRED := "cara-deferred-admission "
  const UNEVALUATED := "cara-admission-unevaluated "
  const SENTINEL := "Caravan admission deferred until exact PR membership (decision=deferred_unjoined)"

  function ParseReason(s: string): Option<Reason> {
    if s == "membership_changed" then Some(MembershipChanged)
    else if s == "draft" then Some(Draft)
    else if s == "run_unproven" then Some(RunUnproven)
    else if s == "unknown_membership" then Some(UnknownMembership)
    else None
  }

  predicate IsHex(c: char) {
    IsDigit(c) || 'a' <= c <= 'f' || 'A' <= c <= 'F'
  }

  predicate IsOid(s: string) {
    40 <= |s| <= 64 && forall i :: 0 <= i < |s| ==> IsHex(s[i])
  }

  function LowerChar(c: char): char {
    if 'A' <= c <= 'Z' then (c as int + 32) as char else c
  }

  function Lower(s: string): string {
    seq(|s|, i requires 0 <= i < |s| => LowerChar(s[i]))
  }

  function ParseOid(s: string): Option<string> {
    if IsOid(s) then Some(Lower(s)) else None
  }

  /** A log line without its time stamp and surrounding white space. */
  function Clean(line: string): string {
    match SplitOnce(line, ' ')
    case Some((stamp, body)) => Trim(if stamp != "" && stamp[|stamp| - 1] == 'Z' then body else line)
    case None => Trim(line)
  }

  function CleanAll(lines: seq<string>): (r: seq<string>)
    ensures |r| == |lines| && forall i :: 0 <= i < |r| ==> r[i] == Clean(lines[i])
  {
    seq(|lines|, i requires 0 <= i < |lines| => Clean(lines[i]))
  }

  /** What follows the prefix on each line that has it. */
  function Stripped(lines: seq<string>, prefix: string): seq<string> {
    if lines == [] then [] else
      (match StripPrefix(lines[0], prefix) case Some(rest) => [rest] case None => []) + Stripped(lines[1..], prefix)
  }

  function Fields(words: seq<string>): seq<(string, string)> {
    if words == [] then [] else
      (match SplitOnce(words[0], '=') case Some(field) => [field] case None => []) + Fields(words[1..])
  }

  function Lookup(fields: seq<(string, string)>, key: string): Option<string> {
    if fields == [] then None
    else if fields[0].0 == key then Some(fields[0].1)
    else Lookup(fields[1..], key)
  }

  function LookupReason(fields: seq<(string, string)>, unevaluated: bool): Option<Reason> {
    if unevaluated then
      match Lookup(fields, "reason") case Some(r) => ParseReason(r) case None => None
    else if Lookup(fields, "decision") == Some("deferred_unjoined") then Some(Unjoined)
    else None
  }

  function LookupNumber(fields: seq<(string, string)>, key: string): Option<nat> {
    match Lookup(fields, key) case Some(s) => ParseU64(s) case None => None
  }

  function LookupOid(fields: seq<(string, string)>, key: string): Option<string> {
    match Lookup(fields, key) case Some(s) => ParseOid(s) case None => None
  }

  function MakeReceipt(pr: Option<nat>, head: Option<string>, base: Option<string>, reason: Option<Reason>): Option<Receipt> {
    if pr.Some? && head.Some? && base.Some? && reason.Some?
    then Some(Receipt(pr.value, head.value, base.value, reason.value)) else None
  }

  function ParseCompact(receipt: string, unevaluated: bool): Option<Receipt> {
    var fields := Fields(Words(receipt));
    if |fields| != 5 || Lookup(fields, "exit") != Some("78") then None
    else MakeReceipt(LookupNumber(fields, "pr"), LookupOid(fields, "head"), LookupOid(fields, "base"),
                     LookupReason(fields, unevaluated))
  }

  /** The one value of an environment row; rows that disagree have none. */
  function RowValue(lines: seq<string>, key: string): Option<string> {
    var values := Stripped(lines, key);
    if values != [] && forall i :: 0 <= i < |values| ==> values[i] == values[0] then Some(values[0]) else None
  }

  function RowNumber(lines: seq<string>, key: string): Option<nat> {
    match RowValue(lines, key) case Some(s) => ParseU64(s) case None => None
  }

  function RowOid(lines: seq<string>, key: string): Option<string> {
    match RowValue(lines, key) case Some(s) => ParseOid(s) case None => None
  }

  function ParseSentinel(lines: seq<string>): Option<Receipt> {
    if SENTINEL !in lines
      || RowValue(lines, "ADMISSION_DECISION: ") != Some("deferred_unjoined")
      || RowValue(lines, "DEFERRED_UNJOINED: ") != Some("true")
      || RowValue(lines, "RUN_CI: ") != Some("false")
      || RowValue(lines, "ADMISSION_RESULT: ") != Some("success")
      || RowValue(lines, "CACO_CI_EVENT_NAME: ") != Some("pull_request")
    then None
    else
      MakeReceipt(RowNumber(lines, "CACO_CI_PR_NUMBER: "), RowOid(lines, "CACO_CI_EXPECTED_HEAD: "),
                  RowOid(lines, "CACO_CI_EXPECTED_BASE: "), Some(Unjoined))
  }

  function ParseLines(lines: seq<string>): Option<Receipt> {
    var deferred := Stripped(lines, DEFERRED);
    var unevaluated := Stripped(lines, UNEVALUATED);
    if EXIT !in lines then None
    else if deferred == [] && unevaluated == [] then ParseSentinel(lines)
    else if |deferred| == 1 && unevaluated == [] then ParseCompact(deferred[0], false)
    else if deferred == [] && |unevaluated| == 1 then ParseCompact(unevaluated[0], true)
    else None
  }

  function ParseReceipt(output: string): Option<Receipt> {
    ParseLines(CleanAll(Lines(output)))
  }

  /** A line loses the word before its first space if that is a stamp, which ends in Z; then it is trimmed. */
  lemma StampsAreCut(first: string, rest: string)
    requires ' ' !in first
    ensures Clean(first + [' '] + rest) == if first != "" && first[|first| - 1] == 'Z' then Trim(rest) else Trim(first + [' '] + rest)
    ensures Clean(first) == Trim(first)
  {
    FindAt(first, ' ', rest);
    var line := first + [' '] + rest;
    assert line[..|first|] == first && line[|first| + 1..] == rest;
    assert forall i :: 0 <= i < |first| ==> first[i] in first;
  }

  // ----- nothing ambiguous is accepted -----

  ghost function Keys(fields: seq<(string, string)>): seq<string> {
    seq(|fields|, i requires 0 <= i < |fields| => fields[i].0)
  }

  ghost function SetOf(s: seq<string>): set<string> {
    set x | x in s
  }

  lemma {:induction false} SetOfIsSmall(s: seq<string>)
    ensures |SetOf(s)| <= |s|
  {
    if s != [] {
      SetOfIsSmall(s[1..]);
      assert s == [s[0]] + s[1..];
      assert SetOf(s) == {s[0]} + SetOf(s[1..]);
    }
  }

  /** As many places as required keys, and every key somewhere: each key has one place. */
  lemma {:induction false} Pigeonhole(keys: seq<string>, required: set<string>)
    requires |keys| == |required| && required <= SetOf(keys)
    ensures SetOf(keys) == required
    ensures forall i, j :: 0 <= i < j < |keys| ==> keys[i] != keys[j]
  {
    SetOfIsSmall(keys);
    SubsetIsSmaller(required, SetOf(keys));
    if keys != [] {
      var rest := keys[1..];
      assert keys == [keys[0]] + rest;
      SetOfIsSmall(rest);
      assert keys[0] in rest ==> SetOf(keys) == SetOf(rest);
      assert keys[0] !in rest;
      assert required - {keys[0]} == SetOf(rest);
      Pigeonhole(rest, required - {keys[0]});
      forall i, j | 0 <= i < j < |keys|
        ensures keys[i] != keys[j]
      {
        assert keys[j] == rest[j - 1] && keys[j] in rest;
        if i > 0 {
          assert keys[i] == rest[i - 1];
        }
      }
    }
  }

  lemma {:induction false} LookupFinds(fields: seq<(string, string)>, key: string)
    requires Lookup(fields, key).Some?
    ensures key in Keys(fields)
    ensures exists i :: 0 <= i < |fields| && fields[i] == (key, Lookup(fields, key).value)
  {
    if fields[0].0 != key {
      LookupFinds(fields[1..], key);
      var i :| 0 <= i < |fields[1..]| && fields[1..][i] == (key, Lookup(fields[1..], key).value);
      assert fields[i + 1] == (key, Lookup(fields, key).value);
      assert Keys(fields)[i + 1] == key;
    } else {
      assert Keys(fields)[0] == key;
      assert fields[0] == (key, Lookup(fields, key).value);
    }
  }

  function RequiredKeys(unevaluated: bool): set<string> {
    {"pr", "head", "base", "exit", if unevaluated then "reason" else "decision"}
  }

  lemma RequiredKeysAreFive(unevaluated: bool)
    ensures |RequiredKeys(unevaluated)| == 5
  {
    var last := if unevaluated then "reason" else "decision";
    assert |"pr"| == 2 && |"head"| == 4 && |"base"| == 4 && |"exit"| == 4 && |last| >= 6;
    assert "head"[0] == 'h' && "base"[0] == 'b' && "exit"[0] == 'e';
    assert |{"pr", "head"}| == 2 && |{"pr", "head", "base"}| == 3 && |{"pr", "head", "base", "exit"}| == 4;
  }

  /** The five fields of a receipt are there once each, and nothing else is. */
  ghost predicate ExactFields(fields: seq<(string, string)>, unevaluated: bool, r: Receipt) {
    && |fields| == 5
    && SetOf(Keys(fields)) == RequiredKeys(unevaluated)
    && (forall i, j :: 0 <= i < j < |fields| ==> fields[i].0 != fields[j].0)
    && (exists i :: 0 <= i < 5 && fields[i].0 == "pr" && ParseU64(fields[i].1) == Some(r.pr))
    && (exists i :: 0 <= i < 5 && fields[i].0 == "head" && ParseOid(fields[i].1) == Some(r.head))
    && (exists i :: 0 <= i < 5 && fields[i].0 == "base" && ParseOid(fields[i].1) == Some(r.base))
    && (exists i :: 0 <= i < 5 && fields[i] == ("exit", "78"))
    && (exists i :: 0 <= i < 5 &&
          if unevaluated then fields[i].0 == "reason" && ParseReason(fields[i].1) == Some(r.reason)
          else fields[i] == ("decision", "deferred_unjoined") && r.reason.Unjoined?)
  }

  /** A compact receipt is accepted exactly when it has the five fields, and then with their values. */
  lemma CompactIsExact(receipt: string, unevaluated: bool, r: Receipt)
    ensures ParseCompact(receipt, unevaluated) == Some(r) <==> ExactFields(Fields(Words(receipt)), unevaluated, r)
  {
    var fields := Fields(Words(receipt));
    if AllFound(fields, unevaluated, r) {
      FoundFieldsAreExact(fields, unevaluated, r);
    }
    if ExactFields(fields, unevaluated, r) {
      ExactFieldsAreFound(fields, unevaluated, r);
    }
  }

  /** There are five fields, and the look-up of each key gives the value of the receipt. */
  predicate AllFound(fields: seq<(string, string)>, unevaluated: bool, r: Receipt) {
    && |fields| == 5
    && LookupNumber(fields, "pr") == Some(r.pr) && LookupOid(fields, "head") == Some(r.head) && LookupOid(fields, "base") == Some(r.base)
    && Lookup(fields, "exit") == Some("78") && LookupReason(fields, unevaluated) == Some(r.reason)
  }

  lemma FoundFieldsAreExact(fields: seq<(string, string)>, unevaluated: bool, r: Receipt)
    requires AllFound(fields, unevaluated, r)
    ensures ExactFields(fields, unevaluated, r)
  {
    FieldIsFound(fields, "pr");
    FieldIsFound(fields, "head");
    FieldIsFound(fields, "base");
    FieldIsFound(fields, "exit");
    FieldIsFound(fields, if unevaluated then "reason" else "decision");
    FiveKeysOnceEach(fields, unevaluated);
  }

  /** With distinct keys a look-up finds the one field with the key. */
  lemma {:induction false} TheOneField(fields: seq<(string, string)>, i: nat)
    requires i < |fields| && forall j, k :: 0 <= j < k < |fields| ==> fields[j].0 != fields[k].0
    ensures Lookup(fields, fields[i].0) == Some(fields[i].1)
  {
    if i > 0 {
      assert fields[0].0 != fields[i].0;
      var rest := fields[1..];
      assert forall j :: 0 <= j < |rest| ==> rest[j] == fields[j + 1];
      TheOneField(rest, i - 1);
    }
  }

  lemma ExactFieldsAreFound(fields: seq<(string, string)>, unevaluated: bool, r: Receipt)
    requires ExactFields(fields, unevaluated, r)
    ensures AllFound(fields, unevaluated, r)
  {
    forall i: nat | i < 5
      ensures Lookup(fields, fields[i].0) == Some(fields[i].1)
    {
      TheOneField(fields, i);
    }
  }

  ghost predicate HasField(fields: seq<(string, string)>, key: string, value: string) {
    exists i :: 0 <= i < |fields| && fields[i] == (key, value)
  }

  lemma FieldIsFound(fields: seq<(string, string)>, key: string)
    requires Lookup(fields, key).Some?
    ensures key in SetOf(Keys(fields)) && HasField(fields, key, Lookup(fields, key).value)
  {
    LookupFinds(fields, key);
  }

  lemma FiveKeysOnceEach(fields: seq<(string, string)>, unevaluated: bool)
    requires |fields| == 5 && RequiredKeys(unevaluated) <= SetOf(Keys(fields))
    ensures SetOf(Keys(fields)) == RequiredKeys(unevaluated)
    ensures forall i, j :: 0 <= i < j < |fields| ==> fields[i].0 != fields[j].0
  {
    RequiredKeysAreFive(unevaluated);
    Pigeonhole(Keys(fields), RequiredKeys(unevaluated));
    forall i, j | 0 <= i < j < |fields|
      ensures fields[i].0 != fields[j].0
    {
      assert Keys(fields)[i] != Keys(fields)[j];
    }
  }

  /** The log has this row, and no other row with its key. */
  ghost predicate Says(lines: seq<string>, key: string, value: string) {
    key + value in lines && forall i :: 0 <= i < |lines| && key <= lines[i] ==> lines[i] == key + value
  }

  lemma {:induction false} StrippedAreTheRows(lines: seq<string>, key: string, value: string)
    ensures value in Stripped(lines, key) <==> key + value in lines
  {
    if lines != [] {
      StrippedAreTheRows(lines[1..], key, value);
      assert lines == [lines[0]] + lines[1..];
      if key <= lines[0] {
        assert lines[0] == key + lines[0][|key|..];
        assert (key + value)[|key|..] == value;
      }
    }
  }

  lemma RowValueIsExact(lines: seq<string>, key: string, value: string)
    ensures RowValue(lines, key) == Some(value) <==> Says(lines, key, value)
  {
    var values := Stripped(lines, key);
    StrippedAreTheRows(lines, key, value);
    if RowValue(lines, key) == Some(value) {
      forall i | 0 <= i < |lines| && key <= lines[i]
        ensures lines[i] == key + value
      {
        var other := lines[i][|key|..];
        assert lines[i] == key + other && lines[i] in lines;
        StrippedAreTheRows(lines, key, other);
      }
    }
    if Says(lines, key, value) {
      forall i | 0 <= i < |values|
        ensures values[i] == value
      {
        StrippedAreTheRows(lines, key, values[i]);
        var k :| 0 <= k < |lines| && lines[k] == key + values[i];
        assert (key + values[i])[|key|..] == values[i] && (key + value)[|key|..] == value;
      }
    }
  }

  /** The older form: the sentinel line, and one value for each of its eight rows. */
  ghost predicate ExactSentinel(lines: seq<string>, r: Receipt) {
    && SENTINEL in lines && r.reason.Unjoined?
    && Says(lines, "ADMISSION_DECISION: ", "deferred_unjoined") && Says(lines, "DEFERRED_UNJOINED: ", "true")
    && Says(lines, "RUN_CI: ", "false") && Says(lines, "ADMISSION_RESULT: ", "success")
    && Says(lines, "CACO_CI_EVENT_NAME: ", "pull_request")
    && (exists s :: Says(lines, "CACO_CI_PR_NUMBER: ", s) && ParseU64(s) == Some(r.pr))
    && (exists s :: Says(lines, "CACO_CI_EXPECTED_HEAD: ", s) && ParseOid(s) == Some(r.head))
    && (exists s :: Says(lines, "CACO_CI_EXPECTED_BASE: ", s) && ParseOid(s) == Some(r.base))
  }

  /** The older form is accepted exactly when it is there; rows may repeat their value. */
  lemma SentinelIsExact(lines: seq<string>, r: Receipt)
    ensures ParseSentinel(lines) == Some(r) <==> ExactSentinel(lines, r)
  {
    FixedRows(lines);
    NumberRow(lines, "CACO_CI_PR_NUMBER: ", r.pr);
    OidRow(lines, "CACO_CI_EXPECTED_HEAD: ", r.head);
    OidRow(lines, "CACO_CI_EXPECTED_BASE: ", r.base);
  }

  lemma NumberRow(lines: seq<string>, key: string, n: nat)
    ensures RowNumber(lines, key) == Some(n) <==> exists s :: Says(lines, key, s) && ParseU64(s) == Some(n)
  {
    forall s
      ensures RowValue(lines, key) == Some(s) <==> Says(lines, key, s)
    {
      RowValueIsExact(lines, key, s);
    }
  }

  lemma OidRow(lines: seq<string>, key: string, oid: string)
    ensures RowOid(lines, key) == Some(oid) <==> exists s :: Says(lines, key, s) && ParseOid(s) == Some(oid)
  {
    forall s
      ensures RowValue(lines, key) == Some(s) <==> Says(lines, key, s)
    {
      RowValueIsExact(lines, key, s);
    }
  }

  lemma FixedRows(lines: seq<string>)
    ensures RowValue(lines, "ADMISSION_DECISION: ") == Some("deferred_unjoined") <==> Says(lines, "ADMISSION_DECISION: ", "deferred_unjoined")
    ensures RowValue(lines, "DEFERRED_UNJOINED: ") == Some("true") <==> Says(lines, "DEFERRED_UNJOINED: ", "true")
    ensures RowValue(lines, "RUN_CI: ") == Some("false") <==> Says(lines, "RUN_CI: ", "false")
    ensures RowValue(lines, "ADMISSION_RESULT: ") == Some("success") <==> Says(lines, "ADMISSION_RESULT: ", "success")
    ensures RowValue(lines, "CACO_CI_EVENT_NAME: ") == Some("pull_request") <==> Says(lines, "CACO_CI_EVENT_NAME: ", "pull_request")
  {
    RowValueIsExact(lines, "ADMISSION_DECISION: ", "deferred_unjoined");
    RowValueIsExact(lines, "DEFERRED_UNJOINED: ", "true");
    RowValueIsExact(lines, "RUN_CI: ", "false");
    RowValueIsExact(lines, "ADMISSION_RESULT: ", "success");
    RowValueIsExact(lines, "CACO_CI_EVENT_NAME: ", "pull_request");
  }

  /** Exactly one line has the prefix. */
  ghost predicate IsOnly(lines: seq<string>, prefix: string, i: int) {
    && 0 <= i < |lines| && prefix <= lines[i]
    && forall j :: 0 <= j < |lines| && j != i ==> !(prefix <= lines[j])
  }

  /** ... and the text follows it there. */
  ghost predicate IsOnlyText(lines: seq<string>, prefix: string, text: string) {
    exists i :: IsOnly(lines, prefix, i) && lines[i] == prefix + text
  }

  ghost predicate HasNone(lines: seq<string>, prefix: string) {
    forall j :: 0 <= j < |lines| ==> !(prefix <= lines[j])
  }

  lemma {:induction false} StrippedIsNone(lines: seq<string>, prefix: string)
    ensures Stripped(lines, prefix) == [] <==> HasNone(lines, prefix)
  {
    if lines != [] {
      StrippedIsNone(lines[1..], prefix);
      assert HasNone(lines, prefix) <==> !(prefix <= lines[0]) && HasNone(lines[1..], prefix) by {
        assert lines == [lines[0]] + lines[1..];
      }
    }
  }

  lemma FirstIsOnly(lines: seq<string>, prefix: string)
    requires lines != [] && prefix <= lines[0]
    ensures IsOnly(lines, prefix, 0) <==> HasNone(lines[1..], prefix)
    ensures forall i :: IsOnly(lines, prefix, i) ==> i == 0
  {
    var tail := lines[1..];
    assert forall j :: 0 < j < |lines| ==> lines[j] == tail[j - 1];
    assert forall j :: 0 <= j < |tail| ==> tail[j] == lines[j + 1];
  }

  lemma {:induction false} StrippedIsOne(lines: seq<string>, prefix: string, rest: string)
    ensures Stripped(lines, prefix) == [rest] <==> IsOnlyText(lines, prefix, rest)
  {
    if lines != [] {
      var tail := lines[1..];
      StrippedIsNone(tail, prefix);
      StrippedIsOne(tail, prefix, rest);
      if prefix <= lines[0] {
        FirstIsOnly(lines, prefix);
        var text := lines[0][|prefix|..];
        assert lines[0] == prefix + text && (prefix + rest)[|prefix|..] == rest;
        assert Stripped(lines, prefix) == [text] + Stripped(tail, prefix);
        if Stripped(lines, prefix) == [rest] {
          assert Stripped(lines, prefix)[0] == text && |Stripped(tail, prefix)| == 0;
          assert IsOnly(lines, prefix, 0);
        }
      } else {
        forall i
          ensures IsOnly(lines, prefix, i + 1) <==> IsOnly(tail, prefix, i)
        {
          assert forall j :: 0 < j < |lines| ==> lines[j] == tail[j - 1];
          assert forall j :: 0 <= j < |tail| ==> tail[j] == lines[j + 1];
        }
        if i :| IsOnly(lines, prefix, i) && lines[i] == prefix + rest {
          assert IsOnly(lines, prefix, i - 1 + 1) && tail[i - 1] == lines[i];
        }
      }
    }
  }

  /** One line of the log is a marker of this kind with the five fields, and no other line is a marker of any kind. */
  ghost predicate HasOneReceipt(lines: seq<string>, marker: string, other: string, unevaluated: bool, r: Receipt) {
    && HasNone(lines, other)
    && exists text :: IsOnlyText(lines, marker, text) && ExactFields(Fields(Words(text)), unevaluated, r)
  }

  /**
   A log is accepted exactly when it has the exit line, and either one marker line of one
   kind with its five fields, or no marker line and the rows of the older form.
   */
  lemma AcceptedReceiptIsUnambiguous(output: string, r: Receipt)
    ensures
      var lines := CleanAll(Lines(output));
      ParseReceipt(output) == Some(r) <==>
        && EXIT in lines
        && (|| HasOneReceipt(lines, DEFERRED, UNEVALUATED, false, r)
            || HasOneReceipt(lines, UNEVALUATED, DEFERRED, true, r)
            || (HasNone(lines, DEFERRED) && HasNone(lines, UNEVALUATED) && ExactSentinel(lines, r)))
  {
    var lines := CleanAll(Lines(output));
    StrippedIsNone(lines, DEFERRED);
    StrippedIsNone(lines, UNEVALUATED);
    SentinelIsExact(lines, r);
    OneReceiptIsRead(lines, DEFERRED, UNEVALUATED, false, r);
    OneReceiptIsRead(lines, UNEVALUATED, DEFERRED, true, r);
  }

  lemma OneReceiptIsRead(lines: seq<string>, marker: string, other: string, unevaluated: bool, r: Receipt)
    ensures
      var found := Stripped(lines, marker);
      HasOneReceipt(lines, marker, other, unevaluated, r) <==>
        Stripped(lines, other) == [] && |found| == 1 && ParseCompact(found[0], unevaluated) == Some(r)
  {
    var found := Stripped(lines, marker);
    StrippedIsNone(lines, other);
    if HasOneReceipt(lines, marker, other, unevaluated, r) {
      var text :| IsOnlyText(lines, marker, text) && ExactFields(Fields(Words(text)), unevaluated, r);
      StrippedIsOne(lines, marker, text);
      CompactIsExact(text, unevaluated, r);
    } else if |found| == 1 {
      StrippedIsOne(lines, marker, found[0]);
      CompactIsExact(found[0], unevaluated, r);
    }
  }

  /** An object name is 40 to 64 hexadecimal digits; it is read in lower case. */
  lemma ObjectNamesAreReadInLowerCase(s: string, oid: string)
    ensures ParseOid(s) == Some(oid) <==>
      && 40 <= |s| <= 64 && |oid| == |s|
      && forall i :: 0 <= i < |s| ==>
        (('0' <= s[i] <= '9' || 'a' <= s[i] <= 'f') && oid[i] == s[i])
        || exists k :: 0 <= k < 6 && s[i] == "ABCDEF"[k] && oid[i] == "abcdef"[k]
  {
    forall c: char
      ensures 'A' <= c <= 'F' <==> exists k :: 0 <= k < 6 && c == "ABCDEF"[k] && LowerChar(c) == "abcdef"[k]
    {
      var k := c as int - 'A' as int;
      assert 'A' <= c <= 'F' ==> 0 <= k < 6 && c == "ABCDEF"[k] && LowerChar(c) == "abcdef"[k];
    }
    if ParseOid(s) == Some(oid) {
      assert forall i :: 0 <= i < |s| ==> oid[i] == LowerChar(s[i]);
    }
    if |oid| == |s| && forall i :: 0 <= i < |s| ==> oid[i] == LowerChar(s[i]) {
      assert oid == Lower(s);
    }
  }

  // ----- a well-formed receipt is read back -----

  function ReasonName(r: Reason): string {
    match r
    case Unjoined => ""
    case MembershipChanged => "membership_changed"
    case Draft => "draft"
    case RunUnproven => "run_unproven"
    case UnknownMembership => "unknown_membership"
  }

  /** Values of the five keys of one receipt. */
  function ValueOf(key: string, pr: Pr, head: string, base: string, reason: Reason): string {
    if key == "pr" then Print(pr)
    else if key == "head" then head
    else if key == "base" then base
    else if key == "exit" then "78"
    else if key == "decision" then "deferred_unjoined"
    else ReasonName(reason)
  }

  /** A word of a receipt line: one of the five keys and its value. */
  predicate IsToken(word: string, key: string, pr: Pr, head: string, base: string, reason: Reason) {
    word == key + "=" + ValueOf(key, pr, head, base, reason)
  }

  /** The words of a receipt in any order: as many as keys, and each key has its word. */
  ghost predicate IsReceipt(words: seq<string>, keys: seq<string>, pr: Pr, head: string, base: string, reason: Reason) {
    && |words| == |keys| == 5
    && (forall i :: 0 <= i < 5 ==> IsToken(words[i], keys[i], pr, head, base, reason))
    && SetOf(keys) == RequiredKeys(!reason.Unjoined?)
    && IsOid(head) && IsOid(base) && pr <= U64_MAX
  }

  /** Visible ASCII characters; none is white space. */
  predicate Plain(s: string) {
    forall i :: 0 <= i < |s| ==> 33 <= s[i] as int <= 126
  }

  lemma PlainIsNotWhite(s: string)
    requires Plain(s)
    ensures '\n' !in s && '\r' !in s && ' ' !in s
    ensures forall i :: 0 <= i < |s| ==> !IsWhite(s[i]) && !IsAsciiWhite(s[i])
  {
  }

  lemma KeysArePlain(key: string, unevaluated: bool)
    requires key in RequiredKeys(unevaluated)
    ensures key != "" && Plain(key) && '=' !in key
  {
  }

  lemma NamesArePlain(reason: Reason)
    ensures Plain(ReasonName(reason))
    ensures !reason.Unjoined? ==> ReasonName(reason) != ""
  {
  }

  lemma ValuesArePlain(key: string, pr: Pr, head: string, base: string, reason: Reason)
    requires key in RequiredKeys(!reason.Unjoined?) && IsOid(head) && IsOid(base)
    ensures var value := ValueOf(key, pr, head, base, reason); value != "" && Plain(value)
  {
    NamesArePlain(reason);
    PartsArePlain(pr, head, base);
    if key == "decision" {
      KeysDiffer();
    } else {
      KeyOfReason(key, !reason.Unjoined?);
    }
  }

  lemma PartsArePlain(pr: Pr, head: string, base: string)
    requires IsOid(head) && IsOid(base)
    ensures Plain(head) && Plain(base) && Plain(Print(pr)) && Plain("78") && Plain("deferred_unjoined")
    ensures head != "" && base != ""
  {
  }

  /** What is none of the other keys is the key of the reason, which an unjoined receipt lacks. */
  lemma KeyOfReason(key: string, unevaluated: bool)
    requires key in RequiredKeys(unevaluated) && key != "decision"
    ensures key in {"pr", "head", "base", "exit"} || (key == "reason" && unevaluated)
  {
  }

  lemma KeysDiffer()
    ensures "pr" != "head" && "pr" != "base" && "head" != "base" && "exit" != "pr" && "exit" != "head" && "exit" != "base"
    ensures "decision" != "reason" && "decision" !in {"pr", "head", "base", "exit"} && "reason" !in {"pr", "head", "base", "exit"}
  {
    assert |"pr"| == 2 && |"head"| == 4 && |"base"| == 4 && |"exit"| == 4 && |"decision"| == 8 && |"reason"| == 6;
    assert "head"[0] == 'h' && "base"[0] == 'b' && "exit"[0] == 'e';
  }

  lemma TokenSplits(word: string, key: string, pr: Pr, head: string, base: string, reason: Reason)
    requires key in RequiredKeys(!reason.Unjoined?) && IsOid(head) && IsOid(base)
    requires IsToken(word, key, pr, head, base, reason)
    ensures IsWord(word) && Plain(word)
    ensures SplitOnce(word, '=') == Some((key, ValueOf(key, pr, head, base, reason)))
  {
    KeysArePlain(key, !reason.Unjoined?);
    ValuesArePlain(key, pr, head, base, reason);
    PlainPairSplits(key, ValueOf(key, pr, head, base, reason));
  }

  lemma PlainPairSplits(key: string, value: string)
    requires Plain(key) && Plain(value) && key != "" && '=' !in key
    ensures IsWord(key + "=" + value) && Plain(key + "=" + value)
    ensures SplitOnce(key + "=" + value, '=') == Some((key, value))
  {
    var word := key + "=" + value;
    PlainIsNotWhite(key);
    PlainIsNotWhite(value);
    assert word == key + ['='] + value;
    FindAt(key, '=', value);
    assert word[..|key|] == key && word[|key| + 1..] == value;
  }

  lemma {:induction false} FieldsOfTokens(words: seq<string>, keys: seq<string>, pr: Pr, head: string, base: string, reason: Reason)
    requires |words| == |keys| && IsOid(head) && IsOid(base)
    requires forall i :: 0 <= i < |keys| ==> keys[i] in RequiredKeys(!reason.Unjoined?)
    requires forall i :: 0 <= i < |words| ==> IsToken(words[i], keys[i], pr, head, base, reason)
    ensures |Fields(words)| == |keys|
    ensures forall key :: key in keys ==> Lookup(Fields(words), key) == Some(ValueOf(key, pr, head, base, reason))
  {
    if words != [] {
      TokenSplits(words[0], keys[0], pr, head, base, reason);
      FieldsOfTokens(words[1..], keys[1..], pr, head, base, reason);
      assert forall key :: key in keys <==> key == keys[0] || key in keys[1..];
      FirstField(words, keys[0], ValueOf(keys[0], pr, head, base, reason));
    }
  }

  lemma FirstField(words: seq<string>, key: string, value: string)
    requires words != [] && SplitOnce(words[0], '=') == Some((key, value))
    ensures Fields(words) == [(key, value)] + Fields(words[1..])
    ensures forall k :: Lookup(Fields(words), k) == if k == key then Some(value) else Lookup(Fields(words[1..]), k)
  {
    assert ([(key, value)] + Fields(words[1..]))[1..] == Fields(words[1..]);
  }

  function Expected(pr: Pr, head: string, base: string, reason: Reason): Receipt {
    Receipt(pr, Lower(head), Lower(base), reason)
  }

  lemma ParseFromFields(receipt: string, fields: seq<(string, string)>, pr: Pr, head: string, base: string, reason: Reason)
    requires fields == Fields(Words(receipt)) && |fields| == 5 && IsOid(head) && IsOid(base) && pr <= U64_MAX
    requires Lookup(fields, "pr") == Some(Print(pr)) && Lookup(fields, "exit") == Some("78")
    requires Lookup(fields, "head") == Some(head) && Lookup(fields, "base") == Some(base)
    requires LookupReason(fields, !reason.Unjoined?) == Some(reason)
    ensures ParseCompact(receipt, !reason.Unjoined?) == Some(Expected(pr, head, base, reason))
  {
    ParseOfPrint(pr);
  }

  lemma ReasonFromFields(fields: seq<(string, string)>, reason: Reason)
    requires reason.Unjoined? ==> Lookup(fields, "decision") == Some("deferred_unjoined")
    requires !reason.Unjoined? ==> Lookup(fields, "reason") == Some(ReasonName(reason))
    ensures LookupReason(fields, !reason.Unjoined?) == Some(reason)
  {
    ReasonRoundTrip(ReasonName(reason), reason);
  }

  lemma ValuesByKey(pr: Pr, head: string, base: string, reason: Reason)
    ensures ValueOf("pr", pr, head, base, reason) == Print(pr) && ValueOf("exit", pr, head, base, reason) == "78"
    ensures ValueOf("head", pr, head, base, reason) == head && ValueOf("base", pr, head, base, reason) == base
    ensures ValueOf("decision", pr, head, base, reason) == "deferred_unjoined"
    ensures ValueOf("reason", pr, head, base, reason) == ReasonName(reason)
  {
    KeysDiffer();
  }

  lemma CompactRoundTrip(words: seq<string>, keys: seq<string>, pr: Pr, head: string, base: string, reason: Reason)
    requires IsReceipt(words, keys, pr, head, base, reason)
    ensures ParseCompact(Join(words, ' '), !reason.Unjoined?) == Some(Expected(pr, head, base, reason))
  {
    TokensArePlain(words, keys, pr, head, base, reason);
    WordsOfJoin(words);
    FieldsOfTokens(words, keys, pr, head, base, reason);
    var last := if reason.Unjoined? then "decision" else "reason";
    forall key | key in RequiredKeys(!reason.Unjoined?)
      ensures Lookup(Fields(words), key) == Some(ValueOf(key, pr, head, base, reason))
    {
      assert key in SetOf(keys);
    }
    assert {"pr", "head", "base", "exit", last} == RequiredKeys(!reason.Unjoined?);
    ValuesByKey(pr, head, base, reason);
    ReasonFromFields(Fields(words), reason);
    ParseFromFields(Join(words, ' '), Fields(words), pr, head, base, reason);
  }

  lemma TokensArePlain(words: seq<string>, keys: seq<string>, pr: Pr, head: string, base: string, reason: Reason)
    requires IsReceipt(words, keys, pr, head, base, reason)
    ensures forall i :: 0 <= i < 5 ==> keys[i] in RequiredKeys(!reason.Unjoined?) && IsWord(words[i]) && Plain(words[i])
  {
    forall i | 0 <= i < 5
      ensures keys[i] in RequiredKeys(!reason.Unjoined?) && IsWord(words[i]) && Plain(words[i])
    {
      assert keys[i] in SetOf(keys);
      TokenSplits(words[i], keys[i], pr, head, base, reason);
    }
  }

  /** The four printed reasons are read back, and nothing else is read as a reason. */
  lemma ReasonRoundTrip(s: string, reason: Reason)
    ensures ParseReason(s) == Some(reason) <==> !reason.Unjoined? && s == ReasonName(reason)
  {
    assert |"membership_changed"| == 18 && |"draft"| == 5 && |"run_unproven"| == 12 && |"unknown_membership"| == 18;
    assert "unknown_membership"[0] == 'u' && "membership_changed"[0] == 'm';
  }

  function MarkerFor(reason: Reason): string {
    if reason.Unjoined? then DEFERRED else UNEVALUATED
  }

  /** Log time stamps end in Z and hold no blank. */
  predicate IsStamp(stamp: string) {
    stamp == "" || (stamp[|stamp| - 1] == 'Z' && ' ' !in stamp)
  }

  function Stamped(stamp: string, body: string): string {
    if stamp == "" then body else stamp + " " + body
  }

  lemma {:induction false} JoinIsTight(words: seq<string>)
    requires words != [] && forall i :: 0 <= i < |words| ==> words[i] != "" && Plain(words[i])
    ensures
      var s := Join(words, ' ');
      s != "" && !IsWhite(s[|s| - 1]) && '\n' !in s && '\r' !in s
  {
    PlainIsNotWhite(words[0]);
    if |words| > 1 {
      JoinIsTight(words[1..]);
    }
  }

  lemma MarkedLineIsTight(name: string, text: string)
    requires name != "" && Plain(name) && text != "" && !IsWhite(text[|text| - 1])
    ensures Trim(name + " " + text) == name + " " + text
  {
    var body := name + " " + text;
    PlainIsNotWhite(name);
    assert body[0] == name[0] && body[|body| - 1] == text[|text| - 1];
    TrimOfTight(body);
  }

  lemma SplitOnceAt(a: string, c: char, b: string)
    requires c !in a
    ensures SplitOnce(a + [c] + b, c) == Some((a, b))
  {
    FindAt(a, c, b);
    var s := a + [c] + b;
    assert s[..|a|] == a && s[|a| + 1..] == b;
  }

  /** A stamp in front of a marker is removed; the marker itself is no stamp. */
  lemma CleanMarkedLine(stamp: string, name: string, text: string)
    requires IsStamp(stamp) && name != "" && Plain(name) && name[|name| - 1] != 'Z'
    requires text != "" && !IsWhite(text[|text| - 1])
    ensures Clean(Stamped(stamp, name + " " + text)) == name + " " + text
  {
    MarkedLineIsTight(name, text);
    if stamp == "" {
      CleanUnstamped(name, text);
    } else {
      CleanStamped(stamp, name + " " + text);
    }
  }

  lemma CleanStamped(stamp: string, body: string)
    requires stamp != "" && stamp[|stamp| - 1] == 'Z' && ' ' !in stamp && Trim(body) == body
    ensures Clean(stamp + " " + body) == body
  {
    SplitOnceAt(stamp, ' ', body);
  }

  lemma CleanUnstamped(name: string, text: string)
    requires name != "" && Plain(name) && name[|name| - 1] != 'Z' && Trim(name + " " + text) == name + " " + text
    ensures Clean(name + " " + text) == name + " " + text
  {
    PlainIsNotWhite(name);
    SplitOnceAt(name, ' ', text);
  }

  lemma MarkerNames()
    ensures DEFERRED == "cara-deferred-admission" + " " && Plain("cara-deferred-admission")
    ensures UNEVALUATED == "cara-admission-unevaluated" + " " && Plain("cara-admission-unevaluated")
  {
  }

  lemma CleanReceiptLine(stamp: string, reason: Reason, text: string)
    requires IsStamp(stamp) && text != "" && !IsWhite(text[|text| - 1])
    ensures Clean(Stamped(stamp, MarkerFor(reason) + text)) == MarkerFor(reason) + text
    ensures '\n' !in MarkerFor(reason) && '\r' !in MarkerFor(reason)
  {
    MarkerNames();
    var name := if reason.Unjoined? then "cara-deferred-admission" else "cara-admission-unevaluated";
    PlainIsNotWhite(name);
    assert MarkerFor(reason) == name + " ";
    CleanMarkedLine(stamp, name, text);
  }

  lemma {:induction false} StrippedAppend(a: seq<string>, b: seq<string>, prefix: string)
    ensures Stripped(a + b, prefix) == Stripped(a, prefix) + Stripped(b, prefix)
  {
    if a == [] {
      assert a + b == b;
    } else {
      assert (a + b)[1..] == a[1..] + b;
      StrippedAppend(a[1..], b, prefix);
    }
  }

  lemma {:induction false} StrippedNone(a: seq<string>, prefix: string)
    requires forall i :: 0 <= i < |a| ==> !(prefix <= a[i])
    ensures Stripped(a, prefix) == []
  {
    if a != [] {
      StrippedNone(a[1..], prefix);
    }
  }

  /** No line of the rest of the log is a receipt of either kind. */
  ghost predicate NoMarker(lines: seq<string>) {
    forall i :: 0 <= i < |lines| ==> !(DEFERRED <= Clean(lines[i])) && !(UNEVALUATED <= Clean(lines[i]))
  }

  lemma StrippedAround(before: seq<string>, line: string, after: seq<string>, prefix: string)
    requires forall i :: 0 <= i < |before| ==> !(prefix <= Clean(before[i]))
    requires forall i :: 0 <= i < |after| ==> !(prefix <= Clean(after[i]))
    ensures Stripped(CleanAll(before + [line] + after), prefix)
         == match StripPrefix(Clean(line), prefix) case Some(rest) => [rest] case None => []
  {
    CleanAllAround(before, line, after);
    StrippedAmong(CleanAll(before), Clean(line), CleanAll(after), prefix);
    StrippedOne(Clean(line), prefix);
  }

  lemma CleanAllAround(before: seq<string>, line: string, after: seq<string>)
    ensures CleanAll(before + [line] + after) == CleanAll(before) + [Clean(line)] + CleanAll(after)
  {
  }

  lemma StrippedOne(l: string, prefix: string)
    ensures Stripped([l], prefix) == match StripPrefix(l, prefix) case Some(rest) => [rest] case None => []
  {
    assert [l][1..] == [];
  }

  lemma StrippedAmong(a: seq<string>, l: string, c: seq<string>, prefix: string)
    requires forall i :: 0 <= i < |a| ==> !(prefix <= a[i])
    requires forall i :: 0 <= i < |c| ==> !(prefix <= c[i])
    ensures Stripped(a + [l] + c, prefix) == Stripped([l], prefix)
  {
    StrippedAppend(a + [l], c, prefix);
    StrippedAppend(a, [l], prefix);
    StrippedNone(a, prefix);
    StrippedNone(c, prefix);
  }

  lemma MarkersDiffer(text: string)
    ensures !(UNEVALUATED <= DEFERRED + text) && !(DEFERRED <= UNEVALUATED + text)
  {
    assert DEFERRED[5] == 'd' && UNEVALUATED[5] == 'a';
  }

  lemma OneMarkerIsFound(before: seq<string>, line: string, after: seq<string>, reason: Reason, text: string)
    requires NoMarker(before) && NoMarker(after) && Clean(line) == MarkerFor(reason) + text
    ensures
      var lines := CleanAll(before + [line] + after);
      && Stripped(lines, MarkerFor(reason)) == [text]
      && Stripped(lines, if reason.Unjoined? then UNEVALUATED else DEFERRED) == []
  {
    StrippedAround(before, line, after, DEFERRED);
    StrippedAround(before, line, after, UNEVALUATED);
    MarkersDiffer(text);
    assert (MarkerFor(reason) + text)[|MarkerFor(reason)|..] == text;
  }

  lemma ReceiptLineIsRead(before: seq<string>, line: string, after: seq<string>, words: seq<string>, keys: seq<string>,
                          pr: Pr, head: string, base: string, reason: Reason)
    requires IsReceipt(words, keys, pr, head, base, reason)
    requires NoMarker(before) && NoMarker(after) && Clean(line) == MarkerFor(reason) + Join(words, ' ')
    requires exists l :: l in before + after && Clean(l) == EXIT
    ensures ParseLines(CleanAll(before + [line] + after)) == Some(Expected(pr, head, base, reason))
  {
    OneMarkerIsFound(before, line, after, reason, Join(words, ' '));
    ExitIsSeen(before, line, after);
    CompactRoundTrip(words, keys, pr, head, base, reason);
  }

  lemma ExitIsSeen(before: seq<string>, line: string, after: seq<string>)
    requires exists l :: l in before + after && Clean(l) == EXIT
    ensures EXIT in CleanAll(before + [line] + after)
  {
    var all := before + [line] + after;
    var l :| l in before + after && Clean(l) == EXIT;
    assert l in all;
    var i :| 0 <= i < |all| && all[i] == l;
    assert CleanAll(all)[i] == EXIT;
  }

  ghost predicate OneLineEach(lines: seq<string>) {
    forall i :: 0 <= i < |lines| ==> IsOneLine(lines[i])
  }

  lemma ReceiptLineIsOneLine(stamp: string, words: seq<string>, keys: seq<string>, pr: Pr, head: string, base: string, reason: Reason)
    requires IsReceipt(words, keys, pr, head, base, reason) && IsStamp(stamp) && '\n' !in stamp && '\r' !in stamp
    ensures
      var line := Stamped(stamp, MarkerFor(reason) + Join(words, ' '));
      OneLineEach([line]) && Clean(line) == MarkerFor(reason) + Join(words, ' ')
  {
    TokensArePlain(words, keys, pr, head, base, reason);
    JoinIsTight(words);
    MarkedTextIsOneLine(stamp, reason, Join(words, ' '));
  }

  lemma MarkedTextIsOneLine(stamp: string, reason: Reason, text: string)
    requires IsStamp(stamp) && IsOneLine(stamp) && IsOneLine(text) && text != "" && !IsWhite(text[|text| - 1])
    ensures
      var line := Stamped(stamp, MarkerFor(reason) + text);
      OneLineEach([line]) && Clean(line) == MarkerFor(reason) + text
  {
    CleanReceiptLine(stamp, reason, text);
    OneLineTogether(MarkerFor(reason), text);
    StampedIsOneLine(stamp, MarkerFor(reason) + text);
  }

  predicate IsOneLine(s: string) {
    '\n' !in s && '\r' !in s
  }

  lemma OneLineTogether(a: string, b: string)
    requires IsOneLine(a) && IsOneLine(b)
    ensures IsOneLine(a + b)
  {
  }

  lemma StampedIsOneLine(stamp: string, body: string)
    requires IsOneLine(stamp) && IsOneLine(body)
    ensures IsOneLine(Stamped(stamp, body))
  {
    OneLineTogether(stamp, " ");
    OneLineTogether(stamp + " ", body);
  }

  lemma LinesOfLog(before: seq<string>, line: string, after: seq<string>)
    requires OneLineEach(before) && OneLineEach([line]) && OneLineEach(after)
    ensures Lines(JoinLines(before + [line] + after)) == before + [line] + after
  {
    OneLineEachTogether(before, [line]);
    OneLineEachTogether(before + [line], after);
    LinesOfJoin(before + [line] + after);
  }

  lemma OneLineEachTogether(a: seq<string>, b: seq<string>)
    requires OneLineEach(a) && OneLineEach(b)
    ensures OneLineEach(a + b)
  {
    forall i | 0 <= i < |a + b|
      ensures IsOneLine((a + b)[i])
    {
      assert (a + b)[i] == if i < |a| then a[i] else b[i - |a|];
    }
  }

  /**
   One well-formed receipt line, stamped or not, anywhere among lines that carry
   no marker but do carry the exit line, is read back with lower-case identifiers.
   */
  lemma ReceiptRoundTrip(before: seq<string>, after: seq<string>, stamp: string, words: seq<string>, keys: seq<string>,
                         pr: Pr, head: string, base: string, reason: Reason)
    requires IsReceipt(words, keys, pr, head, base, reason) && IsStamp(stamp) && '\n' !in stamp && '\r' !in stamp
    requires NoMarker(before) && NoMarker(after) && OneLineEach(before) && OneLineEach(after)
    requires exists l :: l in before + after && Clean(l) == EXIT
    ensures
      var line := Stamped(stamp, MarkerFor(reason) + Join(words, ' '));
      ParseReceipt(JoinLines(before + [line] + after)) == Some(Expected(pr, head, base, reason))
  {
    var line := Stamped(stamp, MarkerFor(reason) + Join(words, ' '));
    ReceiptLineIsOneLine(stamp, words, keys, pr, head, base, reason);
    LinesOfLog(before, line, after);
    ReceiptLineIsRead(before, line, after, words, keys, pr, head, base, reason);
  }
}
