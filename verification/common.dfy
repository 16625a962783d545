/** Types and orders shared by every component. */
module Common {
  datatype Option<+T> = None | Some(value: T)

  type Pr = nat

  const U64_MAX: nat := 0xffff_ffff_ffff_ffff

  /** Outcome of one operation outside the process. `Late` takes effect and reports an error. */
  datatype Fault = Fine | Lost | Late

  function Min(a: nat, b: nat): nat { if a < b then a else b }
}

/** Equalities of sequences that solvers find slowly. */
module Sequences {
  lemma AppendAssociates<T>(a: seq<T>, b: seq<T>, c: seq<T>)
    ensures (a + b) + c == a + (b + c)
  {
  }

  /** Each element is related to the one behind it. */
  ghost predicate Chained<T(!new)>(s: seq<T>, next: (T, T) -> bool) {
    forall i, j :: 0 <= i && i + 1 == j < |s| ==> next(s[i], s[j])
  }

  lemma ChainGrows<T(!new)>(s: seq<T>, x: T, next: (T, T) -> bool)
    requires Chained(s, next) && (s != [] ==> next(s[|s| - 1], x))
    ensures Chained(s + [x], next)
  {
  }

  lemma TakeOneMore<T>(s: seq<T>, i: nat)
    requires i < |s|
    ensures s[..i + 1] == s[..i] + [s[i]]
  {
  }
}

/** Ascending enumeration of finite sets of numbers, and the order of strings. */
module Ordering {
  lemma SubsetIsSmaller<T>(a: set<T>, b: set<T>)
    requires a <= b
    ensures |a| <= |b|
    ensures |a| == |b| ==> a == b
  {
    assert b == a + (b - a);
  }

  ghost predicate IsLeast(m: nat, s: set<nat>)
  {
    m in s && forall x :: x in s ==> m <= x
  }

  lemma LeastExists(s: set<nat>)
    requires s != {}
    ensures exists m :: IsLeast(m, s)
  {
    var x :| x in s;
    if s == {x} {
      assert IsLeast(x, s);
    } else {
      LeastExists(s - {x});
      var m :| IsLeast(m, s - {x});
      assert forall y :: y in s ==> y == x || y in s - {x};
      assert IsLeast(if x < m then x else m, s);
    }
  }

  function Least(s: set<nat>): (m: nat)
    requires s != {}
    ensures m in s && forall x :: x in s ==> m <= x
  {
    LeastExists(s);
    var m :| m in s && forall x :: x in s ==> m <= x;
    m
  }

  predicate StrictlyAscending(s: seq<nat>)
  {
    forall i, j :: 0 <= i < j < |s| ==> s[i] < s[j]
  }

  ghost predicate Enumerates(r: seq<nat>, s: set<nat>)
  {
    StrictlyAscending(r) && |r| == |s| && forall x :: x in r <==> x in s
  }

  lemma {:induction false} EnumerationExists(s: set<nat>)
    ensures exists r :: Enumerates(r, s)
    decreases |s|
  {
    if s == {} {
      assert Enumerates([], s);
    } else {
      var m := Least(s);
      EnumerationExists(s - {m});
      var rest :| Enumerates(rest, s - {m});
      assert Enumerates([m] + rest, s) by {
        forall i, j | 0 <= i < j < |rest| + 1
          ensures ([m] + rest)[i] < ([m] + rest)[j]
        {
          assert rest[j - 1] in s - {m};
        }
        forall x
          ensures x in [m] + rest <==> x in s
        {
          assert x in [m] + rest <==> x == m || x in rest;
        }
      }
    }
  }

  lemma FirstIsLeast(a: seq<nat>, s: set<nat>, x: nat)
    requires Enumerates(a, s) && x in s
    ensures a != [] && a[0] <= x
  {
    assert x in a;
    var i :| 0 <= i < |a| && a[i] == x;
  }

  lemma RestEnumerates(a: seq<nat>, s: set<nat>)
    requires Enumerates(a, s) && a != []
    ensures Enumerates(a[1..], s - {a[0]}) && a[0] in s
  {
    assert a[0] in a;
    forall x
      ensures x in a[1..] <==> x in s && x != a[0]
    {
      if x in a[1..] {
        var i :| 0 <= i < |a| - 1 && a[1..][i] == x;
        assert a[i + 1] == x && x in a;
      }
      assert a == [a[0]] + a[1..];
    }
  }

  lemma {:induction false} EnumerationIsUnique(a: seq<nat>, b: seq<nat>, s: set<nat>)
    requires Enumerates(a, s) && Enumerates(b, s)
    ensures a == b
    decreases |s|
  {
    if a != [] {
      RestEnumerates(a, s);
      FirstIsLeast(b, s, a[0]);
      RestEnumerates(b, s);
      FirstIsLeast(a, s, b[0]);
      EnumerationIsUnique(a[1..], b[1..], s - {a[0]});
      assert a == [a[0]] + a[1..] && b == [b[0]] + b[1..];
    }
  }

  lemma OneEnumeration(s: set<nat>)
    ensures exists r :: Enumerates(r, s)
    ensures forall a, b :: Enumerates(a, s) && Enumerates(b, s) ==> a == b
  {
    EnumerationExists(s);
    forall a, b | Enumerates(a, s) && Enumerates(b, s)
      ensures a == b
    {
      EnumerationIsUnique(a, b, s);
    }
  }

  /** The elements of a set in ascending order, as a sorted set iterates. */
  ghost function Ascending(s: set<nat>): (r: seq<nat>)
    ensures StrictlyAscending(r)
    ensures forall x :: x in r <==> x in s
    ensures |r| == |s|
  {
    OneEnumeration(s);
    var r :| Enumerates(r, s);
    r
  }

  lemma AscendingIs(r: seq<nat>, s: set<nat>)
    requires StrictlyAscending(r) && |r| == |s| && forall x :: x in r <==> x in s
    ensures r == Ascending(s)
  {
    EnumerationIsUnique(r, Ascending(s), s);
  }

  /** Iterate a sorted set: least element first. */
  method Sorted(s: set<nat>) returns (r: seq<nat>)
    ensures r == Ascending(s)
  {
    r := [];
    var left := s;
    while left != {}
      invariant left <= s && |r| + |left| == |s|
      invariant StrictlyAscending(r)
      invariant forall x :: x in r <==> x in s && x !in left
      invariant forall x, y :: x in r && y in left ==> x < y
    {
      var m := Least(left);
      assert forall i :: 0 <= i < |r| ==> r[i] in r;
      left, r := left - {m}, r + [m];
    }
    AscendingIs(r, s);
  }

  /** Byte-wise order of strings, which is the order of their code points. */
  predicate LexLess(a: string, b: string)
  {
    if b == [] then false
    else if a == [] then true
    else a[0] < b[0] || (a[0] == b[0] && LexLess(a[1..], b[1..]))
  }

  /** At the first difference the smaller one ends or has the smaller code point. */
  ghost predicate IsSmaller(a: string, b: string) {
    exists i :: FirstDifference(a, b, i) && (i == |a| || a[i] < b[i])
  }

  predicate FirstDifference(a: string, b: string, i: int) {
    0 <= i <= |a| && i < |b| && a[..i] == b[..i]
  }

  lemma {:induction false} LexLessIs(a: string, b: string)
    ensures LexLess(a, b) <==> IsSmaller(a, b)
  {
    if a == [] || b == [] || a[0] != b[0] {
      assert b != [] ==> FirstDifference(a, b, 0);
      assert forall i :: 0 < i <= |a| && i < |b| ==> a[..i][0] != b[..i][0];
    } else {
      LexLessIs(a[1..], b[1..]);
      if IsSmaller(a, b) {
        var i :| FirstDifference(a, b, i) && (i == |a| || a[i] < b[i]);
        assert a[1..][..i - 1] == a[..i][1..] && b[1..][..i - 1] == b[..i][1..];
        assert FirstDifference(a[1..], b[1..], i - 1);
      }
      if IsSmaller(a[1..], b[1..]) {
        var i :| FirstDifference(a[1..], b[1..], i) && (i == |a[1..]| || a[1..][i] < b[1..][i]);
        assert a[..i + 1] == [a[0]] + a[1..][..i] && b[..i + 1] == [b[0]] + b[1..][..i];
        assert FirstDifference(a, b, i + 1);
      }
    }
  }

  lemma LexLessIsTotal(a: string, b: string)
    ensures LexLess(a, b) || a == b || LexLess(b, a)
    ensures !(LexLess(a, b) && LexLess(b, a))
    ensures !LexLess(a, a)
  {
    if a != [] && b != [] && a[0] == b[0] {
      LexLessIsTotal(a[1..], b[1..]);
      assert a == [a[0]] + a[1..] && b == [b[0]] + b[1..];
    }
    if a != [] {
      LexLessIsTotal(a[1..], a[1..]);
    }
  }

  lemma LexLessIsTransitive(a: string, b: string, c: string)
    requires LexLess(a, b) && LexLess(b, c)
    ensures LexLess(a, c)
  {
    if a != [] && a[0] == b[0] && b[0] == c[0] {
      LexLessIsTransitive(a[1..], b[1..], c[1..]);
    }
  }
}
