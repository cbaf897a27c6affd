/** Vocabulary shared by every model: optional values, outcomes, string order, stable sorting and sums. */
module Prelude {

  datatype Option<+T> = None | Some(value: T)

  datatype Result<+T, +E> = Ok(value: T) | Err(error: E)

  function Min(a: real, b: real): real {
    if a <= b then a else b
  }

  function Max(a: real, b: real): real {
    if a >= b then a else b
  }

  function Abs(a: real): real {
    if a >= 0.0 then a else -a
  }

  /** A product, named so that proofs about sums of products can work from the three laws below alone. */
  function Times(a: real, b: real): real {
    a * b
  }

  lemma {:induction false} TimesAdds(a: real, b: real, c: real)
    ensures Times(a, b + c) == Times(a, b) + Times(a, c)
    ensures Times(a, 0.0) == 0.0
  {
  }

  lemma {:induction false} TimesNegates(a: real, b: real)
    ensures Times(a, -b) == -Times(a, b)
  {
  }

  lemma {:induction false} TimesSpreads(a: real, b: real, q: real)
    ensures Times(a - b, q) == Times(a, q) - Times(b, q)
  {
  }

  // ---- strings -------------------------------------------------------------------------------

  /** The lexicographic order Python compares `str` values with. */
  predicate StrLe(a: string, b: string) {
    if a == [] then true
    else if b == [] then false
    else if a[0] != b[0] then a[0] < b[0]
    else StrLe(a[1..], b[1..])
  }

  lemma {:induction false} StrLeTotal(a: string, b: string)
    ensures StrLe(a, b) || StrLe(b, a)
  {
    if a != [] && b != [] && a[0] == b[0] {
      StrLeTotal(a[1..], b[1..]);
    }
  }

  lemma {:induction false} StrLeTransitive(a: string, b: string, c: string)
    requires StrLe(a, b) && StrLe(b, c)
    ensures StrLe(a, c)
  {
    if a != [] && b != [] && c != [] && a[0] == b[0] == c[0] {
      StrLeTransitive(a[1..], b[1..], c[1..]);
    }
  }

  lemma {:induction false} StrLeAntisymmetric(a: string, b: string)
    requires StrLe(a, b) && StrLe(b, a)
    ensures a == b
  {
    if a != [] && b != [] {
      StrLeAntisymmetric(a[1..], b[1..]);
      assert a == [a[0]] + a[1..] && b == [b[0]] + b[1..];
    }
  }

  lemma {:induction false} FirstStringExists(s: set<string>)
    requires s != {}
    ensures exists m :: m in s && forall k :: k in s ==> StrLe(m, k)
    decreases |s|
  {
    var x :| x in s;
    var rest := s - {x};
    StrLeTotal(x, x);
    if rest != {} {
      FirstStringExists(rest);
      var m :| m in rest && forall k :: k in rest ==> StrLe(m, k);
      StrLeTotal(x, m);
      if StrLe(x, m) {
        forall k | k in s
          ensures StrLe(x, k)
        {
          if k != x {
            StrLeTransitive(x, m, k);
          }
        }
      } else {
        assert forall k :: k in s ==> k == x || k in rest;
      }
    }
  }

  function FirstString(s: set<string>): (m: string)
    requires s != {}
    ensures m in s && forall k :: k in s ==> StrLe(m, k)
  {
    FirstStringExists(s);
    assert forall a, b | a in s && b in s && (forall k :: k in s ==> StrLe(a, k)) && (forall k :: k in s ==> StrLe(b, k)) ::
      a == b by {
      forall a, b | a in s && b in s && (forall k :: k in s ==> StrLe(a, k)) && (forall k :: k in s ==> StrLe(b, k))
        ensures a == b
      {
        StrLeAntisymmetric(a, b);
      }
    }
    var m :| m in s && forall k :: k in s ==> StrLe(m, k);
    m
  }

  /** The elements of a set of strings in order, each once. */
  function SortedStrings(s: set<string>): (r: seq<string>)
    ensures forall k :: k in r <==> k in s
    ensures forall i, j :: 0 <= i < j < |r| ==> r[i] != r[j]
    decreases |s|
  {
    if s == {} then []
    else
      var m := FirstString(s);
      var r := SortedStrings(s - {m});
      assert forall i :: 0 <= i < |r| ==> r[i] in r;
      [m] + r
  }

  /** `s.rsplit(".", 1)[0]`: everything before the last dot, or the whole string when there is none. */
  function SymbolPart(s: string): (r: string)
    ensures '.' !in s ==> r == s
    ensures '.' in s ==> r < s && s[|r|] == '.' && '.' !in s[|r| + 1..]
  {
    LastDot(s, |s|)
  }

  /** The symbol part of `s`, looking for the last dot among the first `n` characters. */
  function LastDot(s: string, n: nat): (r: string)
    requires n <= |s|
    requires '.' !in s[n..]
    ensures '.' !in s ==> r == s
    ensures '.' in s ==> r < s && s[|r|] == '.' && '.' !in s[|r| + 1..]
  {
    if n == 0 then
      assert s[0..] == s;
      s
    else if s[n - 1] == '.' then
      s[..n - 1]
    else
      assert s[n - 1..] == [s[n - 1]] + s[n..];
      LastDot(s, n - 1)
  }

  // ---- stable sorting ------------------------------------------------------------------------

  ghost predicate TotalOrder<T(!new)>(le: (T, T) -> bool) {
    && (forall x, y :: le(x, y) || le(y, x))
    && (forall x, y, z :: le(x, y) && le(y, z) ==> le(x, z))
  }

  ghost predicate SortedBy<T>(s: seq<T>, le: (T, T) -> bool) {
    forall i, j :: 0 <= i < j < |s| ==> le(s[i], s[j])
  }

  /** Python's `sorted(s, key=...)`: a stable sort under the preorder `le`. */
  function Sort<T>(s: seq<T>, le: (T, T) -> bool): (r: seq<T>)
    ensures |r| == |s|
  {
    if s == [] then [] else Insert(s[0], Sort(s[1..], le), le)
  }

  function Insert<T>(x: T, s: seq<T>, le: (T, T) -> bool): (r: seq<T>)
    ensures |r| == |s| + 1
  {
    if s == [] then [x]
    else if le(x, s[0]) then [x] + s
    else [s[0]] + Insert(x, s[1..], le)
  }

  lemma {:induction false} InsertPermutes<T>(x: T, s: seq<T>, le: (T, T) -> bool)
    ensures multiset(Insert(x, s, le)) == multiset{x} + multiset(s)
  {
    if s != [] {
      assert s == [s[0]] + s[1..];
      if !le(x, s[0]) {
        InsertPermutes(x, s[1..], le);
      }
    }
  }

  lemma {:induction false} SortPermutes<T>(s: seq<T>, le: (T, T) -> bool)
    ensures multiset(Sort(s, le)) == multiset(s)
  {
    if s != [] {
      assert s == [s[0]] + s[1..];
      SortPermutes(s[1..], le);
      InsertPermutes(s[0], Sort(s[1..], le), le);
    }
  }

  lemma {:induction false} InsertSorts<T(!new)>(x: T, s: seq<T>, le: (T, T) -> bool)
    requires TotalOrder(le) && SortedBy(s, le)
    ensures SortedBy(Insert(x, s, le), le)
  {
    if s != [] && !le(x, s[0]) {
      InsertSorts(x, s[1..], le);
      var r := Insert(x, s[1..], le);
      InsertPermutes(x, s[1..], le);
      forall k | 0 <= k < |r|
        ensures le(s[0], r[k])
      {
        assert r[k] in multiset(r);
        assert r[k] == x || r[k] in s[1..];
      }
    }
  }

  lemma {:induction false} SortSorts<T(!new)>(s: seq<T>, le: (T, T) -> bool)
    requires TotalOrder(le)
    ensures SortedBy(Sort(s, le), le)
  {
    if s != [] {
      SortSorts(s[1..], le);
      InsertSorts(s[0], Sort(s[1..], le), le);
    }
  }

  lemma {:induction false} SortMembers<T(!new)>(s: seq<T>, le: (T, T) -> bool)
    ensures forall x :: x in Sort(s, le) <==> x in s
  {
    SortPermutes(s, le);
    forall x
      ensures x in Sort(s, le) <==> x in s
    {
      assert x in multiset(Sort(s, le)) <==> x in Sort(s, le);
      assert x in multiset(s) <==> x in s;
    }
  }

  // ---- sums ----------------------------------------------------------------------------------

  function SumBy<T>(s: seq<T>, f: T -> real): real {
    if s == [] then 0.0 else f(s[0]) + SumBy(s[1..], f)
  }

  lemma {:induction false} SumByConcat<T>(a: seq<T>, b: seq<T>, f: T -> real)
    ensures SumBy(a + b, f) == SumBy(a, f) + SumBy(b, f)
  {
    if a == [] {
      assert a + b == b;
    } else {
      assert (a + b)[1..] == a[1..] + b;
      SumByConcat(a[1..], b, f);
    }
  }

  lemma {:induction false} SumByUpdate<T>(s: seq<T>, i: nat, x: T, f: T -> real)
    requires i < |s|
    ensures SumBy(s[i := x], f) == SumBy(s, f) - f(s[i]) + f(x)
  {
    if i == 0 {
      assert s[0 := x][1..] == s[1..];
    } else {
      assert s[i := x][1..] == s[1..][i - 1 := x];
      SumByUpdate(s[1..], i - 1, x, f);
    }
  }

  /** Taking one term out of a sum. */
  lemma {:induction false} SumByWithout<T>(b: seq<T>, i: nat, f: T -> real)
    requires i < |b|
    ensures SumBy(b, f) == f(b[i]) + SumBy(b[..i] + b[i + 1..], f)
    ensures multiset(b[..i] + b[i + 1..]) == multiset(b) - multiset{b[i]}
  {
    var left, right := b[..i], b[i + 1..];
    assert b == left + ([b[i]] + right);
    assert ([b[i]] + right)[1..] == right;
    SumByConcat(left, right, f);
    SumByConcat(left, [b[i]] + right, f);
  }

  /** A sum does not depend on the order of its terms. */
  lemma {:induction false} SumByPermutes<T>(a: seq<T>, b: seq<T>, f: T -> real)
    requires multiset(a) == multiset(b)
    ensures SumBy(a, f) == SumBy(b, f)
  {
    if a == [] {
      assert |multiset(b)| == 0;
    } else {
      assert a[0] in multiset(b);
      var i :| 0 <= i < |b| && b[i] == a[0];
      SumByWithout(b, i, f);
      assert a == [a[0]] + a[1..];
      SumByPermutes(a[1..], b[..i] + b[i + 1..], f);
    }
  }

  lemma {:induction false} SumByNonNegative<T>(s: seq<T>, f: T -> real)
    requires forall x :: x in s ==> f(x) >= 0.0
    ensures SumBy(s, f) >= 0.0
    ensures forall i :: 0 <= i < |s| ==> f(s[i]) <= SumBy(s, f)
  {
    if s != [] {
      assert forall x :: x in s[1..] ==> x in s;
      SumByNonNegative(s[1..], f);
      assert f(s[0]) >= 0.0;
      forall i | 0 <= i < |s|
        ensures f(s[i]) <= SumBy(s, f)
      {
        if i > 0 {
          assert s[i] == s[1..][i - 1];
        }
      }
    }
  }

  function SumInt<T>(s: seq<T>, f: T -> int): int {
    if s == [] then 0 else f(s[0]) + SumInt(s[1..], f)
  }

  lemma {:induction false} SumIntConcat<T>(a: seq<T>, b: seq<T>, f: T -> int)
    ensures SumInt(a + b, f) == SumInt(a, f) + SumInt(b, f)
  {
    if a == [] {
      assert a + b == b;
    } else {
      assert (a + b)[1..] == a[1..] + b;
      SumIntConcat(a[1..], b, f);
    }
  }

  lemma {:induction false} SumIntWithout<T>(b: seq<T>, i: nat, f: T -> int)
    requires i < |b|
    ensures SumInt(b, f) == f(b[i]) + SumInt(b[..i] + b[i + 1..], f)
    ensures multiset(b[..i] + b[i + 1..]) == multiset(b) - multiset{b[i]}
  {
    var left, right := b[..i], b[i + 1..];
    assert b == left + ([b[i]] + right);
    assert ([b[i]] + right)[1..] == right;
    SumIntConcat(left, right, f);
    SumIntConcat(left, [b[i]] + right, f);
  }

  lemma {:induction false} SumIntPermutes<T>(a: seq<T>, b: seq<T>, f: T -> int)
    requires multiset(a) == multiset(b)
    ensures SumInt(a, f) == SumInt(b, f)
  {
    if a == [] {
      assert |multiset(b)| == 0;
    } else {
      assert a[0] in multiset(b);
      var i :| 0 <= i < |b| && b[i] == a[0];
      SumIntWithout(b, i, f);
      assert a == [a[0]] + a[1..];
      SumIntPermutes(a[1..], b[..i] + b[i + 1..], f);
    }
  }

  lemma {:induction false} AnyOf<T>(s: set<T>) returns (x: T)
    requires s != {}
    ensures x in s
  {
    x :| x in s;
  }

  /** A sum over a set: no order, each element once. */
  ghost function SumSet<T(!new)>(s: set<T>, f: T -> real): real {
    if s == {} then 0.0
    else
      var x :| x in s;
      f(x) + SumSet(s - {x}, f)
  }

  lemma {:induction false} SumSetWithout<T(!new)>(s: set<T>, x: T, f: T -> real)
    requires x in s
    ensures SumSet(s, f) == f(x) + SumSet(s - {x}, f)
    decreases |s|
  {
    var y :| y in s && SumSet(s, f) == f(y) + SumSet(s - {y}, f);
    if y != x {
      SumSetWithout(s - {y}, x, f);
      assert s - {y} - {x} == s - {x} - {y};
      SumSetWithout(s - {x}, y, f);
    }
  }

  lemma {:induction false} SumSetSame<T(!new)>(s: set<T>, f: T -> real, g: T -> real)
    requires forall x :: x in s ==> f(x) == g(x)
    ensures SumSet(s, f) == SumSet(s, g)
    decreases |s|
  {
    if s != {} {
      var x :| x in s;
      SumSetWithout(s, x, f);
      SumSetWithout(s, x, g);
      SumSetSame(s - {x}, f, g);
    }
  }

  /** Elements that contribute nothing may be left out. */
  lemma {:induction false} SumSetSubset<T(!new)>(s: set<T>, t: set<T>, f: T -> real)
    requires s <= t && forall x :: x in t && x !in s ==> f(x) == 0.0
    ensures SumSet(s, f) == SumSet(t, f)
    decreases |t|
  {
    if s == t {
    } else {
      var x :| x in t && x !in s;
      SumSetWithout(t, x, f);
      SumSetSubset(s, t - {x}, f);
    }
  }

  /** A sum over a list that names every element of a set once. */
  lemma {:induction false} SumSetOfList<T(!new)>(list: seq<T>, s: set<T>, f: T -> real)
    requires (forall x :: x in list <==> x in s) && forall i, j :: 0 <= i < j < |list| ==> list[i] != list[j]
    ensures SumBy(list, f) == SumSet(s, f)
  {
    if list == [] {
      assert s == {};
    } else {
      var x, rest := list[0], list[1..];
      assert list == [x] + rest && x in s;
      SumSetWithout(s, x, f);
      assert forall i :: 0 <= i < |rest| ==> rest[i] == list[i + 1];
      forall y
        ensures y in rest <==> y in s - {x}
      {
        if y in rest {
          var i :| 0 <= i < |rest| && rest[i] == y;
          assert list[0] != list[i + 1];
        }
        assert y in list <==> y == x || y in rest;
      }
      SumSetOfList(rest, s - {x}, f);
    }
  }

  lemma {:induction false} SumBySame<T(!new)>(list: seq<T>, f: T -> real, g: T -> real)
    requires forall x :: x in list ==> f(x) == g(x)
    ensures SumBy(list, f) == SumBy(list, g)
  {
    if list != [] {
      assert list == [list[0]] + list[1..];
      assert list[0] in list && forall x :: x in list[1..] ==> x in list;
      SumBySame(list[1..], f, g);
    }
  }

  // ---- filtering -----------------------------------------------------------------------------

  function Filter<T(!new)>(s: seq<T>, keep: T -> bool): (r: seq<T>)
    ensures |r| <= |s|
    ensures forall x :: x in r <==> x in s && keep(x)
  {
    if s == [] then []
    else
      assert s == [s[0]] + s[1..];
      if keep(s[0]) then [s[0]] + Filter(s[1..], keep) else Filter(s[1..], keep)
  }

  lemma {:induction false} FilterNone<T(!new)>(s: seq<T>, keep: T -> bool)
    requires forall x :: x in s ==> !keep(x)
    ensures Filter(s, keep) == []
  {
    if s != [] {
      assert s[0] in s && (forall x :: x in s[1..] ==> x in s);
      FilterNone(s[1..], keep);
    }
  }

  lemma {:induction false} FilterConcat<T(!new)>(a: seq<T>, b: seq<T>, keep: T -> bool)
    ensures Filter(a + b, keep) == Filter(a, keep) + Filter(b, keep)
  {
    if a == [] {
      assert a + b == b;
    } else {
      assert (a + b)[1..] == a[1..] + b;
      FilterConcat(a[1..], b, keep);
    }
  }
}
