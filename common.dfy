/** Building blocks shared by the whole model: optional values, request
    outcomes, the ASCII string functions that stand in for .NET's and
    PostgreSQL's, filtering, a comparison sort, LINQ's Take/Skip, sums and
    32-bit wrap-around. */
module Common {

  datatype Option<+T> = None | Some(value: T)

  /** Why a request did not produce its value (the HTTP status the
      controller answers with, or an exception that the service rethrows). */
  datatype Failure = BadRequest | Unauthorized | Forbidden | NotFound | ServerError | Thrown

  datatype Result<+T> = Ok(value: T) | Fail(failure: Failure)

  /** Guids are abstracted as naturals; 0 plays Guid.Empty. */
  type Guid = nat
  const EmptyGuid: Guid := 0

  // ---------------------------------------------------------------- text

  /** ToLower / PostgreSQL lower(), restricted to ASCII letters. */
  function LowerChar(c: char): char
  {
    if 'A' <= c <= 'Z' then (c as int + 32) as char else c
  }

  function Lower(s: string): string
  {
    seq(|s|, i requires 0 <= i < |s| => LowerChar(s[i]))
  }

  /** The white-space characters String.Trim removes (ASCII subset). */
  predicate IsWhiteSpace(c: char)
  {
    c == ' ' || c == '\t' || c == '\n' || c == '\r' || c == '\U{000B}' || c == '\U{000C}'
  }

  function TrimStart(s: string): string
  {
    if |s| > 0 && IsWhiteSpace(s[0]) then TrimStart(s[1..]) else s
  }

  function TrimEnd(s: string): string
  {
    if |s| > 0 && IsWhiteSpace(s[|s| - 1]) then TrimEnd(s[..|s| - 1]) else s
  }

  function Trim(s: string): string
  {
    TrimEnd(TrimStart(s))
  }

  /** Leading white space is what TrimStart removes. */
  lemma {:induction false} TrimStartPadding(pad: string, s: string)
    requires forall i :: 0 <= i < |pad| ==> IsWhiteSpace(pad[i])
    ensures TrimStart(pad + s) == TrimStart(s)
  {
    if pad == [] {
      assert pad + s == s;
    } else {
      assert (pad + s)[1..] == pad[1..] + s;
      TrimStartPadding(pad[1..], s);
    }
  }

  /** [Required] on a string property: model validation rejects a null,
      empty or white-space-only value with 400 before the action runs. */
  predicate Required(s: string)
  {
    Trim(s) != ""
  }

  predicate IsDigit(c: char)
  {
    '0' <= c <= '9'
  }

  predicate AllDigits(s: string)
  {
    forall i :: 0 <= i < |s| ==> IsDigit(s[i])
  }

  /** String.IsNullOrEmpty */
  predicate IsNullOrEmpty(s: Option<string>)
  {
    s.None? || s.value == ""
  }

  /** String.Contains / SQL LIKE '%sub%' */
  predicate Contains(s: string, sub: string)
  {
    exists i :: 0 <= i <= |s| - |sub| && OccursAt(s, sub, i)
  }

  predicate OccursAt(s: string, sub: string, i: int)
  {
    0 <= i <= |s| - |sub| && s[i..i + |sub|] == sub
  }

  /** String.StartsWith */
  predicate StartsWith(s: string, prefix: string)
  {
    |prefix| <= |s| && s[..|prefix|] == prefix
  }

  /** Ordinal (code point) order on strings: the collation the model uses
      for ORDER BY on text columns. */
  predicate StrLess(a: string, b: string)
  {
    if a == [] then b != []
    else if b == [] then false
    else a[0] < b[0] || (a[0] == b[0] && StrLess(a[1..], b[1..]))
  }

  lemma {:induction false} StrLessIrreflexive(a: string)
    ensures !StrLess(a, a)
  {
    if a != [] {
      StrLessIrreflexive(a[1..]);
    }
  }

  lemma {:induction false} StrLessTrichotomy(a: string, b: string)
    ensures StrLess(a, b) || a == b || StrLess(b, a)
  {
    if a != [] && b != [] && a[0] == b[0] {
      StrLessTrichotomy(a[1..], b[1..]);
      if a[1..] == b[1..] {
        assert a == [a[0]] + a[1..] && b == [b[0]] + b[1..];
      }
    }
  }

  lemma {:induction false} StrLessTransitive(a: string, b: string, c: string)
    requires StrLess(a, b) && StrLess(b, c)
    ensures StrLess(a, c)
  {
    if a != [] && b != [] && c != [] && a[0] == b[0] && b[0] == c[0] {
      StrLessTransitive(a[1..], b[1..], c[1..]);
    }
  }

  /** Any b lies after a or before c when a comes before c. */
  lemma StrLessSplit(a: string, b: string, c: string)
    requires StrLess(a, c)
    ensures StrLess(a, b) || StrLess(b, c)
  {
    StrLessTrichotomy(a, b);
    StrLessTrichotomy(b, c);
    if StrLess(b, a) && StrLess(c, b) {
      StrLessTransitive(c, b, a);
      StrLessTransitive(a, c, a);
      StrLessIrreflexive(a);
    } else if b == a && StrLess(c, b) {
      StrLessTransitive(a, c, a);
      StrLessIrreflexive(a);
    } else if StrLess(b, a) && b == c {
      StrLessTransitive(a, c, a);
      StrLessIrreflexive(a);
    } else if b == a && b == c {
      StrLessIrreflexive(a);
    }
  }

  // ---------------------------------------------------------- sequences

  function Filter<T>(s: seq<T>, keep: T -> bool): (r: seq<T>)
    ensures |r| <= |s|
    ensures forall i :: 0 <= i < |r| ==> r[i] in s && keep(r[i])
    ensures forall i :: 0 <= i < |s| && keep(s[i]) ==> s[i] in r
    ensures multiset(r) <= multiset(s)
  {
    if s == [] then []
    else
      assert s == [s[0]] + s[1..];
      if keep(s[0]) then [s[0]] + Filter(s[1..], keep)
      else Filter(s[1..], keep)
  }

  lemma {:induction false} FilterAppend<T>(a: seq<T>, b: seq<T>, keep: T -> bool)
    ensures Filter(a + b, keep) == Filter(a, keep) + Filter(b, keep)
  {
    if a == [] {
      assert a + b == b;
    } else {
      assert (a + b)[1..] == a[1..] + b;
      FilterAppend(a[1..], b, keep);
    }
  }

  lemma {:induction false} FilterAll<T>(s: seq<T>, keep: T -> bool)
    requires forall x :: x in s ==> keep(x)
    ensures Filter(s, keep) == s
  {
    if s != [] {
      FilterAll(s[1..], keep);
    }
  }

  lemma {:induction false} FilterNone<T>(s: seq<T>, keep: T -> bool)
    requires forall x :: x in s ==> !keep(x)
    ensures Filter(s, keep) == []
  {
    if s != [] {
      FilterNone(s[1..], keep);
    }
  }

  lemma {:induction false} FilterSameOn<T>(s: seq<T>, f: T -> bool, g: T -> bool)
    requires forall x :: x in s ==> (f(x) <==> g(x))
    ensures Filter(s, f) == Filter(s, g)
  {
    if s != [] {
      FilterSameOn(s[1..], f, g);
    }
  }

  /** Filtering again by a condition every kept element meets changes
      nothing. */
  lemma FilterAgain<T>(s: seq<T>, f: T -> bool, g: T -> bool)
    requires forall x :: x in s && f(x) ==> g(x)
    ensures Filter(Filter(s, f), g) == Filter(s, f)
  {
    var r := Filter(s, f);
    forall x | x in r ensures g(x) {
      var i :| 0 <= i < |r| && r[i] == x;
    }
    FilterAll(r, g);
  }

  /** The position of the first element satisfying p (FirstOrDefault,
      FindAsync on a key), or None. */
  function FindIndex<T>(s: seq<T>, p: T -> bool): (r: Option<nat>)
    ensures r.Some? ==> r.value < |s| && p(s[r.value])
    ensures r.Some? ==> forall k :: 0 <= k < r.value ==> !p(s[k])
    ensures r.None? <==> forall k :: 0 <= k < |s| ==> !p(s[k])
  {
    if s == [] then None
    else if p(s[0]) then Some(0)
    else
      var r := FindIndex(s[1..], p);
      if r.Some? then Some(r.value + 1) else None
  }

  /** The sequence without its element at i (List.RemoveAt, or a row
      deleted from a table). */
  function RemoveAt<T>(s: seq<T>, i: nat): (r: seq<T>)
    requires i < |s|
    ensures |r| == |s| - 1
    ensures forall k :: 0 <= k < i ==> r[k] == s[k]
    ensures forall k :: i <= k < |r| ==> r[k] == s[k + 1]
  {
    s[..i] + s[i + 1..]
  }

  function Map<T, U>(s: seq<T>, f: T -> U): (r: seq<U>)
    ensures |r| == |s|
    ensures forall i :: 0 <= i < |s| ==> r[i] == f(s[i])
  {
    seq(|s|, i requires 0 <= i < |s| => f(s[i]))
  }

  /** Mapping one more element appends its image. */
  lemma MapSnoc<T, U>(s: seq<T>, j: nat, f: T -> U)
    requires j < |s|
    ensures Map(s[..j + 1], f) == Map(s[..j], f) + [f(s[j])]
  {
  }

  /** Enumerable.Take: the first n elements, none for n <= 0. */
  function Take<T>(s: seq<T>, n: int): (r: seq<T>)
    ensures |r| == if n <= 0 then 0 else if n < |s| then n else |s|
    ensures r <= s
  {
    if n <= 0 then [] else if n < |s| then s[..n] else s
  }

  /** Take keeps a part of the elements. */
  lemma TakeSubMultiset<T>(s: seq<T>, n: int)
    ensures multiset(Take(s, n)) <= multiset(s)
  {
    var r := Take(s, n);
    assert s == r + s[|r|..];
  }

  /** Enumerable.Skip: drop the first n elements, none for n <= 0. */
  function Skip<T>(s: seq<T>, n: int): (r: seq<T>)
    ensures |r| == if n <= 0 then |s| else if n < |s| then |s| - n else 0
    ensures forall i :: 0 <= i < |r| ==> r[i] == s[i + (if n <= 0 then 0 else n)]
  {
    if n <= 0 then s else if n < |s| then s[n..] else []
  }

  // --------------------------------------------------------------- sort

  /** le is total and transitive on the elements of s. */
  ghost predicate PreorderOn<T(!new)>(le: (T, T) -> bool, s: seq<T>)
  {
    && (forall a, b :: a in s && b in s ==> le(a, b) || le(b, a))
    && (forall a, b, c :: a in s && b in s && c in s && le(a, b) && le(b, c) ==> le(a, c))
  }

  ghost predicate SortedBy<T>(le: (T, T) -> bool, s: seq<T>)
  {
    forall i, j :: 0 <= i < j < |s| ==> le(s[i], s[j])
  }

  function Insert<T>(x: T, s: seq<T>, le: (T, T) -> bool): (r: seq<T>)
    ensures multiset(r) == multiset(s) + multiset{x}
    ensures |r| == |s| + 1
  {
    if s == [] then [x]
    else if le(x, s[0]) then [x] + s
    else
      assert s == [s[0]] + s[1..];
      [s[0]] + Insert(x, s[1..], le)
  }

  /** Insertion sort: ORDER BY with le as "may come before". */
  function SortBy<T>(s: seq<T>, le: (T, T) -> bool): (r: seq<T>)
    ensures multiset(r) == multiset(s)
    ensures |r| == |s|
  {
    if s == [] then []
    else
      assert s == [s[0]] + s[1..];
      Insert(s[0], SortBy(s[1..], le), le)
  }

  lemma {:induction false} InsertSorted<T(!new)>(x: T, s: seq<T>, le: (T, T) -> bool)
    requires PreorderOn(le, [x] + s)
    requires SortedBy(le, s)
    ensures SortedBy(le, Insert(x, s, le))
  {
    if s != [] && !le(x, s[0]) {
      var tail := s[1..];
      assert PreorderOn(le, [x] + tail) by {
        forall y | y in [x] + tail ensures y in [x] + s {
          if y != x { assert y in s; }
        }
      }
      InsertSorted(x, tail, le);
      var r := Insert(x, s, le);
      var rt := Insert(x, tail, le);
      assert r == [s[0]] + rt;
      assert le(s[0], x) by { assert s[0] in [x] + s; assert x in [x] + s; }
      HeadBeforeAll(s, x, rt, le);
      ConsSorted(s[0], rt, le);
    }
  }

  /** The head of a sorted sequence comes before everything inserted
      into its tail, when it comes before the inserted element. */
  lemma HeadBeforeAll<T>(s: seq<T>, x: T, rt: seq<T>, le: (T, T) -> bool)
    requires s != [] && SortedBy(le, s) && le(s[0], x)
    requires multiset(rt) == multiset(s[1..]) + multiset{x}
    ensures forall y | y in rt :: le(s[0], y)
  {
    forall y | y in rt ensures le(s[0], y) {
      assert y in multiset(rt);
      if y != x {
        assert y in s[1..];
        var k :| 0 <= k < |s[1..]| && s[1..][k] == y;
        assert s[k + 1] == y;
      }
    }
  }

  lemma ConsSorted<T>(h: T, rt: seq<T>, le: (T, T) -> bool)
    requires SortedBy(le, rt) && forall y | y in rt :: le(h, y)
    ensures SortedBy(le, [h] + rt)
  {
    var r := [h] + rt;
    forall i, j | 0 <= i < j < |r| ensures le(r[i], r[j]) {
      assert r[j] == rt[j - 1];
      if i == 0 {
        assert rt[j - 1] in rt;
      } else {
        assert r[i] == rt[i - 1];
      }
    }
  }

  /** The first n of a sorted copy are all drawn from the original. */
  lemma TakeSortedMembers<T>(s: seq<T>, le: (T, T) -> bool, n: int)
    ensures forall i :: 0 <= i < |Take(SortBy(s, le), n)| ==> Take(SortBy(s, le), n)[i] in s
  {
    SortByMembers(s, le);
    var r := Take(SortBy(s, le), n);
    forall i | 0 <= i < |r| ensures r[i] in s {
      assert r[i] == SortBy(s, le)[i];
    }
  }

  /** Sorting keeps exactly the elements it was given. */
  lemma SortByMembers<T>(s: seq<T>, le: (T, T) -> bool)
    ensures forall x :: x in SortBy(s, le) <==> x in s
  {
    var r := SortBy(s, le);
    forall x ensures x in r <==> x in s {
      assert x in r <==> x in multiset(r);
      assert x in s <==> x in multiset(s);
    }
  }

  /** Take keeps sortedness. */
  lemma TakeSorted<T>(le: (T, T) -> bool, s: seq<T>, n: int)
    requires SortedBy(le, s)
    ensures SortedBy(le, Take(s, n))
  {
  }

  /** The first n of a sorted copy are drawn from the original, and every
      element of the original they leave out comes after each of them:
      ORDER BY ... LIMIT n keeps the n first in the order. */
  lemma TakeSortedTop<T>(s: seq<T>, le: (T, T) -> bool, n: int)
    requires SortedBy(le, SortBy(s, le))
    ensures var r := Take(SortBy(s, le), n);
            && multiset(r) <= multiset(s)
            && forall x, y | x in r && y in multiset(s) - multiset(r) :: le(x, y)
  {
    var t := SortBy(s, le);
    var r := Take(t, n);
    var k := |r|;
    assert t == r + t[k..];
    assert multiset(t) == multiset(r) + multiset(t[k..]);
    assert multiset(s) - multiset(r) == multiset(t[k..]);
    forall x, y | x in r && y in multiset(s) - multiset(r) ensures le(x, y) {
      var i :| 0 <= i < k && r[i] == x;
      assert y in multiset(t[k..]);
      var j :| 0 <= j < |t[k..]| && t[k..][j] == y;
      assert t[i] == x && t[k + j] == y;
    }
  }

  lemma {:induction false} SortSorted<T(!new)>(s: seq<T>, le: (T, T) -> bool)
    requires PreorderOn(le, s)
    ensures SortedBy(le, SortBy(s, le))
  {
    if s != [] {
      var rest := SortBy(s[1..], le);
      SortSorted(s[1..], le);
      assert forall y :: y in [s[0]] + rest ==> y in s by {
        forall y | y in [s[0]] + rest ensures y in s {
          if y != s[0] {
            assert y in multiset(rest);
            assert y in multiset(s[1..]);
          }
        }
      }
      InsertSorted(s[0], rest, le);
    }
  }

  // --------------------------------------------------------- arithmetic

  function Sum(xs: seq<real>): real
  {
    if xs == [] then 0.0 else Sum(xs[..|xs| - 1]) + xs[|xs| - 1]
  }

  lemma {:induction false} SumAppend(xs: seq<real>, ys: seq<real>)
    ensures Sum(xs + ys) == Sum(xs) + Sum(ys)
  {
    if ys != [] {
      assert (xs + ys)[..|xs + ys| - 1] == xs + ys[..|ys| - 1];
      SumAppend(xs, ys[..|ys| - 1]);
    } else {
      assert xs + ys == xs;
    }
  }

  const TwoTo32: int := 0x1_0000_0000
  const Int32Min: int := -0x8000_0000

  /** Two's-complement wrap-around of C#'s unchecked int arithmetic. */
  function WrapInt32(x: int): (r: int)
    ensures Int32Min <= r < Int32Min + TwoTo32
    ensures (r - x) % TwoTo32 == 0
    ensures Int32Min <= x < Int32Min + TwoTo32 ==> r == x
  {
    (x - Int32Min) % TwoTo32 + Int32Min
  }
}
