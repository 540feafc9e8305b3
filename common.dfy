/** Small shared vocabulary: optional values, results, integer helpers and
    facts about strictly increasing offset lists. */
module Common {

  datatype Option<+T> = None | Some(value: T)

  datatype Result<+T, +E> = Ok(value: T) | Err(error: E) {
    predicate IsFailure() { Err? }
    function PropagateFailure<U>(): Result<U, E>
      requires Err?
    {
      Err(error)
    }
    function Extract(): T
      requires Ok?
    {
      value
    }
  }

  function Min(a: int, b: int): int { if a <= b then a else b }

  function Max(a: int, b: int): int { if a >= b then a else b }

  /** `s` concatenated with itself `n` times (Python's `s * n`). */
  function Repeat<T>(s: seq<T>, n: nat): (r: seq<T>)
    ensures |r| == n * |s|
  {
    if n == 0 then [] else Repeat(s, n - 1) + s
  }

  predicate StartsWith<T(==)>(s: seq<T>, prefix: seq<T>)
  {
    |prefix| <= |s| && s[..|prefix|] == prefix
  }

  /** `needle` occurs in `hay` starting at index `i`. */
  predicate OccursAt<T(==)>(hay: seq<T>, needle: seq<T>, i: int)
  {
    0 <= i && i + |needle| <= |hay| && hay[i..i + |needle|] == needle
  }

  /** `needle` occurs somewhere in `hay` (Python's `needle in hay`). */
  predicate Contains<T(==)>(hay: seq<T>, needle: seq<T>)
  {
    exists i :: 0 <= i <= |hay| && OccursAt(hay, needle, i)
  }

  predicate StrictlyIncreasing(xs: seq<int>)
  {
    forall i, j :: 0 <= i < j < |xs| ==> xs[i] < xs[j]
  }

  /** The element at a valid index belongs to the list. */
  lemma MemberAt(a: seq<int>, i: int, y: int)
    requires 0 <= i < |a| && y == a[i]
    ensures y in a
  {
  }

  /** A list none of whose candidates belong to it is empty. */
  lemma EmptyIfNoMember(a: seq<int>)
    requires forall x :: x !in a
    ensures a == []
  {
    if a != [] {
      var y := a[0];
      MemberAt(a, 0, y);
      assert false;
    }
  }

  /** In a strictly increasing list, the tail holds exactly the elements other
      than the head. */
  lemma TailMembers(s: seq<int>, x: int)
    requires StrictlyIncreasing(s) && s != []
    ensures x in s[1..] <==> x in s && x != s[0]
  {
    if x in s[1..] {
      var k :| 0 <= k < |s[1..]| && s[1..][k] == x;
      assert s[0] < s[k + 1];
      MemberAt(s, k + 1, x);
    }
    if x in s && x != s[0] {
      var k :| 0 <= k < |s| && s[k] == x;
      assert k != 0;
      MemberAt(s[1..], k - 1, x);
    }
  }

  /** The head of a strictly increasing list is its least element. */
  lemma HeadIsLeast(s: seq<int>, i: int)
    requires StrictlyIncreasing(s) && 0 <= i < |s|
    ensures s[0] <= s[i]
  {
    if i > 0 {
      assert s[0] < s[i];
    }
  }

  /** Two strictly increasing lists, every element of the first below every
      element of the second, concatenate to a strictly increasing list. */
  lemma ConcatIncreasing(a: seq<int>, b: seq<int>)
    requires StrictlyIncreasing(a) && StrictlyIncreasing(b)
    requires forall i, j :: 0 <= i < |a| && 0 <= j < |b| ==> a[i] < b[j]
    ensures StrictlyIncreasing(a + b)
  {
  }

  /** Concatenation regroups. */
  lemma ConcatAssoc<T>(a: seq<T>, b: seq<T>, c: seq<T>)
    ensures a + (b + c) == (a + b) + c
  {
  }

  /** Moving one element across a concatenation. */
  lemma MoveAcross<T>(a: seq<T>, x: T, b: seq<T>, c: seq<T>)
    ensures a + (([x] + b) + c) == (a + [x]) + (b + c)
  {
  }

  /** Every element of a list moved by `k`. */
  function Shift(xs: seq<int>, k: int): (r: seq<int>)
    ensures |r| == |xs| && forall i :: 0 <= i < |xs| ==> r[i] == xs[i] + k
  {
    seq(|xs|, i requires 0 <= i < |xs| => xs[i] + k)
  }

  /** Shifting keeps a list strictly increasing. */
  lemma ShiftIncreasing(xs: seq<int>, k: int)
    requires StrictlyIncreasing(xs)
    ensures StrictlyIncreasing(Shift(xs, k))
  {
  }

  /** Shifting distributes over a leading element. */
  lemma ShiftCons(x: int, xs: seq<int>, k: int)
    ensures Shift([x] + xs, k) == [x + k] + Shift(xs, k)
  {
    assert Shift([x] + xs, k)[1..] == Shift(xs, k);
  }

  /** Shifting distributes over concatenation. */
  lemma ShiftConcat(a: seq<int>, b: seq<int>, k: int)
    ensures Shift(a + b, k) == Shift(a, k) + Shift(b, k)
  {
  }

  /** The members of a shifted list are the shifted members. */
  lemma ShiftMembers(xs: seq<int>, k: int, x: int)
    ensures x in Shift(xs, k) <==> x - k in xs
  {
    var r := Shift(xs, k);
    if x in r {
      var i :| 0 <= i < |r| && r[i] == x;
      MemberAt(xs, i, x - k);
    }
    if x - k in xs {
      var i :| 0 <= i < |xs| && xs[i] == x - k;
      MemberAt(r, i, x);
    }
  }

  /** Two strictly increasing lists with the same elements are the same list:
      the fact behind every "same hits in the same order" theorem below. */
  lemma {:induction false} IncreasingUnique(a: seq<int>, b: seq<int>)
    requires StrictlyIncreasing(a) && StrictlyIncreasing(b)
    requires forall x :: x in a <==> x in b
    ensures a == b
  {
    if a == [] {
      EmptyIfNoMember(b);
    } else if b == [] {
      EmptyIfNoMember(a);
    } else {
      var ha, hb := a[0], b[0];
      MemberAt(a, 0, ha);
      MemberAt(b, 0, hb);
      var i :| 0 <= i < |b| && b[i] == ha;
      var j :| 0 <= j < |a| && a[j] == hb;
      HeadIsLeast(b, i);
      HeadIsLeast(a, j);
      forall x ensures x in a[1..] <==> x in b[1..] {
        TailMembers(a, x);
        TailMembers(b, x);
      }
      IncreasingUnique(a[1..], b[1..]);
      assert a == [ha] + a[1..];
      assert b == [hb] + b[1..];
    }
  }
}
