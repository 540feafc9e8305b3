/** Search patterns: a literal, or a regular expression made of a fixed
    sequence of character classes (enough for "1[0]", "Secret", "." and the
    "mp3" that ".*mp3" searches for). Patterns are generic in the symbol type
    so that the same matcher runs over file bytes and over path strings. */
module Patterns {
  import opened Common

  /** One position of a regular expression: a set of allowed symbols
      ("[0]", a plain character) or the complement of a set ("." is the
      complement of the newline). */
  datatype CharClass<T> = OneOf(allowed: set<T>) | NoneOf(excluded: set<T>)

  datatype Pattern<T> = Literal(needle: seq<T>) | Regex(classes: seq<CharClass<T>>)

  predicate ClassMatches<T(==)>(c: CharClass<T>, x: T)
  {
    match c
    case OneOf(allowed) => x in allowed
    case NoneOf(excluded) => x !in excluded
  }

  /** Every match of a pattern has this length. */
  function PatternLength<T>(p: Pattern<T>): nat
  {
    match p
    case Literal(needle) => |needle|
    case Regex(classes) => |classes|
  }

  /** `p` matches `d` at offset `o`, wholly inside `d`. */
  predicate MatchAt<T(==)>(d: seq<T>, p: Pattern<T>, o: int)
  {
    && 0 <= o && o + PatternLength(p) <= |d|
    && match p
       case Literal(needle) => d[o..o + |needle|] == needle
       case Regex(classes) => forall k :: 0 <= k < |classes| ==> ClassMatches(classes[k], d[o + k])
  }

  /** Python's re.search: the pattern matches somewhere. */
  predicate Found<T(==)>(d: seq<T>, p: Pattern<T>)
  {
    exists o :: 0 <= o <= |d| && MatchAt(d, p, o)
  }

  /** The offsets in [from, to) at which `p` matches `d`, in increasing order:
      the whole-buffer search every scanner is measured against. */
  function MatchOffsets<T(==)>(d: seq<T>, p: Pattern<T>, from: int, to: int): (r: seq<int>)
    decreases to - from
  {
    if from >= to then []
    else
      var rest := MatchOffsets(d, p, from + 1, to);
      if MatchAt(d, p, from) then [from] + rest else rest
  }

  /** The search reports matches in [from, to) in strictly increasing order. */
  lemma {:induction false} MatchOffsetsIncreasing<T>(d: seq<T>, p: Pattern<T>, from: int, to: int)
    decreases to - from
    ensures var r := MatchOffsets(d, p, from, to);
      StrictlyIncreasing(r) && forall i :: 0 <= i < |r| ==> from <= r[i] < to && MatchAt(d, p, r[i])
  {
    if from < to {
      MatchOffsetsIncreasing(d, p, from + 1, to);
    }
  }

  /** The search finds exactly the matches in [from, to). */
  lemma {:induction false} MatchOffsetsMembers<T>(d: seq<T>, p: Pattern<T>, from: int, to: int, o: int)
    decreases to - from
    ensures o in MatchOffsets(d, p, from, to) <==> (from <= o < to && MatchAt(d, p, o))
  {
    if from < to {
      MatchOffsetsMembers(d, p, from + 1, to, o);
    }
  }

  /** The matches in [from, to) are those in [from, mid) followed by those in
      [mid, to). */
  lemma {:induction false} MatchOffsetsSplit<T>(d: seq<T>, p: Pattern<T>, from: int, mid: int, to: int)
    requires from <= mid <= to
    ensures MatchOffsets(d, p, from, to) == MatchOffsets(d, p, from, mid) + MatchOffsets(d, p, mid, to)
    decreases mid - from
  {
    if from < mid {
      MatchOffsetsSplit(d, p, from + 1, mid, to);
    }
  }

  /** A literal as a regular expression: one singleton class per symbol. */
  function LiteralClasses<T>(needle: seq<T>): (r: seq<CharClass<T>>)
    ensures |r| == |needle|
    ensures forall k :: 0 <= k < |r| ==> r[k] == OneOf({needle[k]})
  {
    seq(|needle|, k requires 0 <= k < |needle| => OneOf({needle[k]}))
  }

  /** A literal and the regular expression spelling it out symbol by symbol
      match at exactly the same offsets. */
  lemma LiteralIsRegex<T>(d: seq<T>, needle: seq<T>, o: int)
    ensures MatchAt(d, Literal(needle), o) <==> MatchAt(d, Regex(LiteralClasses(needle)), o)
  {
    var cs := LiteralClasses(needle);
    if 0 <= o && o + |needle| <= |d| {
      if MatchAt(d, Regex(cs), o) {
        forall k | 0 <= k < |needle| ensures d[o..o + |needle|][k] == needle[k] {
          assert ClassMatches(cs[k], d[o + k]);
        }
      }
      if MatchAt(d, Literal(needle), o) {
        forall k | 0 <= k < |cs| ensures ClassMatches(cs[k], d[o + k]) {
          assert d[o..o + |needle|][k] == needle[k];
        }
      }
    }
  }

  /** Two patterns that match at the same offsets yield the same ordered
      offset list. */
  lemma SameMatchesSameOffsets<T>(d: seq<T>, p: Pattern<T>, q: Pattern<T>, from: int, to: int)
    requires forall o :: MatchAt(d, p, o) <==> MatchAt(d, q, o)
    ensures MatchOffsets(d, p, from, to) == MatchOffsets(d, q, from, to)
  {
    forall o ensures o in MatchOffsets(d, p, from, to) <==> o in MatchOffsets(d, q, from, to) {
      MatchOffsetsMembers(d, p, from, to, o);
      MatchOffsetsMembers(d, q, from, to, o);
    }
    MatchOffsetsIncreasing(d, p, from, to);
    MatchOffsetsIncreasing(d, q, from, to);
    IncreasingUnique(MatchOffsets(d, p, from, to), MatchOffsets(d, q, from, to));
  }

  /** Searching a slice is searching the data within the slice's bounds. */
  lemma MatchAtSlice<T>(d: seq<T>, p: Pattern<T>, lo: int, hi: int, j: int)
    requires 0 <= lo <= hi <= |d|
    ensures MatchAt(d[lo..hi], p, j) <==> j >= 0 && MatchAt(d, p, lo + j) && lo + j + PatternLength(p) <= hi
  {
    var m := PatternLength(p);
    if 0 <= j && j + m <= hi - lo {
      match p
      case Literal(needle) =>
        var inSlice, inData := d[lo..hi][j..j + m], d[lo + j..lo + j + m];
        assert |inSlice| == |inData|;
        assert forall k :: 0 <= k < m ==> inSlice[k] == inData[k];
      case Regex(classes) =>
        var s := d[lo..hi];
        assert forall k :: 0 <= k < m ==> (ClassMatches(classes[k], s[j + k]) <==> ClassMatches(classes[k], d[lo + j + k]));
    }
  }
}
