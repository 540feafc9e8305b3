/** Path specifications: the ordered list of path segments that addresses a
    node, its collapsed single-path form, and appending a child. Segments are
    only OS paths here, so a segment is just its path string. */
module PathSpecs {

  type PathSpec = seq<string>

  /** A path component: non-empty and free of separators. */
  predicate IsName(n: string)
  {
    n != [] && forall i :: 0 <= i < |n| ==> n[i] != '/'
  }

  /** Length of the leading run of non-separator characters. */
  function NameLength(s: string): (k: nat)
    ensures k <= |s|
    ensures forall i :: 0 <= i < k ==> s[i] != '/'
    ensures k < |s| ==> s[k] == '/'
  {
    if s == [] || s[0] == '/' then 0 else 1 + NameLength(s[1..])
  }

  /** The components of a path: split on '/' with empty pieces dropped, so
      "/mock2/" and "mock2" both give ["mock2"]. */
  function Components(s: string): (cs: seq<string>)
    ensures forall i :: 0 <= i < |cs| ==> IsName(cs[i])
    decreases |s|
  {
    if s == [] then []
    else if s[0] == '/' then Components(s[1..])
    else
      var k := NameLength(s);
      [s[..k]] + Components(s[k..])
  }

  /** Components joined by '/', without a leading separator. */
  function Join(cs: seq<string>): string
  {
    if cs == [] then ""
    else if |cs| == 1 then cs[0]
    else cs[0] + "/" + Join(cs[1..])
  }

  /** All components of all segments, outermost segment first. */
  function SegmentComponents(ps: PathSpec): (cs: seq<string>)
    ensures forall i :: 0 <= i < |cs| ==> IsName(cs[i])
  {
    if ps == [] then []
    else SegmentComponents(ps[..|ps| - 1]) + Components(ps[|ps| - 1])
  }

  /** The single absolute path a path specification addresses. */
  function CollapsePath(ps: PathSpec): (p: string)
    ensures |p| >= 1 && p[0] == '/'
  {
    "/" + Join(SegmentComponents(ps))
  }

  /** The last component of the collapsed path ("" for the root). */
  function Basename(ps: PathSpec): string
  {
    var cs := SegmentComponents(ps);
    if cs == [] then "" else cs[|cs| - 1]
  }

  /** A copy of `ps` with one more segment; `ps` itself is a value and is
      never changed, which is what copying before appending achieves. */
  function Append(ps: PathSpec, child: string): (r: PathSpec)
    ensures |r| == |ps| + 1 && r[..|ps|] == ps && r[|ps|] == child
  {
    ps + [child]
  }

  lemma {:induction false} NameLengthAt(n: string, rest: string)
    requires forall i :: 0 <= i < |n| ==> n[i] != '/'
    requires rest == [] || rest[0] == '/'
    ensures NameLength(n + rest) == |n|
  {
    if n != [] {
      assert (n + rest)[1..] == n[1..] + rest;
      NameLengthAt(n[1..], rest);
    } else {
      assert n + rest == rest;
    }
  }

  /** Splitting a joined list of names gives the names back. */
  lemma {:induction false} ComponentsOfJoin(cs: seq<string>)
    requires forall i :: 0 <= i < |cs| ==> IsName(cs[i])
    ensures Components(Join(cs)) == cs
  {
    if cs == [] {
    } else if |cs| == 1 {
      var c := cs[0];
      NameLengthAt(c, "");
      assert c + "" == c;
      assert c[|c|..] == [];
      assert c[..|c|] == c;
    } else {
      var c, j := cs[0], Join(cs[1..]);
      var s := c + ("/" + j);
      assert s == c + "/" + j;
      NameLengthAt(c, "/" + j);
      assert s[..|c|] == c;
      assert s[|c|..] == "/" + j;
      assert ("/" + j)[1..] == j;
      ComponentsOfJoin(cs[1..]);
      assert cs == [c] + cs[1..];
    }
  }

  /** A name is its own single component. */
  lemma ComponentsOfName(n: string)
    requires IsName(n)
    ensures Components(n) == [n]
  {
    ComponentsOfJoin([n]);
  }

  lemma {:induction false} JoinSnoc(cs: seq<string>, n: string)
    requires cs != []
    ensures Join(cs + [n]) == Join(cs) + "/" + n
  {
    if |cs| == 1 {
      assert cs + [n] == [cs[0], n];
      assert [cs[0], n][1..] == [n];
    } else {
      JoinSnoc(cs[1..], n);
      assert (cs + [n])[1..] == cs[1..] + [n];
    }
  }

  /** Collapsing is a normal form: the collapsed path, taken as a one-segment
      path specification, collapses to itself. */
  lemma CollapseIdempotent(ps: PathSpec)
    ensures CollapsePath([CollapsePath(ps)]) == CollapsePath(ps)
  {
    var cs := SegmentComponents(ps);
    var p := CollapsePath(ps);
    assert p == "/" + Join(cs);
    assert p[1..] == Join(cs);
    ComponentsOfJoin(cs);
    assert [p][..0] == [];
    assert SegmentComponents([p]) == SegmentComponents([]) + Components(p);
    assert Components(p) == Components(p[1..]);
    assert SegmentComponents([p]) == cs;
  }

  /** Appending a child name below a non-root path specification collapses to
      the parent's path, a separator and the name: the path the listing of
      that parent stats for the child. */
  lemma CollapseAppend(ps: PathSpec, child: string)
    requires IsName(child) && SegmentComponents(ps) != []
    ensures CollapsePath(Append(ps, child)) == CollapsePath(ps) + "/" + child
    ensures Basename(Append(ps, child)) == child
  {
    var r := Append(ps, child);
    var cs := SegmentComponents(ps);
    assert r[..|r| - 1] == ps && r[|r| - 1] == child;
    ComponentsOfName(child);
    assert SegmentComponents(r) == cs + [child];
    JoinSnoc(cs, child);
    assert CollapsePath(r) == "/" + (Join(cs) + "/" + child);
  }
}
