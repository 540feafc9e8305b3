/** The Find client action: a depth-first walk below a root path
    specification that reports the entries whose path and content match,
    stops after a quota of hits, and hands back a cursor from which the next
    call resumes. */
module Find {
  import opened Common
  import opened Bytes
  import opened Patterns
  import opened PathSpecs
  import opened MockVfs
  import Grep

  datatype IterState = Running | Finished

  /** The cursor: how many hits a call may report, whether the walk is over,
      and the walker's uninterpreted resumption data (here, under one key, the
      entries still to visit). */
  datatype Iterator = Iterator(number: nat, state: IterState, clientState: map<string, seq<Entry>>)

  /** The key under which the pending entries travel in the cursor. */
  const PendingKey: string := "pending"

  /** The cursor of a fresh walk. */
  function NewIterator(number: nat): Iterator
  {
    Iterator(number, Running, map[])
  }

  /** A request: the root, an optional path filter and an optional content
      filter (absent when empty), the device policy and the cursor. */
  datatype FindRequest = FindRequest(
    pathspec: PathSpec,
    pathRegex: seq<CharClass<char>> := [],
    dataRegex: seq<CharClass<Byte>> := [],
    crossDevs: bool := false,
    cursor: Iterator := NewIterator(0))

  /** The two filters of a request. */
  datatype Filter = Filter(pathRegex: seq<CharClass<char>>, dataRegex: seq<CharClass<Byte>>)

  function FilterOf(req: FindRequest): Filter
  {
    Filter(req.pathRegex, req.dataRegex)
  }

  /** What one call returns: its hits and the cursor for the next call. */
  datatype FindResponse = FindResponse(hits: seq<StatEntry>, cursor: Iterator)

  // ---------------------------------------------------------------------
  // The filesystems the walk terminates on.

  /** No key begins with a doubled separator, and every listed name that
      leads to a mapped path is a plain name, so each listed child lies one
      level below its parent. */
  ghost predicate WellFormed(fs: Filesystem)
  {
    forall k :: k in fs ==>
      && !(|k| >= 2 && k[0] == '/' && k[1] == '/')
      && forall n :: n in Names(fs[k]) && k + "/" + n in fs ==> IsName(n)
  }

  /** An entry as the listing of its parent produced it: its path is mapped,
      its path specification collapses to that path, and it carries that
      path's stat. */
  predicate GoodEntry(fs: Filesystem, e: Entry)
  {
    && e.path in fs
    && CollapsePath(e.stat.pathspec) == e.path
    && DoStat(fs, e.path) == Some(e.stat.(pathspec := []))
  }

  predicate AllGood(fs: Filesystem, es: seq<Entry>)
  {
    forall i :: 0 <= i < |es| ==> GoodEntry(fs, es[i])
  }

  /** The mapped paths at least as long as `path`: what is left to descend
      into below it. */
  function Above(fs: Filesystem, path: string): set<string>
  {
    set k | k in fs && |k| >= |path|
  }

  /** The entries listing an entry's node yields (opened by its path
      specification). */
  function Children(fs: Filesystem, e: Entry): seq<Entry>
  {
    Listing(fs, CollapsePath(e.stat.pathspec), e.stat.pathspec)
  }

  /** "//" followed by a name is no key of a well-formed filesystem. */
  lemma DoubleSlashUnmapped(fs: Filesystem, n: string)
    requires WellFormed(fs)
    ensures "/" + "/" + n !in fs
  {
    var k := "/" + "/" + n;
    assert k[0] == '/' && k[1] == '/';
  }

  /** The listing of a well-formed directory yields well-formed entries, each
      one level deeper than its parent. */
  lemma ListingGood(fs: Filesystem, ps: PathSpec)
    requires WellFormed(fs)
    ensures var cs := Listing(fs, CollapsePath(ps), ps);
      && AllGood(fs, cs)
      && forall i :: 0 <= i < |cs| ==> |cs[i].path| > |CollapsePath(ps)|
  {
    var p := CollapsePath(ps);
    var cs := Listing(fs, p, ps);
    if p in fs {
      var names := Names(fs[p]);
      assert cs == ListingFrom(fs, p, ps, names);
      if SegmentComponents(ps) == [] {
        if names != [] && p + "/" + names[0] in fs {
          assert names[0] in names;
          assert p == "/";
          DoubleSlashUnmapped(fs, names[0]);
        }
        assert cs == [];
      } else {
        forall i | 0 <= i < |cs|
          ensures GoodEntry(fs, cs[i]) && |cs[i].path| > |p|
        {
          assert names[i] in names;
          CollapseAppend(ps, names[i]);
        }
      }
    }
  }

  /** Descending into a directory entry moves strictly down the measure. */
  lemma ChildrenBelow(fs: Filesystem, e: Entry)
    requires WellFormed(fs) && GoodEntry(fs, e)
    ensures var cs := Children(fs, e);
      && AllGood(fs, cs)
      && forall i :: 0 <= i < |cs| ==> Above(fs, cs[i].path) < Above(fs, e.path)
  {
    var cs := Children(fs, e);
    ListingGood(fs, e.stat.pathspec);
    forall i | 0 <= i < |cs|
      ensures Above(fs, cs[i].path) < Above(fs, e.path)
    {
      assert e.path in Above(fs, e.path) && e.path !in Above(fs, cs[i].path);
    }
  }

  // ---------------------------------------------------------------------
  // The walk.

  /** The walk enters a directory unless it lies on another device than the
      root and crossing devices was not asked for. Files are never entered. */
  predicate Descends(e: Entry, rootDev: int, crossDevs: bool)
  {
    IsDirMode(e.stat.stMode) && (crossDevs || e.stat.stDev == rootDev)
  }

  /** The entries the walk visits from `e` on, in depth-first preorder: the
      entry itself, then the subtrees of its children in listing order. */
  function Visit(fs: Filesystem, rootDev: int, crossDevs: bool, e: Entry): (r: seq<Entry>)
    requires WellFormed(fs) && GoodEntry(fs, e)
    decreases Above(fs, e.path), 1, 0
  {
    [e] + if Descends(e, rootDev, crossDevs) then
      ChildrenBelow(fs, e);
      VisitAll(fs, rootDev, crossDevs, Children(fs, e), Above(fs, e.path))
    else []
  }

  function VisitAll(fs: Filesystem, rootDev: int, crossDevs: bool, cs: seq<Entry>, bound: set<string>): (r: seq<Entry>)
    requires WellFormed(fs) && AllGood(fs, cs)
    requires forall i :: 0 <= i < |cs| ==> Above(fs, cs[i].path) < bound
    decreases bound, 0, |cs|
  {
    if cs == [] then []
    else Visit(fs, rootDev, crossDevs, cs[0]) + VisitAll(fs, rootDev, crossDevs, cs[1..], bound)
  }

  /** The entries still to visit from a stack of pending entries, the first
      pending entry's subtree first. */
  function Pending(fs: Filesystem, rootDev: int, crossDevs: bool, stack: seq<Entry>): (r: seq<Entry>)
    requires WellFormed(fs) && AllGood(fs, stack)
    decreases |stack|
  {
    if stack == [] then []
    else Visit(fs, rootDev, crossDevs, stack[0]) + Pending(fs, rootDev, crossDevs, stack[1..])
  }

  lemma {:induction false} VisitAllIsPending(fs: Filesystem, rootDev: int, crossDevs: bool, cs: seq<Entry>, bound: set<string>)
    requires WellFormed(fs) && AllGood(fs, cs)
    requires forall i :: 0 <= i < |cs| ==> Above(fs, cs[i].path) < bound
    ensures VisitAll(fs, rootDev, crossDevs, cs, bound) == Pending(fs, rootDev, crossDevs, cs)
    decreases |cs|
  {
    if cs != [] {
      VisitAllIsPending(fs, rootDev, crossDevs, cs[1..], bound);
    }
  }

  lemma AllGoodConcat(fs: Filesystem, a: seq<Entry>, b: seq<Entry>)
    requires AllGood(fs, a) && AllGood(fs, b)
    ensures AllGood(fs, a + b)
  {
    forall i | 0 <= i < |a + b|
      ensures GoodEntry(fs, (a + b)[i])
    {
      if i < |a| {
        assert (a + b)[i] == a[i];
      } else {
        assert (a + b)[i] == b[i - |a|];
      }
    }
  }

  lemma {:induction false} PendingConcat(fs: Filesystem, rootDev: int, crossDevs: bool, a: seq<Entry>, b: seq<Entry>)
    requires WellFormed(fs) && AllGood(fs, a) && AllGood(fs, b)
    ensures AllGood(fs, a + b)
    ensures Pending(fs, rootDev, crossDevs, a + b) == Pending(fs, rootDev, crossDevs, a) + Pending(fs, rootDev, crossDevs, b)
    decreases |a|
  {
    AllGoodConcat(fs, a, b);
    if a == [] {
      assert a + b == b;
    } else {
      var ab, rest := a + b, a[1..];
      assert ab[0] == a[0] && ab[1..] == rest + b;
      assert AllGood(fs, rest);
      PendingConcat(fs, rootDev, crossDevs, rest, b);
      ConcatAssoc(Visit(fs, rootDev, crossDevs, a[0]), Pending(fs, rootDev, crossDevs, rest), Pending(fs, rootDev, crossDevs, b));
    }
  }

  /** The stack after visiting the first pending entry: its children, if the
      walk enters it, in front of the rest. */
  function NextStack(fs: Filesystem, rootDev: int, crossDevs: bool, stack: seq<Entry>): seq<Entry>
    requires stack != []
  {
    (if Descends(stack[0], rootDev, crossDevs) then Children(fs, stack[0]) else []) + stack[1..]
  }

  /** Visiting the first pending entry consumes exactly that entry of the
      preorder and leaves the rest to the new stack. */
  lemma PendingStep(fs: Filesystem, rootDev: int, crossDevs: bool, stack: seq<Entry>)
    requires WellFormed(fs) && AllGood(fs, stack) && stack != []
    ensures AllGood(fs, NextStack(fs, rootDev, crossDevs, stack))
    ensures Pending(fs, rootDev, crossDevs, stack)
      == [stack[0]] + Pending(fs, rootDev, crossDevs, NextStack(fs, rootDev, crossDevs, stack))
  {
    var e := stack[0];
    var cs := if Descends(e, rootDev, crossDevs) then Children(fs, e) else [];
    if Descends(e, rootDev, crossDevs) {
      ChildrenBelow(fs, e);
      VisitAllIsPending(fs, rootDev, crossDevs, cs, Above(fs, e.path));
    }
    assert AllGood(fs, cs);
    assert Visit(fs, rootDev, crossDevs, e) == [e] + Pending(fs, rootDev, crossDevs, cs);
    PendingConcat(fs, rootDev, crossDevs, cs, stack[1..]);
    ConcatAssoc([e], Pending(fs, rootDev, crossDevs, cs), Pending(fs, rootDev, crossDevs, stack[1..]));
  }

  // ---------------------------------------------------------------------
  // Filters and hits.

  /** The path filter: absent, or found in the entry's collapsed path. */
  predicate PathMatches(f: Filter, e: Entry)
  {
    f.pathRegex == [] || Found(CollapsePath(e.stat.pathspec), Regex(f.pathRegex))
  }

  /** The content scan of the node `ps` opens finds a match: the node is a
      mapped file and the block-by-block Grep of all of it reports something. */
  predicate FileHasMatch(fs: Filesystem, cfg: Grep.SearchConfig, ps: PathSpec, p: Pattern<Byte>)
  {
    var path := CollapsePath(ps);
    && path in fs && fs[path].File?
    && Grep.ChunkedGrep(fs[path].content, p, 0, |fs[path].content|, cfg, 0, 0, 0) != []
  }

  /** The content filter: absent, or the entry is a regular file whose scan
      finds a match. */
  predicate DataMatches(fs: Filesystem, cfg: Grep.SearchConfig, f: Filter, e: Entry)
  {
    f.dataRegex == [] || (IsRegMode(e.stat.stMode) && FileHasMatch(fs, cfg, e.stat.pathspec, Regex(f.dataRegex)))
  }

  predicate Matches(fs: Filesystem, cfg: Grep.SearchConfig, f: Filter, e: Entry)
  {
    PathMatches(f, e) && DataMatches(fs, cfg, f, e)
  }

  /** The stats of the matching entries, in order. */
  function HitsOf(fs: Filesystem, cfg: Grep.SearchConfig, f: Filter, es: seq<Entry>): seq<StatEntry>
    decreases |es|
  {
    if es == [] then []
    else (if Matches(fs, cfg, f, es[0]) then [es[0].stat] else []) + HitsOf(fs, cfg, f, es[1..])
  }

  /** The hits of a list are the stats of exactly its matching entries. */
  lemma {:induction false} HitsOfMembers(fs: Filesystem, cfg: Grep.SearchConfig, f: Filter, es: seq<Entry>, x: StatEntry)
    decreases |es|
    ensures x in HitsOf(fs, cfg, f, es) <==> exists i :: 0 <= i < |es| && Matches(fs, cfg, f, es[i]) && es[i].stat == x
  {
    if es != [] {
      HitsOfMembers(fs, cfg, f, es[1..], x);
      if x in HitsOf(fs, cfg, f, es[1..]) {
        var i :| 0 <= i < |es[1..]| && Matches(fs, cfg, f, es[1..][i]) && es[1..][i].stat == x;
        assert es[i + 1] == es[1..][i];
      }
      if exists i :: 0 <= i < |es| && Matches(fs, cfg, f, es[i]) && es[i].stat == x {
        var i :| 0 <= i < |es| && Matches(fs, cfg, f, es[i]) && es[i].stat == x;
        if i > 0 {
          assert es[1..][i - 1] == es[i];
        }
      }
    }
  }

  lemma {:induction false} HitsOfConcat(fs: Filesystem, cfg: Grep.SearchConfig, f: Filter, a: seq<Entry>, b: seq<Entry>)
    decreases |a|
    ensures HitsOf(fs, cfg, f, a + b) == HitsOf(fs, cfg, f, a) + HitsOf(fs, cfg, f, b)
  {
    if a == [] {
      assert a + b == b;
    } else {
      var ab, rest := a + b, a[1..];
      assert ab[0] == a[0] && ab[1..] == rest + b;
      HitsOfConcat(fs, cfg, f, rest, b);
      var h := if Matches(fs, cfg, f, a[0]) then [a[0].stat] else [];
      ConcatAssoc(h, HitsOf(fs, cfg, f, rest), HitsOf(fs, cfg, f, b));
    }
  }

  // ---------------------------------------------------------------------
  // One call.

  /** Where one call ends: its hits and the entries still pending. */
  datatype WalkResult = WalkResult(hits: seq<StatEntry>, stack: seq<Entry>)

  /** The walk of one call: visit pending entries one at a time, reporting
      the matching ones, until the quota is met or nothing is pending. */
  function Walk(fs: Filesystem, cfg: Grep.SearchConfig, f: Filter, crossDevs: bool, rootDev: int,
                stack: seq<Entry>, quota: nat, hits: seq<StatEntry>): (r: WalkResult)
    requires WellFormed(fs) && AllGood(fs, stack)
    decreases |Pending(fs, rootDev, crossDevs, stack)|
    ensures hits <= r.hits
    ensures |hits| <= quota ==> |r.hits| <= quota
    ensures r.stack == [] || |r.hits| >= quota
  {
    if |hits| >= quota || stack == [] then WalkResult(hits, stack)
    else
      PendingStep(fs, rootDev, crossDevs, stack);
      var e := stack[0];
      Walk(fs, cfg, f, crossDevs, rootDev, NextStack(fs, rootDev, crossDevs, stack), quota,
           hits + if Matches(fs, cfg, f, e) then [e.stat] else [])
  }

  /** A call reports the next hits of the preorder, up to the quota, and
      leaves pending exactly the entries whose hits come after them; it
      stops short of the quota only when nothing is left. */
  lemma {:induction false} WalkSound(fs: Filesystem, cfg: Grep.SearchConfig, f: Filter, crossDevs: bool, rootDev: int,
                                     stack: seq<Entry>, quota: nat, hits: seq<StatEntry>)
    requires WellFormed(fs) && AllGood(fs, stack) && |hits| <= quota
    decreases |Pending(fs, rootDev, crossDevs, stack)|
    ensures var all := hits + HitsOf(fs, cfg, f, Pending(fs, rootDev, crossDevs, stack));
      var r := Walk(fs, cfg, f, crossDevs, rootDev, stack, quota, hits);
      && AllGood(fs, r.stack)
      && |r.hits| == Min(quota, |all|)
      && r.hits == all[..|r.hits|]
      && HitsOf(fs, cfg, f, Pending(fs, rootDev, crossDevs, r.stack)) == all[|r.hits|..]
      && (|r.hits| < quota ==> r.stack == [])
  {
    var pend := Pending(fs, rootDev, crossDevs, stack);
    var all := hits + HitsOf(fs, cfg, f, pend);
    if |hits| >= quota {
      assert all[..|hits|] == hits;
    } else if stack == [] {
      assert all == hits;
    } else {
      PendingStep(fs, rootDev, crossDevs, stack);
      var e := stack[0];
      var next := NextStack(fs, rootDev, crossDevs, stack);
      var here := if Matches(fs, cfg, f, e) then [e.stat] else [];
      var rest := HitsOf(fs, cfg, f, Pending(fs, rootDev, crossDevs, next));
      HitsOfConcat(fs, cfg, f, [e], Pending(fs, rootDev, crossDevs, next));
      assert HitsOf(fs, cfg, f, [e]) == here;
      ConcatAssoc(hits, here, rest);
      WalkSound(fs, cfg, f, crossDevs, rootDev, next, quota, hits + here);
    }
  }

  // ---------------------------------------------------------------------
  // Whole calls and the cursor protocol.

  /** The cursor's resumption data, when present, holds entries as listings
      produced them: the caller passes the cursor back unchanged. */
  predicate ValidCursor(fs: Filesystem, c: Iterator)
  {
    PendingKey in c.clientState ==> AllGood(fs, c.clientState[PendingKey])
  }

  /** The entries a call starts from: those the cursor carries, or on a
      fresh walk the listing of the root (the root itself is not reported). */
  function StartStack(fs: Filesystem, req: FindRequest): seq<Entry>
  {
    if PendingKey in req.cursor.clientState then req.cursor.clientState[PendingKey]
    else Listing(fs, CollapsePath(req.pathspec), req.pathspec)
  }

  lemma StartGood(fs: Filesystem, req: FindRequest)
    requires WellFormed(fs) && ValidCursor(fs, req.cursor)
    ensures AllGood(fs, StartStack(fs, req))
  {
    if PendingKey !in req.cursor.clientState {
      ListingGood(fs, req.pathspec);
    }
  }

  /** The device of the root, which the walk does not leave unless asked. */
  function RootDev(fs: Filesystem, req: FindRequest): int
    requires CollapsePath(req.pathspec) in fs
  {
    DoStat(fs, CollapsePath(req.pathspec)).value.stDev
  }

  /** The cursor a walk hands back: finished, with an empty bag, exactly
      when nothing is left pending; otherwise running, carrying the stack. */
  function Respond(number: nat, r: WalkResult): FindResponse
  {
    if r.stack == [] then FindResponse(r.hits, Iterator(number, Finished, map[]))
    else FindResponse(r.hits, Iterator(number, Running, map[PendingKey := r.stack]))
  }

  /** One call: a finished cursor yields nothing and comes back as it was;
      an unmapped root finishes at once; otherwise the walk runs to the
      quota and finishes exactly when nothing is left pending. */
  function FindOutcome(fs: Filesystem, cfg: Grep.SearchConfig, req: FindRequest): (r: FindResponse)
    requires WellFormed(fs) && ValidCursor(fs, req.cursor)
    ensures |r.hits| <= req.cursor.number && r.cursor.number == req.cursor.number
    ensures req.cursor.state == Finished ==> r == FindResponse([], req.cursor)
    ensures req.cursor.state == Running && CollapsePath(req.pathspec) !in fs ==>
              r.hits == [] && r.cursor == Iterator(req.cursor.number, Finished, map[])
    ensures req.cursor.state == Running ==>
              (r.cursor.state == Running ==> |r.hits| == req.cursor.number) &&
              (r.cursor.state == Finished ==> r.cursor.clientState == map[])
  {
    var c := req.cursor;
    if c.state == Finished then FindResponse([], c)
    else if CollapsePath(req.pathspec) !in fs then FindResponse([], Iterator(c.number, Finished, map[]))
    else
      StartGood(fs, req);
      Respond(c.number, Walk(fs, cfg, FilterOf(req), req.crossDevs, RootDev(fs, req), StartStack(fs, req), c.number, []))
  }

  /** The hits a walk from this request still has to report, in order. */
  function Remaining(fs: Filesystem, cfg: Grep.SearchConfig, req: FindRequest): seq<StatEntry>
    requires WellFormed(fs) && ValidCursor(fs, req.cursor)
  {
    if req.cursor.state == Finished || CollapsePath(req.pathspec) !in fs then []
    else
      StartGood(fs, req);
      HitsOf(fs, cfg, FilterOf(req), Pending(fs, RootDev(fs, req), req.crossDevs, StartStack(fs, req)))
  }

  /** A fresh walk of a mapped root has to report the hits among the
      preorder of the root's listing. */
  lemma FreshIsListing(fs: Filesystem, cfg: Grep.SearchConfig, req: FindRequest, number: nat)
    requires WellFormed(fs) && req.cursor == NewIterator(number) && CollapsePath(req.pathspec) in fs
    ensures ValidCursor(fs, req.cursor)
    ensures var cs := Listing(fs, CollapsePath(req.pathspec), req.pathspec);
      && AllGood(fs, cs)
      && Remaining(fs, cfg, req) == HitsOf(fs, cfg, FilterOf(req), Pending(fs, RootDev(fs, req), req.crossDevs, cs))
  {
    StartGood(fs, req);
  }

  /** A walk from a stack reports a prefix of the stack's hits, at most the
      quota; the cursor it hands back carries exactly the rest. */
  lemma RespondSplits(fs: Filesystem, cfg: Grep.SearchConfig, f: Filter, crossDevs: bool, rootDev: int,
                      stack: seq<Entry>, number: nat)
    requires WellFormed(fs) && AllGood(fs, stack)
    ensures var r := Walk(fs, cfg, f, crossDevs, rootDev, stack, number, []);
      var resp := Respond(number, r);
      var all := HitsOf(fs, cfg, f, Pending(fs, rootDev, crossDevs, stack));
      && ValidCursor(fs, resp.cursor)
      && |resp.hits| <= number
      && (resp.cursor.state == Finished ==> resp.hits == all && resp.cursor.clientState == map[])
      && (resp.cursor.state == Running ==>
            && |resp.hits| == number && r.stack != []
            && resp.cursor.clientState == map[PendingKey := r.stack]
            && resp.hits + HitsOf(fs, cfg, f, Pending(fs, rootDev, crossDevs, r.stack)) == all)
  {
    WalkSound(fs, cfg, f, crossDevs, rootDev, stack, number, []);
    var all := HitsOf(fs, cfg, f, Pending(fs, rootDev, crossDevs, stack));
    assert [] + all == all;
    RespondOf(fs, cfg, f, crossDevs, rootDev, number, Walk(fs, cfg, f, crossDevs, rootDev, stack, number, []), all);
  }

  /** The cursor handed back for a walk result that took a prefix of `all`. */
  lemma RespondOf(fs: Filesystem, cfg: Grep.SearchConfig, f: Filter, crossDevs: bool, rootDev: int,
                  number: nat, r: WalkResult, all: seq<StatEntry>)
    requires WellFormed(fs) && AllGood(fs, r.stack)
    requires |r.hits| == Min(number, |all|) && r.hits == all[..|r.hits|]
    requires HitsOf(fs, cfg, f, Pending(fs, rootDev, crossDevs, r.stack)) == all[|r.hits|..]
    requires |r.hits| < number ==> r.stack == []
    ensures var resp := Respond(number, r);
      && ValidCursor(fs, resp.cursor)
      && |resp.hits| <= number
      && (resp.cursor.state == Finished ==> resp.hits == all && resp.cursor.clientState == map[])
      && (resp.cursor.state == Running ==>
            && |resp.hits| == number && r.stack != []
            && resp.cursor.clientState == map[PendingKey := r.stack]
            && resp.hits + HitsOf(fs, cfg, f, Pending(fs, rootDev, crossDevs, r.stack)) == all)
  {
    var resp := Respond(number, r);
    if r.stack == [] {
      assert resp == FindResponse(r.hits, Iterator(number, Finished, map[]));
      assert Pending(fs, rootDev, crossDevs, r.stack) == [];
      assert all[|r.hits|..] == [];
      assert all[..|r.hits|] == all;
    } else {
      assert resp == FindResponse(r.hits, Iterator(number, Running, map[PendingKey := r.stack]));
      assert r.hits + all[|r.hits|..] == all;
    }
  }

  /** A call reports a prefix of what remains, at most its quota, and hands
      back a cursor that resumes with exactly the rest. A running cursor
      comes back only after a full quota, with entries still pending; a
      finished one has nothing left, and an empty bag when the call
      finished it. */
  lemma FindSplits(fs: Filesystem, cfg: Grep.SearchConfig, req: FindRequest)
    requires WellFormed(fs) && ValidCursor(fs, req.cursor)
    ensures var resp := FindOutcome(fs, cfg, req);
      var next := req.(cursor := resp.cursor);
      && ValidCursor(fs, resp.cursor)
      && resp.cursor.number == req.cursor.number
      && resp.hits + Remaining(fs, cfg, next) == Remaining(fs, cfg, req)
      && |resp.hits| <= req.cursor.number
      && (resp.cursor.state == Running ==> |resp.hits| == req.cursor.number && StartStack(fs, next) != [])
      && (resp.cursor.state == Finished ==> Remaining(fs, cfg, next) == [])
      && (resp.cursor.state == Finished && req.cursor.state == Running ==> resp.cursor.clientState == map[])
  {
    var c, resp := req.cursor, FindOutcome(fs, cfg, req);
    var next := req.(cursor := resp.cursor);
    if c.state == Running && CollapsePath(req.pathspec) in fs {
      StartGood(fs, req);
      var dev, stack, f := RootDev(fs, req), StartStack(fs, req), FilterOf(req);
      var r := Walk(fs, cfg, f, req.crossDevs, dev, stack, c.number, []);
      assert resp == Respond(c.number, r);
      RespondSplits(fs, cfg, f, req.crossDevs, dev, stack, c.number);
      assert Remaining(fs, cfg, req) == HitsOf(fs, cfg, f, Pending(fs, dev, req.crossDevs, stack));
      if resp.cursor.state == Running {
        assert StartStack(fs, next) == r.stack && RootDev(fs, next) == dev && FilterOf(next) == f;
      } else {
        assert Remaining(fs, cfg, next) == [];
      }
    } else {
      assert resp.hits == [] && Remaining(fs, cfg, next) == [];
    }
  }

  /** A quota larger than what remains gets everything in one call and
      finishes it. */
  lemma OneShot(fs: Filesystem, cfg: Grep.SearchConfig, req: FindRequest)
    requires WellFormed(fs) && ValidCursor(fs, req.cursor)
    requires req.cursor.number > |Remaining(fs, cfg, req)|
    ensures FindOutcome(fs, cfg, req).hits == Remaining(fs, cfg, req)
    ensures FindOutcome(fs, cfg, req).cursor.state == Finished
    ensures req.cursor.state == Running ==> FindOutcome(fs, cfg, req).cursor == Iterator(req.cursor.number, Finished, map[])
  {
    FindSplits(fs, cfg, req);
  }

  /** Following the returned cursors until one comes back finished. */
  function PageAll(fs: Filesystem, cfg: Grep.SearchConfig, req: FindRequest): seq<StatEntry>
    requires WellFormed(fs) && ValidCursor(fs, req.cursor) && req.cursor.number >= 1
    decreases |Remaining(fs, cfg, req)|
  {
    var resp := FindOutcome(fs, cfg, req);
    FindSplits(fs, cfg, req);
    if resp.cursor.state == Finished then resp.hits
    else resp.hits + PageAll(fs, cfg, req.(cursor := resp.cursor))
  }

  /** Resumption loses and repeats nothing: the pages concatenate to what
      remained. */
  lemma {:induction false} PageAllIsRemaining(fs: Filesystem, cfg: Grep.SearchConfig, req: FindRequest)
    requires WellFormed(fs) && ValidCursor(fs, req.cursor) && req.cursor.number >= 1
    decreases |Remaining(fs, cfg, req)|
    ensures PageAll(fs, cfg, req) == Remaining(fs, cfg, req)
  {
    var resp := FindOutcome(fs, cfg, req);
    FindSplits(fs, cfg, req);
    if resp.cursor.state == Finished {
      assert resp.hits + [] == resp.hits;
    } else {
      PageAllIsRemaining(fs, cfg, req.(cursor := resp.cursor));
    }
  }

  /** Resumption equivalence: paging a fresh walk with any positive quota
      gives the same ordered hits as one call whose quota exceeds them all. */
  lemma PagingIsOneShot(fs: Filesystem, cfg: Grep.SearchConfig, req: FindRequest, page: nat, big: nat)
    requires WellFormed(fs) && page >= 1
    requires big > |Remaining(fs, cfg, req.(cursor := NewIterator(page)))|
    ensures PageAll(fs, cfg, req.(cursor := NewIterator(page))) == FindOutcome(fs, cfg, req.(cursor := NewIterator(big))).hits
    ensures FindOutcome(fs, cfg, req.(cursor := NewIterator(big))).cursor == Iterator(big, Finished, map[])
  {
    var small, large := req.(cursor := NewIterator(page)), req.(cursor := NewIterator(big));
    PageAllIsRemaining(fs, cfg, small);
    assert Remaining(fs, cfg, small) == Remaining(fs, cfg, large);
    OneShot(fs, cfg, large);
    FindSplits(fs, cfg, large);
  }

  // ---------------------------------------------------------------------
  // Filters: what they select.

  /** "." as a path filter: one symbol other than a newline. */
  function DotFilter(): seq<CharClass<char>>
  {
    [NoneOf({'\n'})]
  }

  /** A "." path filter selects exactly what no path filter selects: every
      collapsed path starts with a separator, which "." matches. */
  lemma DotSelectsAll(fs: Filesystem, cfg: Grep.SearchConfig, dataRegex: seq<CharClass<Byte>>, e: Entry)
    ensures Matches(fs, cfg, Filter(DotFilter(), dataRegex), e) == Matches(fs, cfg, Filter([], dataRegex), e)
  {
    var path := CollapsePath(e.stat.pathspec);
    assert MatchAt(path, Regex(DotFilter()), 0);
  }

  /** Two filters that select the same entries give the same walk. */
  lemma {:induction false} WalkCongruent(fs: Filesystem, cfg: Grep.SearchConfig, f: Filter, g: Filter, crossDevs: bool, rootDev: int,
                                         stack: seq<Entry>, quota: nat, hits: seq<StatEntry>)
    requires WellFormed(fs) && AllGood(fs, stack)
    requires forall e :: Matches(fs, cfg, f, e) == Matches(fs, cfg, g, e)
    decreases |Pending(fs, rootDev, crossDevs, stack)|
    ensures Walk(fs, cfg, f, crossDevs, rootDev, stack, quota, hits) == Walk(fs, cfg, g, crossDevs, rootDev, stack, quota, hits)
  {
    if |hits| < quota && stack != [] {
      PendingStep(fs, rootDev, crossDevs, stack);
      var e := stack[0];
      WalkCongruent(fs, cfg, f, g, crossDevs, rootDev, NextStack(fs, rootDev, crossDevs, stack), quota,
                    hits + if Matches(fs, cfg, f, e) then [e.stat] else []);
    }
  }

  /** A find filtered by "." answers exactly as the same find unfiltered. */
  lemma DotIsNoFilter(fs: Filesystem, cfg: Grep.SearchConfig, req: FindRequest)
    requires WellFormed(fs) && ValidCursor(fs, req.cursor)
    ensures FindOutcome(fs, cfg, req.(pathRegex := DotFilter())) == FindOutcome(fs, cfg, req.(pathRegex := []))
  {
    var dot, plain := req.(pathRegex := DotFilter()), req.(pathRegex := []);
    if req.cursor.state == Running && CollapsePath(req.pathspec) in fs {
      forall e ensures Matches(fs, cfg, FilterOf(dot), e) == Matches(fs, cfg, FilterOf(plain), e) {
        DotSelectsAll(fs, cfg, req.dataRegex, e);
      }
      StartGood(fs, req);
      var n, stack, dev := req.cursor.number, StartStack(fs, req), RootDev(fs, req);
      assert StartStack(fs, dot) == stack && StartStack(fs, plain) == stack;
      assert RootDev(fs, dot) == dev && RootDev(fs, plain) == dev;
      WalkCongruent(fs, cfg, FilterOf(dot), FilterOf(plain), req.crossDevs, dev, stack, n, []);
      assert FindOutcome(fs, cfg, dot) == Respond(n, Walk(fs, cfg, FilterOf(dot), req.crossDevs, dev, stack, n, []));
      assert FindOutcome(fs, cfg, plain) == Respond(n, Walk(fs, cfg, FilterOf(plain), req.crossDevs, dev, stack, n, []));
    }
  }

  /** Without filters every visited entry is a hit. */
  lemma {:induction false} UnfilteredHitsAll(fs: Filesystem, cfg: Grep.SearchConfig, es: seq<Entry>)
    decreases |es|
    ensures |HitsOf(fs, cfg, Filter([], []), es)| == |es|
  {
    if es != [] {
      UnfilteredHitsAll(fs, cfg, es[1..]);
    }
  }

  /** A non-empty stack has something left to visit: its first entry. */
  lemma PendingNonEmpty(fs: Filesystem, rootDev: int, crossDevs: bool, stack: seq<Entry>)
    requires WellFormed(fs) && AllGood(fs, stack) && stack != []
    ensures Pending(fs, rootDev, crossDevs, stack) != []
  {
    PendingStep(fs, rootDev, crossDevs, stack);
  }

  /** The content filter selects a file exactly when the pattern occurs in
      it, provided each block's overlap covers a match: the block-by-block
      scan finds a match where the pattern occurs at all. */
  lemma FileHasMatchIsFound(fs: Filesystem, cfg: Grep.SearchConfig, ps: PathSpec, p: Pattern<Byte>)
    requires PatternLength(p) >= 1 && Grep.EnvelopeCovers(cfg, p)
    ensures FileHasMatch(fs, cfg, ps, p) <==>
      var path := CollapsePath(ps); path in fs && fs[path].File? && Found(fs[path].content, p)
  {
    var path := CollapsePath(ps);
    if path in fs && fs[path].File? {
      var d := fs[path].content;
      Grep.ChunkedIsNaive(d, p, 0, |d|, cfg);
      var offs := Grep.NaiveOffsets(d, p, 0, |d|);
      if Found(d, p) {
        var o :| 0 <= o <= |d| && MatchAt(d, p, o);
        Grep.NaiveMembers(d, p, 0, |d|, o);
      }
      if offs != [] {
        Grep.NaiveMembers(d, p, 0, |d|, offs[0]);
      }
    }
  }

  // ---------------------------------------------------------------------
  // The action, over handles.

  /** Decides whether an entry is a hit: the path filter on its collapsed
      path, then, for a content filter, a scan of the opened file. */
  method EntryMatches(fs: Filesystem, cfg: Grep.SearchConfig, f: Filter, e: Entry) returns (m: bool)
    ensures m == Matches(fs, cfg, f, e)
  {
    if f.pathRegex != [] && !Found(CollapsePath(e.stat.pathspec), Regex(f.pathRegex)) {
      return false;
    }
    if f.dataRegex == [] {
      return true;
    }
    if !IsRegMode(e.stat.stMode) {
      return false;
    }
    var h := MockHandler.Open(fs, e.stat.pathspec);
    if h == null || h.content.Dir? {
      return false;
    }
    var refs := Grep.Scan(h, Regex(f.dataRegex), 0, h.size, cfg, 0, 0, 0);
    m := refs != [];
  }

  /** Opens an entry by its path specification and lists it. */
  method ListChildren(fs: Filesystem, e: Entry) returns (cs: seq<Entry>)
    ensures cs == Children(fs, e)
  {
    var h := MockHandler.Open(fs, e.stat.pathspec);
    if h == null {
      return [];
    }
    var complete;
    cs, complete := h.ListFiles();
  }

  /** Opens the root and finds where the walk resumes: the root's device
      and the pending entries (from the cursor, or the root's listing). */
  method OpenRoot(fs: Filesystem, req: FindRequest) returns (found: bool, rootDev: int, stack: seq<Entry>)
    requires WellFormed(fs) && ValidCursor(fs, req.cursor)
    ensures found <==> CollapsePath(req.pathspec) in fs
    ensures found ==> rootDev == RootDev(fs, req) && stack == StartStack(fs, req) && AllGood(fs, stack)
  {
    var root := MockHandler.Open(fs, req.pathspec);
    if root == null {
      return false, 0, [];
    }
    found, rootDev := true, root.Stat().stDev;
    if PendingKey in req.cursor.clientState {
      stack := req.cursor.clientState[PendingKey];
    } else {
      var complete;
      stack, complete := root.ListFiles();
    }
    StartGood(fs, req);
  }

  /** Visits the first pending entry: reports it if it matches and puts its
      children, if the walk enters it, in front of the rest. */
  method VisitFirst(fs: Filesystem, cfg: Grep.SearchConfig, f: Filter, crossDevs: bool, rootDev: int,
                    stack: seq<Entry>, hits: seq<StatEntry>) returns (stack': seq<Entry>, hits': seq<StatEntry>)
    requires WellFormed(fs) && AllGood(fs, stack) && stack != []
    ensures stack' == NextStack(fs, rootDev, crossDevs, stack)
    ensures hits' == hits + if Matches(fs, cfg, f, stack[0]) then [stack[0].stat] else []
  {
    var e := stack[0];
    var m := EntryMatches(fs, cfg, f, e);
    hits' := if m then hits + [e.stat] else hits;
    var children: seq<Entry> := [];
    if Descends(e, rootDev, crossDevs) {
      children := ListChildren(fs, e);
    }
    stack' := children + stack[1..];
  }

  /** One step of the walk, as the loop of a call takes it. */
  lemma WalkStep(fs: Filesystem, cfg: Grep.SearchConfig, f: Filter, crossDevs: bool, rootDev: int,
                 stack: seq<Entry>, quota: nat, hits: seq<StatEntry>)
    requires WellFormed(fs) && AllGood(fs, stack) && stack != [] && |hits| < quota
    ensures AllGood(fs, NextStack(fs, rootDev, crossDevs, stack))
    ensures |Pending(fs, rootDev, crossDevs, NextStack(fs, rootDev, crossDevs, stack))| < |Pending(fs, rootDev, crossDevs, stack)|
    ensures Walk(fs, cfg, f, crossDevs, rootDev, stack, quota, hits)
         == Walk(fs, cfg, f, crossDevs, rootDev, NextStack(fs, rootDev, crossDevs, stack), quota,
                 hits + if Matches(fs, cfg, f, stack[0]) then [stack[0].stat] else [])
  {
    PendingStep(fs, rootDev, crossDevs, stack);
  }

  /** One call of the action: resume from the cursor (or list the root),
      visit pending entries until the quota is met or nothing is pending,
      and hand back the cursor. */
  method FindCall(fs: Filesystem, cfg: Grep.SearchConfig, req: FindRequest) returns (resp: FindResponse)
    requires WellFormed(fs) && ValidCursor(fs, req.cursor)
    ensures resp == FindOutcome(fs, cfg, req)
  {
    var c := req.cursor;
    if c.state == Finished {
      return FindResponse([], c);
    }
    var found, rootDev, stack := OpenRoot(fs, req);
    if !found {
      return FindResponse([], Iterator(c.number, Finished, map[]));
    }
    var f := FilterOf(req);
    ghost var outcome := Walk(fs, cfg, f, req.crossDevs, rootDev, stack, c.number, []);
    var hits: seq<StatEntry> := [];
    while |hits| < c.number && stack != []
      invariant AllGood(fs, stack)
      invariant Walk(fs, cfg, f, req.crossDevs, rootDev, stack, c.number, hits) == outcome
      decreases |Pending(fs, rootDev, req.crossDevs, stack)|
    {
      WalkStep(fs, cfg, f, req.crossDevs, rootDev, stack, c.number, hits);
      stack, hits := VisitFirst(fs, cfg, f, req.crossDevs, rootDev, stack, hits);
    }
    resp := Respond(c.number, WalkResult(hits, stack));
  }

  /** The one-at-a-time loop: call with a quota of one and the returned
      cursor until a call is made with a finished cursor. It collects
      exactly the hits that remained, ends on a finished cursor with an
      empty bag, and, when there are no filters and something to find,
      every call before the last reports exactly one hit. */
  method FindOneAtATime(fs: Filesystem, cfg: Grep.SearchConfig, req0: FindRequest)
    returns (files: seq<StatEntry>, last: Iterator, oneEach: bool)
    requires WellFormed(fs) && req0.cursor == NewIterator(1)
    ensures files == Remaining(fs, cfg, req0)
    ensures last.state == Finished && last.clientState == map[]
    ensures req0.pathRegex == [] && req0.dataRegex == [] && Remaining(fs, cfg, req0) != [] ==> oneEach
  {
    var req := req0;
    files := [];
    oneEach := true;
    assert [] + Remaining(fs, cfg, req0) == Remaining(fs, cfg, req0);
    while true
      invariant Paging(fs, cfg, req0, req, files, oneEach)
      decreases |Remaining(fs, cfg, req)|, if req.cursor.state == Running then 1 else 0
    {
      var resp := FindCall(fs, cfg, req);
      if req.cursor.state == Finished {
        return files, req.cursor, oneEach;
      }
      PagingStep(fs, cfg, req0, req, files, oneEach);
      oneEach := oneEach && |resp.hits| == 1;
      files := files + resp.hits;
      req := req.(cursor := resp.cursor);
    }
  }

  /** The state of the one-hit-at-a-time loop: the request differs from the
      first only in its cursor, the files collected and the hits remaining
      make up what remained at the start, and without filters every call so
      far reported one hit. */
  ghost predicate Paging(fs: Filesystem, cfg: Grep.SearchConfig, req0: FindRequest, req: FindRequest,
                         files: seq<StatEntry>, oneEach: bool)
    requires WellFormed(fs)
  {
    && ValidCursor(fs, req0.cursor) && req == req0.(cursor := req.cursor)
    && ValidCursor(fs, req.cursor) && req.cursor.number == 1
    && (req.cursor.state == Finished ==> req.cursor.clientState == map[])
    && files + Remaining(fs, cfg, req) == Remaining(fs, cfg, req0)
    && (req0.pathRegex == [] && req0.dataRegex == [] && Remaining(fs, cfg, req0) != [] ==>
          oneEach && (req.cursor.state == Running ==> Remaining(fs, cfg, req) != []))
  }

  /** One call of the loop keeps its state and either shortens what remains
      or finishes the cursor. */
  lemma PagingStep(fs: Filesystem, cfg: Grep.SearchConfig, req0: FindRequest, req: FindRequest,
                   files: seq<StatEntry>, oneEach: bool)
    requires WellFormed(fs) && Paging(fs, cfg, req0, req, files, oneEach) && req.cursor.state == Running
    ensures var resp := FindOutcome(fs, cfg, req);
      var next := req.(cursor := resp.cursor);
      && Paging(fs, cfg, req0, next, files + resp.hits, oneEach && |resp.hits| == 1)
      && (|Remaining(fs, cfg, next)| < |Remaining(fs, cfg, req)| ||
          (|Remaining(fs, cfg, next)| == |Remaining(fs, cfg, req)| && next.cursor.state == Finished))
  {
    var resp := FindOutcome(fs, cfg, req);
    var next := req.(cursor := resp.cursor);
    OneHitStep(fs, cfg, req);
    ConcatAssoc(files, resp.hits, Remaining(fs, cfg, next));
    assert |resp.hits + Remaining(fs, cfg, next)| == |resp.hits| + |Remaining(fs, cfg, next)|;
  }

  /** One call of the one-hit-at-a-time loop: what it reports and what
      remains add up, and without filters a call with something left
      reports exactly one hit and hands back a running cursor only when
      more is left. */
  lemma OneHitStep(fs: Filesystem, cfg: Grep.SearchConfig, req: FindRequest)
    requires WellFormed(fs) && ValidCursor(fs, req.cursor)
    requires req.cursor.state == Running && req.cursor.number == 1
    ensures var resp := FindOutcome(fs, cfg, req);
      var next := req.(cursor := resp.cursor);
      && ValidCursor(fs, resp.cursor) && resp.cursor.number == 1
      && (resp.cursor.state == Finished ==> resp.cursor.clientState == map[])
      && (resp.cursor.state == Running ==> |resp.hits| == 1)
      && resp.hits + Remaining(fs, cfg, next) == Remaining(fs, cfg, req)
      && (req.pathRegex == [] && req.dataRegex == [] && Remaining(fs, cfg, req) != [] ==>
            && |resp.hits| == 1
            && (resp.cursor.state == Running ==> Remaining(fs, cfg, next) != []))
  {
    var resp := FindOutcome(fs, cfg, req);
    FindSplits(fs, cfg, req);
    if req.pathRegex == [] && req.dataRegex == [] && Remaining(fs, cfg, req) != [] {
      if resp.cursor.state == Running {
        UnfilteredNotEmpty(fs, cfg, req.(cursor := resp.cursor));
      } else {
        assert Remaining(fs, cfg, req.(cursor := resp.cursor)) == [];
      }
    }
  }

  /** Without filters, a running cursor whose bag holds entries has hits
      left to report. */
  lemma UnfilteredNotEmpty(fs: Filesystem, cfg: Grep.SearchConfig, req: FindRequest)
    requires WellFormed(fs) && ValidCursor(fs, req.cursor)
    requires req.pathRegex == [] && req.dataRegex == []
    requires req.cursor.state == Running && CollapsePath(req.pathspec) in fs && StartStack(fs, req) != []
    ensures Remaining(fs, cfg, req) != []
  {
    StartGood(fs, req);
    PendingNonEmpty(fs, RootDev(fs, req), req.crossDevs, StartStack(fs, req));
    UnfilteredHitsAll(fs, cfg, Pending(fs, RootDev(fs, req), req.crossDevs, StartStack(fs, req)));
  }
}
