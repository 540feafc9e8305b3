/** The Grep tests as theorems about the model. Each one writes a file made
    of filler and "HIT" at the test's path in the mock filesystem, sends
    the test's request and states what comes back. Every lemma is stated
    for all XOR keys, so it covers the plain run (input and output keys 0)
    and the obfuscated run (keys 37 and 57) alike. Where a test runs under
    the default scanner settings, the lemma holds for every configuration
    whose overlap covers the pattern and whose hit limit admits one hit. */
module GrepFixtures {
  import opened Common
  import opened Bytes
  import opened Patterns
  import opened PathSpecs
  import opened MockVfs
  import opened Grep

  // ---------------------------------------------------------------------
  // The target file.

  /** "/mock2/directory1/grepfile.txt", spelled out name by name. */
  const GrepFile := "/" + ("mock2" + "/" + ("directory1" + "/" + "grepfile.txt"))

  /** The target as the tests address it: one path segment. */
  const Target: PathSpec := [GrepFile]

  lemma TargetCollapses()
    ensures CollapsePath(Target) == GrepFile
  {
    GrepFileSpelled();
    ThreeNamesCollapse(GrepFile, "mock2", "directory1", "grepfile.txt");
  }

  /** The target path is "/" and three names joined by separators. */
  lemma GrepFileSpelled()
    ensures IsName("mock2") && IsName("directory1") && IsName("grepfile.txt")
    ensures GrepFile != [] && GrepFile[0] == '/'
    ensures GrepFile[1..] == "mock2" + "/" + ("directory1" + "/" + "grepfile.txt")
  {
  }

  /** An absolute path of three names, given as one segment, collapses to
      itself. */
  lemma ThreeNamesCollapse(path: string, a: string, b: string, c: string)
    requires IsName(a) && IsName(b) && IsName(c)
    requires path != [] && path[0] == '/' && path[1..] == a + "/" + (b + "/" + c)
    ensures CollapsePath([path]) == path
  {
    assert path == "/" + path[1..];
    var cs := [a, b, c];
    ComponentsOfJoin(cs);
    assert cs[1..] == [b, c] && [b, c][1..] == [c];
    assert Join([b, c]) == b + "/" + c;
    assert Join(cs) == path[1..];
    assert Components(path) == cs;
    assert [path][..0] == [];
    assert SegmentComponents([path]) == cs;
  }

  /** The mock filesystem with `data` written to the target path. */
  function Install(data: seq<Byte>): (fs: Filesystem)
    ensures GrepFile in fs && fs[GrepFile] == File(data)
  {
    MockFilesystem()[GrepFile := File(data)]
  }

  /** The request every test starts from: the literal "HIT" obfuscated
      with the input key, searched from offset 0. */
  function HitRequest(inKey: Byte, outKey: Byte): GrepRequest
  {
    GrepRequest(Target, literal := Xor(Hit(), inKey), xorInKey := inKey, xorOutKey := outKey)
  }

  // ---------------------------------------------------------------------
  // The test data.

  function Hit(): seq<Byte> { Ascii("HIT") }

  /** `n` copies of one character. */
  function Fill(c: char, n: nat): (r: seq<Byte>)
    ensures |r| == n
  {
    Repeat(Ascii([c]), n)
  }

  /** Every byte of a fill is its character. */
  lemma {:induction false} FillAt(c: char, n: nat, i: int)
    requires 0 <= i < n
    ensures Fill(c, n)[i] == ByteOf(c)
  {
    if i < n - 1 {
      FillAt(c, n - 1, i);
    }
  }

  /** `a` X's, the hit, `b` X's. */
  function OneHit(a: nat, b: nat): (d: seq<Byte>)
    ensures |d| == a + 3 + b
  {
    Fill('X', a) + Hit() + Fill('X', b)
  }

  /** `a` X's, the hit, `c` X's, the hit again, `b` X's. */
  function TwoHits(a: nat, c: nat, b: nat): (d: seq<Byte>)
    ensures |d| == a + 3 + c + 3 + b
  {
    Fill('X', a) + Hit() + Fill('X', c) + Hit() + Fill('X', b)
  }

  /** The byte at each offset of OneHit. */
  lemma OneHitAt(a: nat, b: nat, o: int)
    requires 0 <= o < a + 3 + b
    ensures OneHit(a, b)[o] == if a <= o < a + 3 then Hit()[o - a] else ByteOf('X')
  {
    if o < a {
      FillAt('X', a, o);
    } else if o >= a + 3 {
      FillAt('X', b, o - a - 3);
    }
  }

  /** The letters of the hit other than its first are no "H", and the
      filler is none either. */
  lemma Letters()
    ensures Hit()[0] == ByteOf('H')
    ensures Hit()[1] != ByteOf('H') && Hit()[2] != ByteOf('H') && ByteOf('X') != ByteOf('H')
  {
  }

  /** "HIT" occurs in OneHit exactly once, at `a`. */
  lemma OneHitMatches(a: nat, b: nat, o: int)
    ensures MatchAt(OneHit(a, b), Literal(Hit()), o) <==> o == a
  {
    var d := OneHit(a, b);
    Letters();
    if o == a {
      forall k | 0 <= k < 3 ensures d[a..a + 3][k] == Hit()[k] {
        OneHitAt(a, b, a + k);
      }
    }
    if 0 <= o < |d| {
      OneHitAt(a, b, o);
    }
    MatchStartsWithFirst(d, Hit(), o);
  }

  /** A match of a literal starts with the literal's first byte. */
  lemma MatchStartsWithFirst(d: seq<Byte>, needle: seq<Byte>, o: int)
    requires needle != []
    ensures MatchAt(d, Literal(needle), o) ==> d[o] == needle[0]
  {
    if MatchAt(d, Literal(needle), o) {
      assert d[o] == d[o..o + |needle|][0];
    }
  }

  /** The only "H"s of TwoHits are those of its two hits. */
  lemma TwoHitsHeads(a: nat, c: nat, b: nat, o: int)
    requires 0 <= o < a + 3 + c + 3 + b
    ensures o != a && o != a + 3 + c ==> TwoHits(a, c, b)[o] != ByteOf('H')
  {
    Letters();
    if o < a {
      FillAt('X', a, o);
    } else if a + 3 <= o < a + 3 + c {
      FillAt('X', c, o - a - 3);
    } else if o >= a + 3 + c + 3 {
      FillAt('X', b, o - a - 3 - c - 3);
    }
  }

  // ---------------------------------------------------------------------
  // From the data to the results.

  /** A pattern that matches only at `a` is found in [start, end) exactly
      when that match lies inside. */
  lemma OnlyMatch(d: seq<Byte>, p: Pattern<Byte>, a: int, start: nat, end: int)
    requires forall o :: MatchAt(d, p, o) <==> o == a
    ensures NaiveOffsets(d, p, start, end) == if start <= a && a + PatternLength(p) <= end then [a] else []
  {
    var r := NaiveOffsets(d, p, start, end);
    var e := if start <= a && a + PatternLength(p) <= end then [a] else [];
    forall o ensures o in r <==> o in e {
      NaiveMembers(d, p, start, end, o);
    }
    NaiveIncreasing(d, p, start, end);
    IncreasingUnique(r, e);
  }

  /** A pattern with no match in [start, end) finds nothing there. */
  lemma NoMatchIn(d: seq<Byte>, p: Pattern<Byte>, start: nat, end: int)
    requires forall o :: start <= o && o + PatternLength(p) <= end ==> !MatchAt(d, p, o)
    ensures NaiveOffsets(d, p, start, end) == []
  {
    forall o ensures o !in NaiveOffsets(d, p, start, end) {
      NaiveMembers(d, p, start, end, o);
    }
    EmptyIfNoMember(NaiveOffsets(d, p, start, end));
  }

  /** A "HIT" request against the installed file returns what the
      whole-buffer search prescribes, whatever the keys. */
  lemma HitGrep(d: seq<Byte>, cfg: SearchConfig, req: GrepRequest)
    requires req.target == Target && req.regex == [] && req.literal == Xor(Hit(), req.xorInKey)
    requires EnvelopeCovers(cfg, Literal(Hit()))
    ensures GrepOutcome(Install(d), cfg, req)
      == Ok(GrepSpec(d, Literal(Hit()), req.startOffset, ScanEnd(|d|, req.startOffset, req.length),
                     req.bytesBefore, req.bytesAfter, cfg.hitLimit, req.xorOutKey))
  {
    TargetCollapses();
    XorInvolution(Hit(), req.xorInKey);
    assert SelectPattern(req) == Ok(Literal(Hit()));
    GrepOutcomeIsSpec(Install(d), cfg, req, d, Literal(Hit()));
  }

  /** The results for the offsets [a]: one result, for the match at `a`. */
  lemma SingleResult(d: seq<Byte>, a: nat, m: nat, before: nat, after: nat, limit: nat, outKey: Byte)
    requires a + m <= |d| && limit >= 1
    ensures Truncate(Refs(d, [a], m, before, after, outKey), limit, outKey) == [Reference(d, a, m, before, after, outKey)]
  {
  }

  /** A "HIT" request against X*a + HIT + X*b returns the one hit at `a`
      when it lies within the scanned range, and nothing otherwise. */
  lemma OneHitGrep(a: nat, b: nat, cfg: SearchConfig, req: GrepRequest)
    requires req.target == Target && req.regex == [] && req.literal == Xor(Hit(), req.xorInKey)
    requires EnvelopeCovers(cfg, Literal(Hit())) && cfg.hitLimit >= 1
    ensures var d := OneHit(a, b);
      GrepOutcome(Install(d), cfg, req)
        == Ok(if req.startOffset <= a && a + 3 <= ScanEnd(|d|, req.startOffset, req.length)
              then [Reference(d, a, 3, req.bytesBefore, req.bytesAfter, req.xorOutKey)] else [])
  {
    var d := OneHit(a, b);
    HitGrep(d, cfg, req);
    forall o ensures MatchAt(d, Literal(Hit()), o) <==> o == a {
      OneHitMatches(a, b, o);
    }
    var end := ScanEnd(|d|, req.startOffset, req.length);
    OnlyMatch(d, Literal(Hit()), a, req.startOffset, end);
    if req.startOffset <= a && a + 3 <= end {
      SingleResult(d, a, 3, req.bytesBefore, req.bytesAfter, cfg.hitLimit, req.xorOutKey);
    }
  }

  /** The window around the hit of OneHit: up to `before` X's, the hit and
      up to `after` X's, fewer where the file ends first. */
  lemma OneHitWindow(a: nat, b: nat, before: nat, after: nat)
    ensures Window(OneHit(a, b), a, 3, before, after) == Fill('X', Min(a, before)) + Hit() + Fill('X', Min(b, after))
  {
    var w := Window(OneHit(a, b), a, 3, before, after);
    var e := Fill('X', Min(a, before)) + Hit() + Fill('X', Min(b, after));
    forall k | 0 <= k < |w| ensures w[k] == e[k] {
      WindowAt(a, b, before, after, k);
    }
  }

  /** One byte of the window around the hit of OneHit. */
  lemma WindowAt(a: nat, b: nat, before: nat, after: nat, k: nat)
    requires k < Min(a, before) + 3 + Min(b, after)
    ensures var w := Window(OneHit(a, b), a, 3, before, after);
      k < |w| && w[k] == (Fill('X', Min(a, before)) + Hit() + Fill('X', Min(b, after)))[k]
  {
    var lo, x, y := Max(0, a - before), Min(a, before), Min(b, after);
    var w, e := Window(OneHit(a, b), a, 3, before, after), Fill('X', x) + Hit() + Fill('X', y);
    assert lo + x == a && |w| == |e|;
    assert w[k] == OneHit(a, b)[lo + k];
    OneHitAt(a, b, lo + k);
    if k < x {
      FillAt('X', x, k);
    } else if k >= x + 3 {
      FillAt('X', y, k - x - 3);
    }
  }

  /** A hit's result, read back with the output key: the window of context
      of the stated length. */
  lemma OneHitResult(a: nat, b: nat, before: nat, after: nat, outKey: Byte)
    ensures var r := Reference(OneHit(a, b), a, 3, before, after, outKey);
      && r.offset == a
      && r.length == Min(a, before) + 3 + Min(b, after)
      && Xor(r.data, outKey) == Fill('X', Min(a, before)) + Hit() + Fill('X', Min(b, after))
  {
    OneHitWindow(a, b, before, after);
  }

  // ---------------------------------------------------------------------
  // The tests.

  /** A hit at the very end of the file is found at 100; with a length of
      100 the scan stops before the hit ends and finds nothing. */
  lemma GrepLength(cfg: SearchConfig, inKey: Byte, outKey: Byte)
    requires EnvelopeCovers(cfg, Literal(Hit())) && cfg.hitLimit >= 1
    ensures var fs, req := Install(OneHit(100, 0)), HitRequest(inKey, outKey);
      && (var r := GrepOutcome(fs, cfg, req); r.Ok? && |r.value| == 1 && r.value[0].offset == 100)
      && GrepOutcome(fs, cfg, req.(length := Some(100))) == Ok([])
  {
    var req := HitRequest(inKey, outKey);
    OneHitGrep(100, 0, cfg, req);
    OneHitGrep(100, 0, cfg, req.(length := Some(100)));
  }

  /** The hit at 10 is reported at its absolute offset when the scan starts
      at 0 or at 5, and is not found when the scan starts at 11. */
  lemma GrepOffset(cfg: SearchConfig, inKey: Byte, outKey: Byte)
    requires EnvelopeCovers(cfg, Literal(Hit())) && cfg.hitLimit >= 1
    ensures var fs, req := Install(OneHit(10, 100)), HitRequest(inKey, outKey);
      && (var r := GrepOutcome(fs, cfg, req); r.Ok? && |r.value| == 1 && r.value[0].offset == 10)
      && (var r := GrepOutcome(fs, cfg, req.(startOffset := 5)); r.Ok? && |r.value| == 1 && r.value[0].offset == 10)
      && GrepOutcome(fs, cfg, req.(startOffset := 11)) == Ok([])
  {
    var req := HitRequest(inKey, outKey);
    OneHitGrep(10, 100, cfg, req);
    OneHitGrep(10, 100, cfg, req.(startOffset := 5));
    OneHitGrep(10, 100, cfg, req.(startOffset := 11));
  }

  /** Starting at 11 with a length of 100 skips the hit at 10 and stops
      before the hit at 113. */
  lemma OffsetAndLength(cfg: SearchConfig, inKey: Byte, outKey: Byte)
    requires EnvelopeCovers(cfg, Literal(Hit()))
    ensures GrepOutcome(Install(TwoHits(10, 100, 10)), cfg, HitRequest(inKey, outKey).(startOffset := 11, length := Some(100)))
      == Ok([])
  {
    var d := TwoHits(10, 100, 10);
    var req := HitRequest(inKey, outKey).(startOffset := 11, length := Some(100));
    HitGrep(d, cfg, req);
    forall o | 11 <= o && o + 3 <= 111 ensures !MatchAt(d, Literal(Hit()), o) {
      TwoHitsHeads(10, 100, 10, o);
      Letters();
      MatchStartsWithFirst(d, Hit(), o);
    }
    NoMatchIn(d, Literal(Hit()), 11, 111);
  }

  /** With 1000-byte blocks and a 100-byte overlap, a hit in the second
      block is found at its absolute offset. */
  lemma SecondBuffer(limit: nat, inKey: Byte, outKey: Byte)
    requires limit >= 1
    ensures var r := GrepOutcome(Install(OneHit(1500, 100)), SearchConfig(1000, 100, limit), HitRequest(inKey, outKey));
      r.Ok? && |r.value| == 1 && r.value[0].offset == 1500
  {
    OneHitGrep(1500, 100, SearchConfig(1000, 100, limit), HitRequest(inKey, outKey));
  }

  /** With 1000-byte blocks and a 100-byte overlap, a hit near the first
      block boundary, wherever it falls, is found once, at its offset, with
      ten bytes of context on either side. */
  lemma BufferBoundaries(offset: int, limit: nat, inKey: Byte, outKey: Byte)
    requires -20 <= offset < 20 && limit >= 1
    ensures var a := 1000 + offset;
      var r := GrepOutcome(Install(OneHit(a, 100)), SearchConfig(1000, 100, limit), HitRequest(inKey, outKey));
      && r.Ok? && |r.value| == 1 && r.value[0].offset == a
      && r.value[0].length == 23
      && Xor(r.value[0].data, outKey) == Fill('X', 10) + Hit() + Fill('X', 10)
  {
    var a := 1000 + offset;
    OneHitGrep(a, 100, SearchConfig(1000, 100, limit), HitRequest(inKey, outKey));
    OneHitResult(a, 100, 10, 10, outKey);
  }

  /** The window holds exactly the requested bytes before and after the hit. */
  lemma SnippetSize(cfg: SearchConfig, before: nat, after: nat, inKey: Byte, outKey: Byte)
    requires EnvelopeCovers(cfg, Literal(Hit())) && cfg.hitLimit >= 1
    requires before <= 100 && after <= 100
    ensures var r := GrepOutcome(Install(OneHit(100, 100)), cfg, HitRequest(inKey, outKey).(bytesBefore := before, bytesAfter := after));
      && r.Ok? && |r.value| == 1 && r.value[0].offset == 100
      && r.value[0].length == before + 3 + after
      && Xor(r.value[0].data, outKey) == Fill('X', before) + Hit() + Fill('X', after)
  {
    OneHitGrep(100, 100, cfg, HitRequest(inKey, outKey).(bytesBefore := before, bytesAfter := after));
    OneHitResult(100, 100, before, after, outKey);
  }

  /** With 100-byte blocks and a 50-byte overlap, a hit anywhere in a
      503-byte file is found once, with the ten bytes around it that the
      file has: the Python slice data[max(0, offset - 10):offset + 13]. */
  lemma GrepEverywhere(offset: nat, limit: nat, inKey: Byte, outKey: Byte)
    requires offset < 500 && limit >= 1
    ensures var d := OneHit(offset, 500 - offset);
      var r := GrepOutcome(Install(d), SearchConfig(100, 50, limit), HitRequest(inKey, outKey));
      var expected := d[Max(0, offset - 10)..Min(|d|, offset + 13)];
      && r.Ok? && |r.value| == 1 && r.value[0].offset == offset
      && r.value[0].length == |expected|
      && Xor(r.value[0].data, outKey) == expected
      && expected == Fill('X', Min(offset, 10)) + Hit() + Fill('X', Min(500 - offset, 10))
  {
    OneHitGrep(offset, 500 - offset, SearchConfig(100, 50, limit), HitRequest(inKey, outKey));
    OneHitResult(offset, 500 - offset, 10, 10, outKey);
  }

  // ---------------------------------------------------------------------
  // The hit limit.

  /** One unit of the hit-limit file: "x" * 10 + "HIT" + "x" * 10. */
  function HitUnit(): (u: seq<Byte>)
    ensures |u| == 23
  {
    Fill('x', 10) + Hit() + Fill('x', 10)
  }

  /** The middle of a unit is the hit. */
  lemma UnitMiddle()
    ensures 13 <= |HitUnit()| && HitUnit()[10..13] == Hit()
  {
  }

  /** Matches lying wholly inside a prefix are found alike in the whole. */
  lemma {:induction false} PrefixOffsets(d: seq<Byte>, rest: seq<Byte>, p: Pattern<Byte>, lo: int, hi: int)
    requires 0 <= lo && hi - 1 + PatternLength(p) <= |d|
    ensures MatchOffsets(d + rest, p, lo, hi) == MatchOffsets(d, p, lo, hi)
    decreases hi - lo
  {
    if lo < hi {
      MatchAtSlice(d + rest, p, 0, |d|, lo);
      assert (d + rest)[0..|d|] == d;
      PrefixOffsets(d, rest, p, lo + 1, hi);
    }
  }

  /** A needle at offset `c` of an appended unit matches there. */
  lemma AppendedMatch(d: seq<Byte>, u: seq<Byte>, needle: seq<Byte>, c: nat)
    requires c + |needle| <= |u| && u[c..c + |needle|] == needle
    ensures MatchAt(d + u, Literal(needle), |d| + c)
  {
    assert (d + u)[|d| + c..|d| + c + |needle|] == u[c..c + |needle|];
  }

  /** Appending a unit that holds the needle adds at least one match to those
      already found in the prefix. */
  lemma CopyAddsMatch(prev: seq<Byte>, u: seq<Byte>, needle: seq<Byte>, c: nat, k: nat)
    requires needle != [] && c + |needle| <= |u| && u[c..c + |needle|] == needle
    requires k == 0 || |prev| >= |needle|
    requires |NaiveOffsets(prev, Literal(needle), 0, |prev|)| >= k
    ensures |NaiveOffsets(prev + u, Literal(needle), 0, |prev + u|)| >= k + 1
  {
    var p, m, d := Literal(needle), |needle|, prev + u;
    var mid, hi := Max(0, |prev| - m + 1), |d| - m + 1;
    var first, second := MatchOffsets(d, p, 0, mid), MatchOffsets(d, p, mid, hi);
    assert NaiveOffsets(d, p, 0, |d|) == MatchOffsets(d, p, 0, hi);
    MatchOffsetsSplit(d, p, 0, mid, hi);
    if k > 0 {
      PrefixOffsets(prev, u, p, 0, mid);
      assert first == NaiveOffsets(prev, p, 0, |prev|);
    }
    AppendedMatch(prev, u, needle, c);
    MatchOffsetsMembers(d, p, mid, hi, |prev| + c);
    assert second != [];
    assert |first + second| == |first| + |second|;
  }

  /** `n` copies of a unit that holds the needle hold at least `n` matches. */
  lemma {:induction false} AtLeastOnePerCopy(u: seq<Byte>, needle: seq<Byte>, c: nat, n: nat)
    requires needle != [] && c + |needle| <= |u| && u[c..c + |needle|] == needle
    ensures |NaiveOffsets(Repeat(u, n), Literal(needle), 0, |Repeat(u, n)|)| >= n
  {
    if n > 0 {
      var prev := Repeat(u, n - 1);
      assert Repeat(u, n) == prev + u;
      if n > 1 {
        assert prev == Repeat(u, n - 2) + u;
      }
      AtLeastOnePerCopy(u, needle, c, n - 1);
      CopyAddsMatch(prev, u, needle, c, n - 1);
    }
  }

  /** The notice the truncated results end with says why. */
  lemma NoticeSaysWhy()
    ensures OccursAt(NoticeText(), Ascii("maximum number of hits"), 26)
  {
    var front, m := "This Grep has reached the ", "maximum number of hits";
    var t := front + m + ".";
    assert t == "This Grep has reached the maximum number of hits.";
    forall k | 0 <= k < |m| ensures NoticeText()[26..48][k] == Ascii(m)[k] {
      assert t[26 + k] == m[k];
    }
  }

  /** A file with a hundred more hits than the limit yields the limit's
      worth of results and then the notice, which reads "maximum number of
      hits" once the output key is undone. */
  lemma HitLimit(cfg: SearchConfig, inKey: Byte, outKey: Byte)
    requires EnvelopeCovers(cfg, Literal(Hit()))
    ensures var r := GrepOutcome(Install(Repeat(HitUnit(), cfg.hitLimit + 100)), cfg, HitRequest(inKey, outKey));
      && r.Ok? && |r.value| == cfg.hitLimit + 1
      && Contains(Xor(r.value[cfg.hitLimit].data, outKey), Ascii("maximum number of hits"))
  {
    var n := cfg.hitLimit + 100;
    var d := Repeat(HitUnit(), n);
    var p := Literal(Hit());
    var req := HitRequest(inKey, outKey);
    HitGrep(d, cfg, req);
    UnitMiddle();
    AtLeastOnePerCopy(HitUnit(), Hit(), 10, n);
    var offs := NaiveOffsets(d, p, 0, |d|);
    NaiveIncreasing(d, p, 0, |d|);
    assert |Refs(d, offs, 3, 10, 10, outKey)| > cfg.hitLimit;
    XorInvolution(NoticeText(), outKey);
    NoticeSaysWhy();
  }

  // ---------------------------------------------------------------------
  // Literal and regular expression.

  /** The regular expression "1[0]". */
  function TenRegex(): seq<CharClass<Byte>>
  {
    [OneOf({ByteOf('1')}), OneOf({ByteOf('0')})]
  }

  /** Every result below the hit limit shows the needle inside its window
      once the output key is undone. */
  lemma ResultsShowNeedle(d: seq<Byte>, needle: seq<Byte>, start: nat, end: int, before: nat, after: nat, limit: nat, outKey: Byte)
    ensures var r := GrepSpec(d, Literal(needle), start, end, before, after, limit, outKey);
      forall i :: 0 <= i < |r| && i < limit ==> Contains(Xor(r[i].data, outKey), needle)
  {
    var p := Literal(needle);
    var offs := NaiveOffsets(d, p, start, end);
    NaiveIncreasing(d, p, start, end);
    var refs := Refs(d, offs, |needle|, before, after, outKey);
    var r := GrepSpec(d, p, start, end, before, after, limit, outKey);
    forall i | 0 <= i < |r| && i < limit ensures Contains(Xor(r[i].data, outKey), needle) {
      assert i < |refs| && r[i] == refs[i];
      MatchShown(d, needle, offs[i], before, after, outKey);
    }
  }

  /** The result for a match of `needle` shows it in its window. */
  lemma MatchShown(d: seq<Byte>, needle: seq<Byte>, o: int, before: nat, after: nat, outKey: Byte)
    requires MatchAt(d, Literal(needle), o)
    ensures Contains(Xor(Reference(d, o, |needle|, before, after, outKey).data, outKey), needle)
  {
    var w := Window(d, o, |needle|, before, after);
    assert OccursAt(w, needle, Min(o, before));
  }

  /** Searching for the literal "10" (sent obfuscated with the input key)
      and for the regular expression "1[0]" gives the same results, and
      each result below the hit limit shows "10". */
  lemma LiteralAndRegex(fs: Filesystem, cfg: SearchConfig, target: PathSpec, d: seq<Byte>, inKey: Byte, outKey: Byte)
    requires CollapsePath(target) in fs && fs[CollapsePath(target)] == File(d)
    requires EnvelopeCovers(cfg, Literal(Ascii("10")))
    ensures var byLiteral := GrepOutcome(fs, cfg, GrepRequest(target, literal := Xor(Ascii("10"), inKey), xorInKey := inKey, xorOutKey := outKey));
      && byLiteral == GrepOutcome(fs, cfg, GrepRequest(target, regex := TenRegex(), xorOutKey := outKey))
      && byLiteral.Ok?
      && forall i :: 0 <= i < |byLiteral.value| && i < cfg.hitLimit ==> Contains(Xor(byLiteral.value[i].data, outKey), Ascii("10"))
  {
    var ten := Ascii("10");
    var lit := GrepRequest(target, literal := Xor(ten, inKey), xorInKey := inKey, xorOutKey := outKey);
    var re := GrepRequest(target, regex := TenRegex(), xorOutKey := outKey);
    XorInvolution(ten, inKey);
    assert SelectPattern(lit) == Ok(Literal(ten));
    assert TenRegex() == LiteralClasses(ten);
    var end := ScanEnd(|d|, 0, lit.length);
    GrepOutcomeIsSpec(fs, cfg, lit, d, Literal(ten));
    GrepOutcomeIsSpec(fs, cfg, re, d, Regex(TenRegex()));
    TenSpecsAgree(d, end, cfg.hitLimit, outKey);
    assert end == |d|;
    ResultsShowNeedle(d, ten, 0, |d|, 10, 10, cfg.hitLimit, outKey);
  }

  /** The whole-buffer searches for the literal "10" and for "1[0]" agree. */
  lemma TenSpecsAgree(d: seq<Byte>, end: int, limit: nat, outKey: Byte)
    ensures GrepSpec(d, Literal(Ascii("10")), 0, end, 10, 10, limit, outKey)
         == GrepSpec(d, Regex(TenRegex()), 0, end, 10, 10, limit, outKey)
  {
    var ten := Ascii("10");
    assert TenRegex() == LiteralClasses(ten);
    forall o ensures MatchAt(d, Literal(ten), o) <==> MatchAt(d, Regex(TenRegex()), o) {
      LiteralIsRegex(d, ten, o);
    }
    SameMatchesSameOffsets(d, Literal(ten), Regex(TenRegex()), 0, end - 1);
  }
}
