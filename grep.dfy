/** The Grep client action: searches one file for a literal or a regular
    expression, block by block with an overlap, and returns every hit with a
    window of context, obfuscated with the output key, up to a hit limit. */
module Grep {
  import opened Common
  import opened Bytes
  import opened Patterns
  import opened PathSpecs
  import opened MockVfs

  /** One result: the absolute offset of a hit (0 for the truncation notice),
      the length of the returned window and the obfuscated window bytes. */
  datatype BufferReference = BufferReference(offset: int, length: nat, data: seq<Byte>)

  /** The scanner's tunables: bytes read per block, bytes of the previous
      buffer kept in front of the next block, and how many hits are
      reported before the truncation notice. */
  datatype SearchConfig = SearchConfig(blockSize: nat, envelopeSize: nat, hitLimit: nat)

  /** A request. The literal travels obfuscated with the input key; a regular
      expression, when given, takes precedence over the literal. */
  datatype GrepRequest = GrepRequest(
    target: PathSpec,
    literal: seq<Byte> := [],
    regex: seq<CharClass<Byte>> := [],
    xorInKey: Byte := 0,
    xorOutKey: Byte := 0,
    startOffset: nat := 0,
    length: Option<nat> := None,
    bytesBefore: nat := 10,
    bytesAfter: nat := 10)

  datatype GrepError =
    | OpenFailed  // the target path is not mapped
    | NoPattern   // neither a regular expression nor a literal was given
    | ReadFailed  // the target cannot be read (a directory)

  /** The overlap lets every match that straddles two blocks be seen whole. */
  predicate EnvelopeCovers(cfg: SearchConfig, p: Pattern<Byte>)
  {
    cfg.blockSize >= 1 && cfg.envelopeSize + 1 >= PatternLength(p)
  }

  /** The absolute offset where scanning stops: the end of the data, or the
      end of the requested length if that comes first. */
  function ScanEnd(size: nat, start: nat, length: Option<nat>): (e: nat)
    ensures e <= size
    ensures length.None? ==> e == size
    ensures length.Some? ==> e == size || e == start + length.value
    ensures length.Some? ==> e <= start + length.value
  {
    match length
    case None => size
    case Some(l) => Min(size, start + l)
  }

  // ---------------------------------------------------------------------
  // The whole-buffer reference search.

  /** The offsets of all matches lying wholly in [start, end), ascending. */
  function NaiveOffsets(d: seq<Byte>, p: Pattern<Byte>, start: nat, end: int): seq<int>
  {
    MatchOffsets(d, p, start, end - PatternLength(p) + 1)
  }

  /** The reference search lists matches lying wholly in [start, end), each
      once, ascending. */
  lemma NaiveIncreasing(d: seq<Byte>, p: Pattern<Byte>, start: nat, end: int)
    ensures var r := NaiveOffsets(d, p, start, end);
      && StrictlyIncreasing(r)
      && (forall i :: 0 <= i < |r| ==> MatchAt(d, p, r[i]) && start <= r[i] && r[i] + PatternLength(p) <= end)
      && AllInside(d, r, PatternLength(p))
  {
    MatchOffsetsIncreasing(d, p, start, end - PatternLength(p) + 1);
  }

  /** The reference search finds exactly the matches lying wholly in [start, end). */
  lemma NaiveMembers(d: seq<Byte>, p: Pattern<Byte>, start: nat, end: int, o: int)
    ensures o in NaiveOffsets(d, p, start, end) <==> (MatchAt(d, p, o) && start <= o && o + PatternLength(p) <= end)
  {
    MatchOffsetsMembers(d, p, start, end - PatternLength(p) + 1, o);
  }

  /** The context window of a match of length `m` at `o`: up to `before`
      bytes in front and `after` bytes behind, clipped at both ends of the
      data. */
  function Window(d: seq<Byte>, o: int, m: nat, before: nat, after: nat): (w: seq<Byte>)
    requires 0 <= o && o + m <= |d|
    ensures |w| == Min(o, before) + m + Min(|d| - o - m, after)
    ensures w[Min(o, before)..Min(o, before) + m] == d[o..o + m]
  {
    var lo := Max(0, o - before);
    var hi := Min(|d|, o + m + after);
    WindowSlice(d, lo, hi, o, m);
    d[lo..hi]
  }

  /** A slice of a slice is a slice of the whole. */
  lemma WindowSlice(d: seq<Byte>, lo: int, hi: int, o: int, m: nat)
    requires 0 <= lo <= o && o + m <= hi <= |d|
    ensures d[lo..hi][o - lo..o - lo + m] == d[o..o + m]
  {
    var w := d[lo..hi];
    var inner := w[o - lo..o - lo + m];
    assert forall k :: 0 <= k < m ==> inner[k] == d[o + k];
  }

  /** The result reported for a match at `o`. */
  function Reference(d: seq<Byte>, o: int, m: nat, before: nat, after: nat, outKey: Byte): (r: BufferReference)
    requires 0 <= o && o + m <= |d|
    ensures r.offset == o && r.length == |r.data|
    ensures Xor(r.data, outKey) == Window(d, o, m, before, after)
  {
    var w := Window(d, o, m, before, after);
    XorInvolution(w, outKey);
    BufferReference(o, |w|, Xor(w, outKey))
  }

  predicate AllInside(d: seq<Byte>, offs: seq<int>, m: nat)
  {
    forall i :: 0 <= i < |offs| ==> 0 <= offs[i] && offs[i] + m <= |d|
  }

  /** The results for a list of match offsets, in the same order. */
  function Refs(d: seq<Byte>, offs: seq<int>, m: nat, before: nat, after: nat, outKey: Byte): (r: seq<BufferReference>)
    requires AllInside(d, offs, m)
    ensures |r| == |offs|
    ensures forall i :: 0 <= i < |offs| ==> r[i] == Reference(d, offs[i], m, before, after, outKey)
  {
    seq(|offs|, i requires 0 <= i < |offs| && AllInside(d, offs, m) => Reference(d, offs[i], m, before, after, outKey))
  }

  /** The text of the truncation notice. */
  function NoticeText(): seq<Byte>
  {
    Ascii("This Grep has reached the maximum number of hits.")
  }

  /** The synthetic result appended when the hit limit cuts the results off. */
  function Notice(outKey: Byte): BufferReference
  {
    BufferReference(0, |NoticeText()|, Xor(NoticeText(), outKey))
  }

  /** At most `limit` results; when there are more, the first `limit`
      followed by the notice. */
  function Truncate(refs: seq<BufferReference>, limit: nat, outKey: Byte): (r: seq<BufferReference>)
    ensures |refs| <= limit ==> r == refs
    ensures |refs| > limit ==> |r| == limit + 1 && r[..limit] == refs[..limit] && r[limit] == Notice(outKey)
  {
    if |refs| <= limit then refs else refs[..limit] + [Notice(outKey)]
  }

  /** What a search of `d` must return: every match in [start, end) in
      ascending order with its clipped window, truncated at the hit limit. */
  function GrepSpec(d: seq<Byte>, p: Pattern<Byte>, start: nat, end: int, before: nat, after: nat, limit: nat, outKey: Byte): seq<BufferReference>
  {
    var offs := NaiveOffsets(d, p, start, end);
    NaiveIncreasing(d, p, start, end);
    Truncate(Refs(d, offs, PatternLength(p), before, after, outKey), limit, outKey)
  }

  // ---------------------------------------------------------------------
  // The block-by-block scan.

  /** The hits a search of one combined buffer reports: the buffer starts at
      absolute offset `base`, its first `pre` bytes are the retained tail of
      the previous block, and only matches ending in the new bytes count
      (the others were reported with the previous block). */
  function BlockHits(buf: seq<Byte>, p: Pattern<Byte>, pre: nat, base: int): seq<int>
  {
    var m := PatternLength(p);
    Shift(MatchOffsets(buf, p, pre - m + 1, |buf| - m + 1), base)
  }

  /** A buffer's hits ascend and end in its new bytes. */
  lemma BlockHitsIncreasing(buf: seq<Byte>, p: Pattern<Byte>, pre: nat, base: int)
    ensures var r := BlockHits(buf, p, pre, base);
      && StrictlyIncreasing(r)
      && forall i :: 0 <= i < |r| ==> base <= r[i] && base + pre < r[i] + PatternLength(p) <= base + |buf|
  {
    var m := PatternLength(p);
    MatchOffsetsIncreasing(buf, p, pre - m + 1, |buf| - m + 1);
    ShiftIncreasing(MatchOffsets(buf, p, pre - m + 1, |buf| - m + 1), base);
  }

  /** The offsets the scan reports from absolute offset `lo` on: read the
      block [lo, hi), put the last `envelope` bytes before it (never before
      `start`) in front, search, and go on at `hi`. A zero block size reads
      nothing and ends the scan. */
  function ChunkedFrom(d: seq<Byte>, p: Pattern<Byte>, start: nat, end: nat, blockSize: nat, envelope: nat, lo: nat): (r: seq<int>)
    requires start <= lo && end <= |d|
    decreases end - lo
  {
    if lo >= end || blockSize == 0 then []
    else
      var hi := Min(end, lo + blockSize);
      var bufLo := Max(start, lo - envelope);
      BlockHits(d[bufLo..hi], p, lo - bufLo, bufLo) + ChunkedFrom(d, p, start, end, blockSize, envelope, hi)
  }

  /** The scan reports offsets in ascending order, each once, every one
      inside the data and ending in the scanned range. */
  lemma {:induction false} ChunkedIncreasing(d: seq<Byte>, p: Pattern<Byte>, start: nat, end: nat, blockSize: nat, envelope: nat, lo: nat)
    requires start <= lo && end <= |d|
    decreases end - lo
    ensures var r := ChunkedFrom(d, p, start, end, blockSize, envelope, lo);
      && StrictlyIncreasing(r)
      && (forall i :: 0 <= i < |r| ==> start <= r[i] && lo < r[i] + PatternLength(p) <= end)
      && AllInside(d, r, PatternLength(p))
  {
    if lo < end && blockSize != 0 {
      var hi := Min(end, lo + blockSize);
      var bufLo := Max(start, lo - envelope);
      var here := BlockHits(d[bufLo..hi], p, lo - bufLo, bufLo);
      var rest := ChunkedFrom(d, p, start, end, blockSize, envelope, hi);
      BlockHitsIncreasing(d[bufLo..hi], p, lo - bufLo, bufLo);
      ChunkedIncreasing(d, p, start, end, blockSize, envelope, hi);
      ConcatIncreasing(here, rest);
    }
  }

  /** The hits of one combined buffer, in terms of the whole data. */
  lemma BlockHitsMembers(d: seq<Byte>, p: Pattern<Byte>, bufLo: nat, lo: nat, hi: nat, o: int)
    requires bufLo <= lo <= hi <= |d|
    ensures o in BlockHits(d[bufLo..hi], p, lo - bufLo, bufLo)
      <==> (MatchAt(d, p, o) && bufLo <= o && lo < o + PatternLength(p) <= hi)
  {
    var m := PatternLength(p);
    var buf := d[bufLo..hi];
    ShiftMembers(MatchOffsets(buf, p, lo - bufLo - m + 1, |buf| - m + 1), bufLo, o);
    MatchOffsetsMembers(buf, p, lo - bufLo - m + 1, |buf| - m + 1, o - bufLo);
    MatchAtSlice(d, p, bufLo, hi, o - bufLo);
  }

  /** Every offset the scan reports is a match inside the scanned range. */
  lemma {:induction false} ChunkedSound(d: seq<Byte>, p: Pattern<Byte>, start: nat, end: nat, blockSize: nat, envelope: nat, lo: nat, o: int)
    requires start <= lo && end <= |d|
    requires o in ChunkedFrom(d, p, start, end, blockSize, envelope, lo)
    ensures MatchAt(d, p, o) && start <= o && lo < o + PatternLength(p) <= end
    decreases end - lo
  {
    var hi := Min(end, lo + blockSize);
    var bufLo := Max(start, lo - envelope);
    if o in BlockHits(d[bufLo..hi], p, lo - bufLo, bufLo) {
      BlockHitsMembers(d, p, bufLo, lo, hi, o);
    } else {
      ChunkedSound(d, p, start, end, blockSize, envelope, hi, o);
    }
  }

  /** With an overlap of at least the match length less one, the scan misses
      no match inside the scanned range. */
  lemma {:induction false} ChunkedComplete(d: seq<Byte>, p: Pattern<Byte>, start: nat, end: nat, blockSize: nat, envelope: nat, lo: nat, o: int)
    requires start <= lo && end <= |d|
    requires blockSize >= 1 && envelope + 1 >= PatternLength(p)
    requires MatchAt(d, p, o) && start <= o && lo < o + PatternLength(p) <= end
    ensures o in ChunkedFrom(d, p, start, end, blockSize, envelope, lo)
    decreases end - lo
  {
    var hi := Min(end, lo + blockSize);
    var bufLo := Max(start, lo - envelope);
    if o + PatternLength(p) <= hi {
      BlockHitsMembers(d, p, bufLo, lo, hi, o);
    } else {
      ChunkedComplete(d, p, start, end, blockSize, envelope, hi, o);
    }
  }

  /** The central theorem: when the overlap covers the pattern, the
      block-by-block scan reports exactly the matches of the whole-buffer
      search, each once, in the same order, wherever the block boundaries
      fall. */
  lemma ChunkedIsNaive(d: seq<Byte>, p: Pattern<Byte>, start: nat, end: nat, cfg: SearchConfig)
    requires end <= |d| && PatternLength(p) >= 1 && EnvelopeCovers(cfg, p)
    ensures ChunkedFrom(d, p, start, end, cfg.blockSize, cfg.envelopeSize, start) == NaiveOffsets(d, p, start, end)
  {
    var c := ChunkedFrom(d, p, start, end, cfg.blockSize, cfg.envelopeSize, start);
    var n := NaiveOffsets(d, p, start, end);
    forall o ensures o in c <==> o in n {
      NaiveMembers(d, p, start, end, o);
      if o in c {
        ChunkedSound(d, p, start, end, cfg.blockSize, cfg.envelopeSize, start, o);
      }
      if o in n {
        ChunkedComplete(d, p, start, end, cfg.blockSize, cfg.envelopeSize, start, o);
      }
    }
    ChunkedIncreasing(d, p, start, end, cfg.blockSize, cfg.envelopeSize, start);
    NaiveIncreasing(d, p, start, end);
    IncreasingUnique(c, n);
  }

  /** Whatever the overlap, the scan reports only true matches, each once:
      its offsets are an ascending sub-list of the whole-buffer search. */
  lemma ChunkedWithinNaive(d: seq<Byte>, p: Pattern<Byte>, start: nat, end: nat, cfg: SearchConfig, o: int)
    requires end <= |d| && PatternLength(p) >= 1
    requires o in ChunkedFrom(d, p, start, end, cfg.blockSize, cfg.envelopeSize, start)
    ensures o in NaiveOffsets(d, p, start, end)
  {
    ChunkedSound(d, p, start, end, cfg.blockSize, cfg.envelopeSize, start, o);
    NaiveMembers(d, p, start, end, o);
  }

  /** Too small an overlap does lose matches: "ab" searched in "ab" with
      one-byte blocks and no overlap is never seen whole. */
  lemma ShortEnvelopeMisses()
    ensures var d: seq<Byte> := [0x61, 0x62];
      && NaiveOffsets(d, Literal(d), 0, 2) == [0]
      && ChunkedFrom(d, Literal(d), 0, 2, 1, 0, 0) == []
  {
    var d: seq<Byte> := [0x61, 0x62];
    assert MatchAt(d, Literal(d), 0) by { assert d[0..2] == d; }
    assert NaiveOffsets(d, Literal(d), 0, 2) == MatchOffsets(d, Literal(d), 0, 1);
    assert d[0..1] == [0x61] && d[1..2] == [0x62];
  }

  // ---------------------------------------------------------------------
  // Requests.

  /** The pattern a request asks for: its regular expression if it has one,
      otherwise its literal with the input obfuscation undone; a request
      with neither is refused. */
  function SelectPattern(req: GrepRequest): (r: Result<Pattern<Byte>, GrepError>)
    ensures r.Err? <==> req.regex == [] && req.literal == []
    ensures r.Err? ==> r.error == NoPattern
    ensures r.Ok? ==> PatternLength(r.value) >= 1
    ensures req.regex != [] ==> r == Ok(Regex(req.regex))
    ensures req.regex == [] && r.Ok? ==> r.value.Literal? && Xor(r.value.needle, req.xorInKey) == req.literal
  {
    if req.regex != [] then Ok(Regex(req.regex))
    else if req.literal != [] then
      XorInvolution(req.literal, req.xorInKey);
      Ok(Literal(Xor(req.literal, req.xorInKey)))
    else Err(NoPattern)
  }

  /** A needle obfuscated with the input key is searched for in clear. */
  lemma ObfuscatedLiteralIsPlain(target: PathSpec, plain: seq<Byte>, key: Byte)
    requires plain != []
    ensures SelectPattern(GrepRequest(target, literal := Xor(plain, key), xorInKey := key)) == Ok(Literal(plain))
  {
    XorInvolution(plain, key);
  }

  /** What the block-by-block scan of `d` returns. */
  function ChunkedGrep(d: seq<Byte>, p: Pattern<Byte>, start: nat, end: nat, cfg: SearchConfig, before: nat, after: nat, outKey: Byte): seq<BufferReference>
    requires end <= |d|
  {
    var offs := ChunkedFrom(d, p, start, end, cfg.blockSize, cfg.envelopeSize, start);
    ChunkedIncreasing(d, p, start, end, cfg.blockSize, cfg.envelopeSize, start);
    Truncate(Refs(d, offs, PatternLength(p), before, after, outKey), cfg.hitLimit, outKey)
  }

  /** The outcome of a Grep request: opening the target, choosing the
      pattern and reading fail in that order; otherwise the scan's results. */
  function GrepOutcome(fs: Filesystem, cfg: SearchConfig, req: GrepRequest): (r: Result<seq<BufferReference>, GrepError>)
    ensures r == Err(OpenFailed) <==> CollapsePath(req.target) !in fs
    ensures r == Err(NoPattern) <==> CollapsePath(req.target) in fs && SelectPattern(req).Err?
    ensures r == Err(ReadFailed) <==>
              CollapsePath(req.target) in fs && SelectPattern(req).Ok? && fs[CollapsePath(req.target)].Dir?
    ensures r.Ok? ==> |r.value| <= cfg.hitLimit + 1
  {
    var path := CollapsePath(req.target);
    if path !in fs then Err(OpenFailed)
    else
      match SelectPattern(req)
      case Err(e) => Err(e)
      case Ok(p) =>
        match fs[path]
        case Dir(_) => Err(ReadFailed)
        case File(d) =>
          Ok(ChunkedGrep(d, p, req.startOffset, ScanEnd(|d|, req.startOffset, req.length), cfg,
                         req.bytesBefore, req.bytesAfter, req.xorOutKey))
  }

  /** A Grep of a mapped file whose overlap covers the pattern returns what
      the whole-buffer search prescribes. */
  lemma GrepOutcomeIsSpec(fs: Filesystem, cfg: SearchConfig, req: GrepRequest, d: seq<Byte>, p: Pattern<Byte>)
    requires CollapsePath(req.target) in fs && fs[CollapsePath(req.target)] == File(d)
    requires SelectPattern(req) == Ok(p) && EnvelopeCovers(cfg, p)
    ensures GrepOutcome(fs, cfg, req) == Ok(GrepSpec(d, p, req.startOffset, ScanEnd(|d|, req.startOffset, req.length),
                                                     req.bytesBefore, req.bytesAfter, cfg.hitLimit, req.xorOutKey))
  {
    ChunkedIsNaive(d, p, req.startOffset, ScanEnd(|d|, req.startOffset, req.length), cfg);
  }

  // ---------------------------------------------------------------------
  // The scanner.

  /** The scan's state before reading the block at `pos`: the retained
      tail, the hits reported so far followed by those still to come make
      up the whole scan, and the results so far are theirs. */
  ghost predicate ScanInvariant(d: seq<Byte>, p: Pattern<Byte>, start: nat, end: nat, cfg: SearchConfig,
                                before: nat, after: nat, outKey: Byte,
                                pos: nat, tail: seq<Byte>, found: seq<int>, refs: seq<BufferReference>)
  {
    && start <= pos && end <= |d|
    && (pos <= end ==> tail == d[Max(start, pos - cfg.envelopeSize)..pos])
    && ChunkedFrom(d, p, start, end, cfg.blockSize, cfg.envelopeSize, start)
       == found + ChunkedFrom(d, p, start, end, cfg.blockSize, cfg.envelopeSize, pos)
    && AllInside(d, found, PatternLength(p)) && refs == Refs(d, found, PatternLength(p), before, after, outKey)
    && |found| <= cfg.hitLimit
  }

  /** Scans the file behind `h` from `start` to `end`: reads blocks through
      the handle, keeps the last `envelopeSize` bytes of each buffer in front
      of the next block, and stops early once the hit limit is passed.
      Where the handle's read offset ends up is not specified: the caller
      does not read through the handle afterwards. */
  method Scan(h: MockHandler, p: Pattern<Byte>, start: nat, end: nat, cfg: SearchConfig, before: nat, after: nat, outKey: Byte)
    returns (refs: seq<BufferReference>)
    requires h.Valid() && h.content.File? && end <= h.size
    modifies h
    ensures refs == ChunkedGrep(h.content.content, p, start, end, cfg, before, after, outKey)
  {
    ghost var found: seq<int> := [];
    refs := [];
    h.Seek(start);
    var pos := start;
    var tail: seq<Byte> := [];
    ScanStart(h.content.content, p, start, end, cfg, before, after, outKey);
    while pos < end
      invariant h.Valid() && h.offset == pos
      invariant ScanInvariant(h.content.content, p, start, end, cfg, before, after, outKey, pos, tail, found, refs)
      decreases end - pos
    {
      var done;
      refs, found, pos, tail, done := ScanStep(h, p, start, end, cfg, before, after, outKey, pos, tail, found, refs);
      if done {
        return;
      }
    }
    ScanComplete(h.content.content, p, start, end, cfg, before, after, outKey, pos, tail, found, refs);
  }

  /** Before the first block nothing is found and nothing is retained. */
  lemma ScanStart(d: seq<Byte>, p: Pattern<Byte>, start: nat, end: nat, cfg: SearchConfig,
                  before: nat, after: nat, outKey: Byte)
    requires end <= |d|
    ensures ScanInvariant(d, p, start, end, cfg, before, after, outKey, start, [], [], [])
  {
    assert [] + ChunkedFrom(d, p, start, end, cfg.blockSize, cfg.envelopeSize, start)
        == ChunkedFrom(d, p, start, end, cfg.blockSize, cfg.envelopeSize, start);
  }

  /** Once the scan has passed `end`, the results so far are the whole
      scan's, and they are within the hit limit. */
  lemma ScanComplete(d: seq<Byte>, p: Pattern<Byte>, start: nat, end: nat, cfg: SearchConfig,
                     before: nat, after: nat, outKey: Byte,
                     pos: nat, tail: seq<Byte>, found: seq<int>, refs: seq<BufferReference>)
    requires end <= pos
    requires ScanInvariant(d, p, start, end, cfg, before, after, outKey, pos, tail, found, refs)
    ensures refs == ChunkedGrep(d, p, start, end, cfg, before, after, outKey)
  {
    assert ChunkedFrom(d, p, start, end, cfg.blockSize, cfg.envelopeSize, pos) == [];
    assert found + [] == found;
  }

  /** One block of the scan: reads it, searches it behind the retained tail
      and either finishes the scan (a zero block size, or the hit limit
      passed) or leaves the state for the next block. */
  method ScanStep(h: MockHandler, p: Pattern<Byte>, start: nat, end: nat, cfg: SearchConfig, before: nat, after: nat, outKey: Byte,
                  pos: nat, tail: seq<Byte>, ghost found0: seq<int>, refs0: seq<BufferReference>)
    returns (refs: seq<BufferReference>, ghost found: seq<int>, next: nat, nextTail: seq<Byte>, done: bool)
    requires h.Valid() && h.content.File? && end <= h.size && h.offset == pos && pos < end
    requires ScanInvariant(h.content.content, p, start, end, cfg, before, after, outKey, pos, tail, found0, refs0)
    modifies h
    ensures done ==> refs == ChunkedGrep(h.content.content, p, start, end, cfg, before, after, outKey)
    ensures !done ==> pos < next && h.offset == next
    ensures !done ==> ScanInvariant(h.content.content, p, start, end, cfg, before, after, outKey, next, nextTail, found, refs)
  {
    var buf, bufLo, hi := ReadBlock(h, p, start, end, cfg, pos, tail);
    if hi == pos {
      return refs0, found0, pos, tail, true;
    }
    refs, found, done := SearchBlock(h, p, start, end, cfg, before, after, outKey, pos, buf, bufLo, hi, found0, refs0);
    next, nextTail := hi, buf[|buf| - Min(|buf|, cfg.envelopeSize)..];
  }

  /** Searches the combined buffer of the block at `pos` and accounts for
      its hits: either the hit limit is passed and the results are final,
      or the hits so far and the blocks after `hi` make up the whole scan. */
  method SearchBlock(h: MockHandler, p: Pattern<Byte>, start: nat, end: nat, cfg: SearchConfig, before: nat, after: nat, outKey: Byte,
                     pos: nat, buf: seq<Byte>, bufLo: nat, hi: nat, ghost found0: seq<int>, refs0: seq<BufferReference>)
    returns (refs: seq<BufferReference>, ghost found: seq<int>, stopped: bool)
    requires h.Valid() && h.content.File? && end <= h.size && h.offset == hi
    requires start <= pos < end && pos < hi && BlockRead(h.content.content, p, start, end, cfg, pos, buf, bufLo, hi)
    requires ChunkedFrom(h.content.content, p, start, end, cfg.blockSize, cfg.envelopeSize, start)
      == found0 + ChunkedFrom(h.content.content, p, start, end, cfg.blockSize, cfg.envelopeSize, pos)
    requires AllInside(h.content.content, found0, PatternLength(p))
    requires refs0 == Refs(h.content.content, found0, PatternLength(p), before, after, outKey)
    requires |found0| <= cfg.hitLimit
    modifies h
    ensures h.offset == hi
    ensures stopped ==> refs == ChunkedGrep(h.content.content, p, start, end, cfg, before, after, outKey)
    ensures !stopped ==> (ChunkedFrom(h.content.content, p, start, end, cfg.blockSize, cfg.envelopeSize, start)
      == found + ChunkedFrom(h.content.content, p, start, end, cfg.blockSize, cfg.envelopeSize, hi))
    ensures !stopped ==> (AllInside(h.content.content, found, PatternLength(p))
      && refs == Refs(h.content.content, found, PatternLength(p), before, after, outKey)
      && |found| <= cfg.hitLimit)
  {
    ghost var d := h.content.content;
    refs, found, stopped := ScanBlock(h, p, buf, bufLo, pos - bufLo, hi, before, after, outKey, cfg.hitLimit, refs0, found0);
    if stopped {
      StopAtLimit(d, p, start, end, cfg, pos, found0, found, before, after, outKey);
    } else {
      AdvanceScan(d, p, start, end, cfg, pos, found0, found);
    }
  }

  /** One step of ChunkedFrom: the hits of the block at `lo`, then the rest. */
  lemma ChunkedStep(d: seq<Byte>, p: Pattern<Byte>, start: nat, end: nat, cfg: SearchConfig, lo: nat)
    requires start <= lo < end <= |d| && cfg.blockSize >= 1
    ensures ChunkedFrom(d, p, start, end, cfg.blockSize, cfg.envelopeSize, lo)
      == HitsAt(d, p, start, end, cfg, lo) + ChunkedFrom(d, p, start, end, cfg.blockSize, cfg.envelopeSize, Min(end, lo + cfg.blockSize))
  {
  }

  /** Reads the next block at `pos` through the handle and puts the retained
      tail in front of it: the combined buffer ChunkedFrom searches there.
      A zero block size reads nothing. */
  method ReadBlock(h: MockHandler, p: Pattern<Byte>, start: nat, end: nat, cfg: SearchConfig, pos: nat, tail: seq<Byte>)
    returns (buf: seq<Byte>, bufLo: nat, hi: nat)
    requires h.Valid() && h.content.File? && end <= h.size && h.offset == pos && start <= pos < end
    requires tail == h.content.content[Max(start, pos - cfg.envelopeSize)..pos]
    modifies h
    ensures h.offset == hi
    ensures BlockRead(h.content.content, p, start, end, cfg, pos, buf, bufLo, hi)
  {
    var block := h.Read(Min(cfg.blockSize, end - pos));
    var data := block.value;
    hi := pos + |data|;
    buf := tail + data;
    bufLo := pos - |tail|;
    NextBlock(h.content.content, p, start, end, cfg, pos, tail, data, buf, bufLo, hi);
  }

  /** What reading the block at `pos` yields: nothing for a zero block size;
      otherwise the block [pos, hi) behind the retained tail, which is the
      buffer ChunkedFrom searches there. */
  ghost predicate BlockRead(d: seq<Byte>, p: Pattern<Byte>, start: nat, end: nat, cfg: SearchConfig,
                            pos: nat, buf: seq<Byte>, bufLo: nat, hi: nat)
    requires start <= pos < end <= |d|
  {
    && pos <= hi <= end
    && (hi == pos <==> cfg.blockSize == 0)
    && (hi > pos ==>
      && hi == Min(end, pos + cfg.blockSize) && bufLo == Max(start, pos - cfg.envelopeSize)
      && buf == d[bufLo..hi] && bufLo <= pos
      && BlockHits(buf, p, pos - bufLo, bufLo) == HitsAt(d, p, start, end, cfg, pos)
      && buf[|buf| - Min(|buf|, cfg.envelopeSize)..] == d[Max(start, hi - cfg.envelopeSize)..hi])
  }

  /** The hits of the block the scan reads at `pos`. */
  function HitsAt(d: seq<Byte>, p: Pattern<Byte>, start: nat, end: nat, cfg: SearchConfig, pos: nat): seq<int>
    requires start <= pos <= end <= |d|
  {
    var hi := Min(end, pos + cfg.blockSize);
    var bufLo := Max(start, pos - cfg.envelopeSize);
    BlockHits(d[bufLo..hi], p, pos - bufLo, bufLo)
  }

  /** Where a block stops the scan, the results so far are the truncated
      results of the whole scan. */
  lemma StopAtLimit(d: seq<Byte>, p: Pattern<Byte>, start: nat, end: nat, cfg: SearchConfig, pos: nat,
                    found0: seq<int>, found: seq<int>, before: nat, after: nat, outKey: Byte)
    requires start <= pos < end <= |d| && cfg.blockSize >= 1 && |found| == cfg.hitLimit
    requires ChunkedFrom(d, p, start, end, cfg.blockSize, cfg.envelopeSize, start)
      == found0 + ChunkedFrom(d, p, start, end, cfg.blockSize, cfg.envelopeSize, pos)
    requires AllInside(d, found, PatternLength(p))
    requires var here := HitsAt(d, p, start, end, cfg, pos);
      |found0 + here| > |found| && (found0 + here)[..|found|] == found
    ensures ChunkedGrep(d, p, start, end, cfg, before, after, outKey)
      == Refs(d, found, PatternLength(p), before, after, outKey) + [Notice(outKey)]
  {
    var m := PatternLength(p);
    var all := ChunkedFrom(d, p, start, end, cfg.blockSize, cfg.envelopeSize, start);
    var here := HitsAt(d, p, start, end, cfg, pos);
    var rest := ChunkedFrom(d, p, start, end, cfg.blockSize, cfg.envelopeSize, Min(end, pos + cfg.blockSize));
    ChunkedIncreasing(d, p, start, end, cfg.blockSize, cfg.envelopeSize, start);
    ChunkedStep(d, p, start, end, cfg, pos);
    ConcatAssoc(found0, here, rest);
    assert all[..|found|] == found;
    TruncateAtLimit(d, all, found, m, before, after, outKey);
  }

  /** Where a block does not stop the scan, the hits so far and the rest of
      the scan still make up the whole scan. */
  lemma AdvanceScan(d: seq<Byte>, p: Pattern<Byte>, start: nat, end: nat, cfg: SearchConfig, pos: nat,
                    found0: seq<int>, found: seq<int>)
    requires start <= pos < end <= |d| && cfg.blockSize >= 1
    requires ChunkedFrom(d, p, start, end, cfg.blockSize, cfg.envelopeSize, start)
      == found0 + ChunkedFrom(d, p, start, end, cfg.blockSize, cfg.envelopeSize, pos)
    requires found == found0 + HitsAt(d, p, start, end, cfg, pos)
    ensures ChunkedFrom(d, p, start, end, cfg.blockSize, cfg.envelopeSize, start)
      == found + ChunkedFrom(d, p, start, end, cfg.blockSize, cfg.envelopeSize, Min(end, pos + cfg.blockSize))
  {
    ChunkedStep(d, p, start, end, cfg, pos);
    ConcatAssoc(found0, HitsAt(d, p, start, end, cfg, pos),
                ChunkedFrom(d, p, start, end, cfg.blockSize, cfg.envelopeSize, Min(end, pos + cfg.blockSize)));
  }

  /** The block read at `pos`, behind the retained tail, is the buffer
      ChunkedFrom searches there, and the tail kept from it is the one the
      next step needs. */
  lemma NextBlock(d: seq<Byte>, p: Pattern<Byte>, start: nat, end: nat, cfg: SearchConfig,
                  pos: nat, tail: seq<Byte>, data: seq<Byte>, buf: seq<Byte>, bufLo: nat, hi: nat)
    requires start <= pos < end <= |d|
    requires tail == d[Max(start, pos - cfg.envelopeSize)..pos]
    requires data == PySlice(d, pos, Min(cfg.blockSize, end - pos))
    requires hi == pos + |data| && buf == tail + data && bufLo == pos - |tail|
    ensures BlockRead(d, p, start, end, cfg, pos, buf, bufLo, hi)
  {
    assert |data| == Min(cfg.blockSize, end - pos);
    if hi > pos {
      assert |tail| == pos - Max(start, pos - cfg.envelopeSize);
      assert hi == Min(end, pos + cfg.blockSize) && data == d[pos..hi];
      BufferIsSlice(d, bufLo, pos, hi, tail, data);
      WholeBlock(d, p, start, end, cfg, pos, buf, bufLo, hi);
    }
  }

  /** A buffer that is the data from the retained tail's first byte to the
      block's last holds the block's hits and the next tail. */
  lemma WholeBlock(d: seq<Byte>, p: Pattern<Byte>, start: nat, end: nat, cfg: SearchConfig,
                   pos: nat, buf: seq<Byte>, bufLo: nat, hi: nat)
    requires start <= pos < hi <= end <= |d|
    requires hi == Min(end, pos + cfg.blockSize) && bufLo == Max(start, pos - cfg.envelopeSize)
    requires buf == d[bufLo..hi]
    ensures BlockHits(buf, p, pos - bufLo, bufLo) == HitsAt(d, p, start, end, cfg, pos)
    ensures buf[|buf| - Min(|buf|, cfg.envelopeSize)..] == d[Max(start, hi - cfg.envelopeSize)..hi]
  {
    TailKept(d, start, pos, hi, cfg.envelopeSize, buf, bufLo);
  }

  /** The last `env` bytes of the buffer (or all of it, if shorter) are the
      data's last `env` bytes before `hi`, not reaching below `start`. */
  lemma TailKept(d: seq<Byte>, start: nat, pos: nat, hi: nat, env: nat, buf: seq<Byte>, bufLo: nat)
    requires bufLo == Max(start, pos - env) && start <= pos < hi <= |d| && buf == d[bufLo..hi]
    ensures buf[|buf| - Min(|buf|, env)..] == d[Max(start, hi - env)..hi]
  {
    var keep := |buf| - Min(|buf|, env);
    assert bufLo + keep == Max(start, hi - env);
    assert buf[keep..] == d[bufLo + keep..hi];
  }

  /** The retained tail followed by the block read is the slice of the data
      from the tail's first byte to the block's last. */
  lemma BufferIsSlice(d: seq<Byte>, bufLo: nat, pos: nat, hi: nat, tail: seq<Byte>, data: seq<Byte>)
    requires bufLo <= pos <= hi <= |d| && tail == d[bufLo..pos] && data == d[pos..hi]
    ensures tail + data == d[bufLo..hi]
  {
  }

  /** The hits of a combined buffer among its candidate offsets below `j`. */
  function BlockHitsBelow(buf: seq<Byte>, p: Pattern<Byte>, pre: nat, base: int, j: int): seq<int>
  {
    Shift(MatchOffsets(buf, p, pre - PatternLength(p) + 1, j), base)
  }

  /** Moving the candidate bound past `j` adds `j`'s hit, if any. */
  lemma BlockHitsBelowStep(buf: seq<Byte>, p: Pattern<Byte>, pre: nat, base: int, j: int)
    requires pre - PatternLength(p) + 1 <= j
    ensures BlockHitsBelow(buf, p, pre, base, j + 1)
      == BlockHitsBelow(buf, p, pre, base, j) + (if MatchAt(buf, p, j) then [base + j] else [])
  {
    var from := pre - PatternLength(p) + 1;
    MatchOffsetsSplit(buf, p, from, j, j + 1);
    ShiftConcat(MatchOffsets(buf, p, from, j), MatchOffsets(buf, p, j, j + 1), base);
  }

  /** Searches one combined buffer starting at absolute offset `bufLo`,
      whose first `pre` bytes are the retained tail, and reports the
      matches ending in the new bytes, each with its window fetched
      through the handle. `stopped` says the hit limit was passed and the
      notice appended. */
  method ScanBlock(h: MockHandler, p: Pattern<Byte>, buf: seq<Byte>, bufLo: nat, pre: nat, hi: nat,
                   before: nat, after: nat, outKey: Byte, limit: nat,
                   refs0: seq<BufferReference>, ghost found0: seq<int>)
    returns (refs: seq<BufferReference>, ghost found: seq<int>, stopped: bool)
    requires h.Valid() && h.content.File? && h.offset == hi && hi <= h.size
    requires bufLo + |buf| == hi && buf == h.content.content[bufLo..hi] && pre <= |buf|
    requires AllInside(h.content.content, found0, PatternLength(p))
    requires refs0 == Refs(h.content.content, found0, PatternLength(p), before, after, outKey)
    requires |found0| <= limit
    modifies h
    ensures h.offset == hi
    ensures AllInside(h.content.content, found, PatternLength(p))
    ensures !stopped ==> found == found0 + BlockHits(buf, p, pre, bufLo) && |found| <= limit
    ensures !stopped ==> refs == Refs(h.content.content, found, PatternLength(p), before, after, outKey)
    ensures stopped ==> |found| == limit && refs == Refs(h.content.content, found, PatternLength(p), before, after, outKey) + [Notice(outKey)]
    ensures stopped ==> |found0 + BlockHits(buf, p, pre, bufLo)| > limit && (found0 + BlockHits(buf, p, pre, bufLo))[..limit] == found
  {
    ghost var d := h.content.content;
    var m := PatternLength(p);
    refs, found, stopped := refs0, found0, false;
    var j := pre - m + 1;
    while j < |buf| - m + 1
      invariant pre - m + 1 <= j <= |buf| - m + 1
      invariant h.Valid() && h.offset == hi
      invariant found == found0 + BlockHitsBelow(buf, p, pre, bufLo, j)
      invariant AllInside(d, found, m) && refs == Refs(d, found, m, before, after, outKey)
      invariant |found| <= limit
      decreases |buf| - m + 1 - j
    {
      BlockHitsBelowStep(buf, p, pre, bufLo, j);
      if MatchAt(buf, p, j) {
        var o := bufLo + j;
        if |refs| == limit {
          PrefixOfBlock(buf, p, pre, bufLo, j, found0);
          refs := refs + [Notice(outKey)];
          stopped := true;
          return;
        }
        var r := FetchReference(h, o, m, before, after, outKey);
        RefsSnoc(d, found, o, m, before, after, outKey);
        refs := refs + [r];
        found := found + [o];
      }
      j := j + 1;
    }
  }

  /** The hits below a matching candidate `j` are a proper prefix of the
      block's hits. */
  lemma PrefixOfBlock(buf: seq<Byte>, p: Pattern<Byte>, pre: nat, base: int, j: int, found0: seq<int>)
    requires pre - PatternLength(p) + 1 <= j && MatchAt(buf, p, j)
    ensures var below := found0 + BlockHitsBelow(buf, p, pre, base, j);
      var whole := found0 + BlockHits(buf, p, pre, base);
      |whole| > |below| && whole[..|below|] == below
  {
    var m := PatternLength(p);
    var from := pre - m + 1;
    var to := |buf| - m + 1;
    var first, later := MatchOffsets(buf, p, from, j), MatchOffsets(buf, p, j, to);
    MatchOffsetsSplit(buf, p, from, j, to);
    MatchOffsetsMembers(buf, p, j, to, j);
    assert j in later;
    PrefixOfShift(first, later, base, found0);
  }

  /** Shifting a list with a non-empty continuation extends the shifted
      list, behind any common prefix. */
  lemma PrefixOfShift(first: seq<int>, later: seq<int>, base: int, found0: seq<int>)
    requires |later| > 0
    ensures var below := found0 + Shift(first, base);
      var whole := found0 + Shift(first + later, base);
      |whole| > |below| && whole[..|below|] == below
  {
    ShiftConcat(first, later, base);
  }

  /** Reads the window of the match at `o` through the handle and builds its
      result, leaving the handle's offset where it was. */
  method FetchReference(h: MockHandler, o: nat, m: nat, before: nat, after: nat, outKey: Byte) returns (r: BufferReference)
    requires h.Valid() && h.content.File? && o + m <= h.size
    modifies h
    ensures h.offset == old(h.offset)
    ensures r == Reference(h.content.content, o, m, before, after, outKey)
  {
    var resume := h.offset;
    var wLo := Max(0, o - before);
    var wHi := Min(h.size, o + m + after);
    h.Seek(wLo);
    var w := h.Read(wHi - wLo);
    h.Seek(resume);
    WindowRead(h.content.content, o, m, before, after);
    r := BufferReference(o, |w.value|, Xor(w.value, outKey));
  }

  /** Reading from the window's first byte up to its last fetches the window. */
  lemma WindowRead(d: seq<Byte>, o: int, m: nat, before: nat, after: nat)
    requires 0 <= o && o + m <= |d|
    ensures var lo := Max(0, o - before);
      PySlice(d, lo, Min(|d|, o + m + after) - lo) == Window(d, o, m, before, after)
  {
  }

  /** Appending a match offset appends its result. */
  lemma RefsSnoc(d: seq<Byte>, found: seq<int>, o: int, m: nat, before: nat, after: nat, outKey: Byte)
    requires AllInside(d, found, m) && 0 <= o && o + m <= |d|
    ensures AllInside(d, found + [o], m)
    ensures Refs(d, found + [o], m, before, after, outKey)
      == Refs(d, found, m, before, after, outKey) + [Reference(d, o, m, before, after, outKey)]
  {
  }

  /** Once `found` holds `limit` offsets and another follows, the truncated
      results are those of `found` followed by the notice. */
  lemma TruncateAtLimit(d: seq<Byte>, all: seq<int>, found: seq<int>, m: nat, before: nat, after: nat, outKey: Byte)
    requires AllInside(d, all, m) && AllInside(d, found, m)
    requires |all| > |found| && all[..|found|] == found
    ensures Truncate(Refs(d, all, m, before, after, outKey), |found|, outKey)
      == Refs(d, found, m, before, after, outKey) + [Notice(outKey)]
  {
    var limit := |found|;
    assert Refs(d, all, m, before, after, outKey)[..limit] == Refs(d, found, m, before, after, outKey);
  }

  /** Runs a Grep request against a mock filesystem: opens the target,
      chooses the pattern, probes that the target reads, and scans. */
  method Run(fs: Filesystem, cfg: SearchConfig, req: GrepRequest) returns (r: Result<seq<BufferReference>, GrepError>)
    ensures r == GrepOutcome(fs, cfg, req)
  {
    var h := MockHandler.Open(fs, req.target);
    if h == null {
      return Err(OpenFailed);
    }
    var pattern := SelectPattern(req);
    if pattern.Err? {
      return Err(pattern.error);
    }
    var probe := h.Read(0);
    if probe.None? {
      return Err(ReadFailed);
    }
    var end := ScanEnd(h.size, req.startOffset, req.length);
    var refs := Scan(h, pattern.value, req.startOffset, end, cfg, req.bytesBefore, req.bytesAfter, req.xorOutKey);
    return Ok(refs);
  }
}
