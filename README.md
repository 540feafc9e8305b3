# Searching client actions over a mock filesystem

This project models the behaviour that GRR's searching tests pin down.

- **The mock handler.** `MockVFSHandlerFind` is a read-only filesystem held in a dictionary. A path maps to a list of child names or to a byte string. The handler:
  - stats a path, taking the device from the path's prefix and the file type from the value's type;
  - lists a directory child by child;
  - reads a file through an offset that it moves.
- **Grep.** Searches one file for a literal or a regular expression. It reads the file block by block and keeps an overlap of the previous block. It reports every hit at its absolute offset, with a window of context obfuscated with an output XOR key. After a hit limit it stops with a notice.
- **Find.** Walks the tree below a root depth first. It reports the entries whose path and content match, and does not descend into a directory on another device unless asked. It stops after a quota of hits and hands back a cursor from which the next call resumes.

Files:

- `common.dfy`: options, results, integer helpers and facts about strictly increasing lists.
- `bytes.dfy`: bytes and the XOR obfuscation.
- `pathspec.dfy`: path specifications and how they collapse to one path.
- `patterns.dfy`: literals and fixed-length regular expressions, and the offsets at which they match.
- `mockvfs.dfy`: the filesystem dictionary, `DoStat`, the listing, and the handler class with its read offset.
- `grep.dfy`:
  - the whole-buffer reference search `GrepSpec`;
  - the block-by-block scan, specified by `ChunkedFrom` / `ChunkedGrep` and implemented by the `Scan` method loop;
  - the theorem `ChunkedIsNaive` that the two agree whenever the overlap covers the pattern;
  - the request-level `GrepOutcome` and `Run`.
- `find.dfy`:
  - the preorder walk as a function (`Visit`, `Pending`, `Walk`, `FindOutcome`);
  - the cursor protocol and its resumption theorems;
  - the action as methods: `FindCall`, whose loop visits one pending entry at a time, and `FindOneAtATime`, the test's paging loop.
- `grep_fixtures.dfy`, `find_fixtures.dfy`: each test of the searching test file as a theorem about the model.
  - The Grep theorems are stated for every pair of XOR keys, so they cover both `GrepTest` and `XoredSearchingTest`.
  - Where a test runs under the default scanner settings, the theorem holds for every block size, overlap and hit limit that admit the test.

The action implementation (`client/client_actions/searching.py`) is not part of this model. What Grep and Find do is taken from the assertions in `client/client_actions/searching_test.py`, which the rows below cite.

## Model

| member | source | states |
|---|---|---|
| MockVfs.DoStat | client/client_actions/searching_test.py:77-89 | a stat exists exactly for mapped paths; the mode says directory exactly for a list value and regular file exactly for a string value; the device is 1 exactly under "/mock2/directory3", 2 otherwise; the size is the value's len() |
| MockVfs.Names | client/client_actions/searching_test.py:93 | iterating a directory value yields its child names; the count is always the value's len() |
| MockVfs.ListingFrom | client/client_actions/searching_test.py:91-100 | the listing yields children in order, each at parent + "/" + name, mapped, carrying that path's DoStat and the parent's path specification with the child appended; it stops exactly at the first unmapped child |
| MockVfs.PySlice | client/client_actions/searching_test.py:70 | the Python slice content[offset:offset+length], clipped at the end of the data and empty past it |
| MockVfs.MockHandler.constructor | client/client_actions/searching_test.py:52-63 | a handle on a mapped path holds the collapsed path, the mapped value and (for a file) its length as size, with the offset at 0 |
| MockVfs.MockHandler.Open | client/client_actions/searching_test.py:58-63 | opening fails (null, for the raised IOError) exactly when the collapsed path is not mapped; otherwise a fresh valid handle at offset 0 |
| MockVfs.MockHandler.Read | client/client_actions/searching_test.py:65-72 | reading a directory fails and leaves the offset; reading a file returns the slice at the old offset and moves the offset to min(size, old + bytes read), never past the size |
| MockVfs.MockHandler.ListNames | client/client_actions/searching_test.py:74-75 | returns the mapped value itself |
| MockVfs.MockHandler.ListFiles | client/client_actions/searching_test.py:91-100 | the entries are the listing of the handle's path and specification, in order; the listing is complete exactly when every child was yielded |
| MockVfs.MockHandler.IsDirectory | client/client_actions/searching_test.py:102-103 | true exactly when the mapped value is non-empty |
| MockVfs.MockHandler.Stat | client/client_actions/searching_test.py:105-108 | the DoStat of the handle's own path carrying the handle's specification; the mode says directory exactly for a directory |
| MockVfs.MockFilesystem | client/client_actions/searching_test.py:38-50 | the mocked dictionary: every value, directory list or file text, is non-empty, so IsDirectory answers true for every mocked path |
| MockVfs.LongFileContent | client/client_actions/searching_test.py:48-49 | the long file is 600008 bytes |
| MockVfs.IsDirectoryIsNotATypeTest | client/client_actions/searching_test.py:84-87 | a non-empty file is truthy while its mode says regular file, and an empty directory is falsy while its mode says directory |
| PathSpecs.CollapsePath | client/client_actions/searching_test.py:56 | a collapsed path is absolute |
| PathSpecs.Append | client/client_actions/searching_test.py:97-98 | a copy with one more segment; the original segments are unchanged |
| PathSpecs.ComponentsOfJoin | client/client_actions/searching_test.py:95 | splitting the "/"-join of plain names gives the names back |
| PathSpecs.CollapseIdempotent | client/client_actions/searching_test.py:56 | a collapsed path collapses to itself |
| PathSpecs.CollapseAppend | client/client_actions/searching_test.py:95-98 | a specification with a child appended collapses to the parent's path + "/" + child, and its basename is the child |
| Bytes.Xor | client/client_actions/searching_test.py:247 | same length, every byte XORed with the key |
| Bytes.XorInvolution | client/client_actions/searching_test.py:259-260 | XOR with the same key undoes itself, so the receiver recovers the bytes |
| Bytes.XorZero | client/client_actions/searching_test.py:232-233 | key 0 leaves the bytes alone |
| Bytes.XorSlice | client/client_actions/searching_test.py:406-407 | XOR commutes with slicing |
| Patterns.MatchOffsetsIncreasing | client/client_actions/searching_test.py:255-258 | the reported offsets lie in range and strictly increase |
| Patterns.MatchOffsetsMembers | client/client_actions/searching_test.py:255-258 | an offset is reported exactly when the pattern matches there within range |
| Patterns.LiteralClasses | client/client_actions/searching_test.py:267 | a literal as a regular expression: one singleton class per byte |
| Patterns.LiteralIsRegex | client/client_actions/searching_test.py:247-267 | a literal and its singleton-class expression match at exactly the same offsets |
| Patterns.SameMatchesSameOffsets | client/client_actions/searching_test.py:256-276 | patterns that match at the same offsets report the same ordered offsets |
| Grep.ScanEnd | client/client_actions/searching_test.py:297-307 | scanning stops at the end of the data, or at start + length when that comes first |
| Grep.NaiveIncreasing | client/client_actions/searching_test.py:255-258 | the reference offsets strictly increase and each match lies wholly in [start, end) |
| Grep.NaiveMembers | client/client_actions/searching_test.py:326-348 | the reference search reports exactly the matches lying wholly in [start, end), at their absolute offsets |
| Grep.Window | client/client_actions/searching_test.py:454 | the window has min(o, before) + m + min(rest, after) bytes, with the match at index min(o, before) |
| Grep.Reference | client/client_actions/searching_test.py:403-407 | a result reports the match offset, a length equal to its data's length, and data that XORs back to the window |
| Grep.Truncate | client/client_actions/searching_test.py:476-480 | up to the limit the results are unchanged; beyond it, the first `limit` results and then the notice, limit + 1 in all |
| Grep.ChunkedIncreasing | client/client_actions/searching_test.py:367-383 | the block-by-block scan reports strictly increasing offsets within the scanned range |
| Grep.ChunkedSound | client/client_actions/searching_test.py:385-403 | every offset the scan reports is a true match lying in the scanned range |
| Grep.ChunkedComplete | client/client_actions/searching_test.py:385-403 | with an overlap of at least the match length less one, every match in range is reported |
| Grep.ChunkedIsNaive | client/client_actions/searching_test.py:434-453 | with such an overlap, the block-by-block scan reports exactly the reference offsets, in order |
| Grep.ChunkedWithinNaive | client/client_actions/searching_test.py:119-121 | whatever the overlap, the scan reports only reference offsets |
| Grep.ShortEnvelopeMisses | client/client_actions/searching_test.py:119-121 | with no overlap, a two-byte match straddling a block boundary is lost |
| Grep.SelectPattern | client/client_actions/searching_test.py:246-267 | a request is refused exactly when it has neither an expression nor a literal; an expression takes precedence; a literal is searched in clear, with the input key undone |
| Grep.ObfuscatedLiteralIsPlain | client/client_actions/searching_test.py:483-487 | a needle sent XORed with the input key is searched for as the plain needle |
| Grep.GrepOutcome | client/client_actions/searching_test.py:283-295 | one Grep call: it fails to open exactly when the target is unmapped, lacks a pattern exactly when the target is mapped but the request has neither expression nor literal, and fails to read exactly when the target is a directory; otherwise at most hit limit + 1 results |
| Grep.GrepOutcomeIsSpec | client/client_actions/searching_test.py:367-407 | a Grep of a mapped file whose overlap covers the pattern returns the reference results: every match in range, in order, with its window, truncated at the limit |
| Grep.Scan | client/client_actions/searching_test.py:367-407 | the scan loop over the handle returns exactly the specified block-by-block results |
| Grep.ScanStep | client/client_actions/searching_test.py:367-407 | one block either completes the results or advances the offset past the block with the scan state kept |
| Grep.ReadBlock | client/client_actions/searching_test.py:367-383 | reading a block puts the retained overlap in front of it, giving the data slice from the overlap's first byte to the block's last |
| Grep.ScanBlock | client/client_actions/searching_test.py:385-403 | the hits of one buffer are those ending in its new bytes; the search stops once the hit limit is passed |
| Grep.FetchReference | client/client_actions/searching_test.py:404-407 | seeking and reading around a match builds its result and leaves the read offset where it was |
| Grep.StopAtLimit | client/client_actions/searching_test.py:459-480 | where a block passes the limit, the results so far are the truncated results of the whole file |
| Grep.AdvanceScan | client/client_actions/searching_test.py:367-383 | where a block stays within the limit, the hits so far and those still to come make up all hits |
| Grep.TruncateAtLimit | client/client_actions/searching_test.py:476-477 | once `limit` hits are in hand and another follows, they and the notice are the truncated results |
| Grep.Run | client/client_actions/searching_test.py:285-295 | running a request returns the request's outcome: open failure, missing pattern, directory read failure, or the scan's results |
| Find.ListingGood | client/client_actions/searching_test.py:91-100 | listing a mapped directory yields entries whose paths are mapped and collapse from their specifications |
| Find.PendingStep | client/client_actions/searching_test.py:206-226 | visiting the first pending entry removes exactly that entry from the preorder |
| Find.HitsOfMembers | client/client_actions/searching_test.py:149 | the hits are the stats of exactly the matching entries |
| Find.Walk | client/client_actions/searching_test.py:206-226 | the walk of one call keeps the hits it was given, reports no more than the quota, and stops with entries still pending only once the quota is met |
| Find.FindOutcome | client/client_actions/searching_test.py:144-149 | one Find call: at most the quota of hits with the quota kept on the cursor; a finished cursor yields nothing and comes back unchanged; an unmapped root yields no hits and a finished cursor; a running cursor stays running only with a full page, and a finished one has an empty bag |
| Find.WalkSound | client/client_actions/searching_test.py:156-166 | a call reports the next hits of the preorder up to the quota, leaves exactly the later ones pending, and stops short only when nothing is left |
| Find.FreshIsListing | client/client_actions/searching_test.py:144-149 | a fresh walk reports among the preorder of the root's listing; the root itself is not reported |
| Find.RespondSplits | client/client_actions/searching_test.py:158-166 | the returned cursor is finished, with an empty bag, exactly when everything was reported; otherwise it carries exactly the rest |
| Find.FindSplits | client/client_actions/searching_test.py:156-175 | a call reports a prefix of what remains, at most its quota; the returned cursor resumes with exactly the rest; a cursor the call finishes has an empty bag |
| Find.OneShot | client/client_actions/searching_test.py:146-149 | a quota larger than what remains gets it all in one call and finishes the cursor |
| Find.PageAllIsRemaining | client/client_actions/searching_test.py:151-169 | following the returned cursors loses and repeats nothing: the pages concatenate to what remained |
| Find.PagingIsOneShot | client/client_actions/searching_test.py:141-175 | paging a fresh walk with any positive quota gives the same ordered hits as one call with room for them all |
| Find.DotSelectsAll | client/client_actions/searching_test.py:146 | the path filter "." selects exactly what no path filter selects |
| Find.DotIsNoFilter | client/client_actions/searching_test.py:146-153 | a find filtered by "." answers exactly as the same find unfiltered |
| Find.UnfilteredHitsAll | client/client_actions/searching_test.py:206-226 | without filters every visited entry is a hit |
| Find.FileHasMatchIsFound | client/client_actions/searching_test.py:195-204 | the content filter selects a node exactly when it is a mapped file in which the pattern occurs |
| Find.EntryMatches | client/client_actions/searching_test.py:177-204 | deciding a hit through the handles agrees with the path and content filters |
| Find.ListChildren | client/client_actions/searching_test.py:91-100 | opening and listing an entry yields its children |
| Find.OpenRoot | client/client_actions/searching_test.py:144-148 | the root opens exactly when it is mapped; the walk then starts on the root's device from the cursor's entries or the root's listing |
| Find.VisitFirst | client/client_actions/searching_test.py:206-226 | the first pending entry is reported when it matches, and its children go in front of the rest when the walk enters it |
| Find.FindCall | client/client_actions/searching_test.py:148-157 | one call of the action, as a loop over pending entries, returns the specified response |
| Find.FindOneAtATime | client/client_actions/searching_test.py:151-175 | calling with a quota of one and the returned cursor collects exactly the hits that remained, ends finished with an empty bag, and, without filters, every call before the last reports one hit |
| Find.OneHitStep | client/client_actions/searching_test.py:156-166 | with a quota of one, a call reports at most one hit; without filters, a call with something left reports exactly one, and the cursor stays running only when more is left |
| Find.UnfilteredNotEmpty | client/client_actions/searching_test.py:161 | without filters, a running cursor with pending entries has hits left |
| FindFixtures.MockShaped | client/client_actions/searching_test.py:38-50 | the fixture holds the ten mapped paths below "/mock2" with their values |
| FindFixtures.MockWellFormed | client/client_actions/searching_test.py:38-50 | the fixture dictionary is a well-formed tree |
| FindFixtures.RootCollapses | client/client_actions/searching_test.py:144 | "/mock2/" collapses to "/mock2" |
| FindFixtures.Devices | client/client_actions/searching_test.py:79-82 | of the mocked paths, exactly "/mock2/directory3" and its two files are on device 1; "/", "/mock2" and everything under directory1 are on device 2 |
| FindFixtures.Directory3Subtree | client/client_actions/searching_test.py:206-220 | directory3 is reported, but entered only when crossing devices |
| FindFixtures.MockWalk | client/client_actions/searching_test.py:38-50 | the preorder below "/mock2": directory1's subtree, then directory3's |
| FindFixtures.UnfilteredRemaining | client/client_actions/searching_test.py:206-226 | without filters, a fresh walk from "/mock2/" has 9 entries to report when crossing devices, 7 otherwise |
| FindFixtures.UnfilteredCounts | client/client_actions/searching_test.py:206-226 | with a quota of 200, one call reports 9 or 7 entries and finishes |
| FindFixtures.FreshPaging | client/client_actions/searching_test.py:141-175 | paging one hit at a time yields what one call with the filter "." and quota 200 yields |
| FindFixtures.Mp3Matches | client/client_actions/searching_test.py:177-188 | of the entries on the root's device, only the mp3 file's path contains "mp3" |
| FindFixtures.FreshMp3 | client/client_actions/searching_test.py:177-188 | the path filter finds exactly one entry, whose basename is "file.mp3" |
| FindFixtures.SmallFilesSecret | client/client_actions/searching_test.py:41-47 | of the small files, only "Secret 1" contains "Secret" |
| FindFixtures.LongFileSecret | client/client_actions/searching_test.py:48-49 | "Secret" occurs in the long file at byte 600002, so the content filter finds it |
| FindFixtures.DirectoryNoHit | client/client_actions/searching_test.py:195-204 | under a content filter a directory is never a hit |
| FindFixtures.FileHit | client/client_actions/searching_test.py:195-204 | under a content filter alone a file is a hit exactly when the pattern occurs in it |
| FindFixtures.SecretHits | client/client_actions/searching_test.py:195-204 | crossing devices, the entries containing "Secret" are directory1's file1.txt and then long_file.text |
| FindFixtures.FreshSecret | client/client_actions/searching_test.py:195-204 | the content filter finds two entries, "file1.txt" then "long_file.text" |
| FindFixtures.MockCrossDevs | client/client_actions/searching_test.py:206-226 | on the fixture: 9 hits when crossing devices, 7 when not, and 7 by default |
| FindFixtures.MockPaging | client/client_actions/searching_test.py:141-175 | on the fixture: the one-at-a-time pages equal the one-call result with the filter "." |
| FindFixtures.MockMp3 | client/client_actions/searching_test.py:177-188 | on the fixture: ".*mp3" finds only "file.mp3" |
| FindFixtures.MockSecret | client/client_actions/searching_test.py:190-204 | on the fixture: "Secret" finds "file1.txt" and then "long_file.text" |
| GrepFixtures.TargetCollapses | client/client_actions/searching_test.py:240 | the test's target collapses to "/mock2/directory1/grepfile.txt" |
| GrepFixtures.Install | client/client_actions/searching_test.py:283 | the data is installed at the target path |
| GrepFixtures.OneHitMatches | client/client_actions/searching_test.py:310 | "HIT" matches X*a + HIT + X*b exactly at a |
| GrepFixtures.HitGrep | client/client_actions/searching_test.py:285-293 | a "HIT" request for any keys returns the reference results for the installed data |
| GrepFixtures.OneHitGrep | client/client_actions/searching_test.py:280-348 | against X*a + HIT + X*b: the one hit at a when it lies wholly in the scanned range, nothing otherwise |
| GrepFixtures.OneHitWindow | client/client_actions/searching_test.py:409-432 | the window is min(a, before) X's, HIT, min(b, after) X's |
| GrepFixtures.OneHitResult | client/client_actions/searching_test.py:403-407 | the result reports offset a and the window's length, and XORs back to the window |
| GrepFixtures.GrepLength | client/client_actions/searching_test.py:280-307 | X*100 + HIT gives one hit at 100; with length 100, no hit |
| GrepFixtures.GrepOffset | client/client_actions/searching_test.py:309-348 | the hit at 10 is reported at 10 from start 0 and from start 5; from start 11, no hit |
| GrepFixtures.OffsetAndLength | client/client_actions/searching_test.py:350-365 | from start 11 with length 100, neither hit is reported |
| GrepFixtures.SecondBuffer | client/client_actions/searching_test.py:367-383 | with 1000-byte blocks and a 100-byte overlap, one hit at 1500 |
| GrepFixtures.BufferBoundaries | client/client_actions/searching_test.py:385-407 | for every hit offset 980..1019: one hit at its offset, 23 bytes long, X*10 + HIT + X*10 after XOR |
| GrepFixtures.SnippetSize | client/client_actions/searching_test.py:409-432 | for before and after up to 100: one hit at 100 whose data is X*before + HIT + X*after and whose length matches |
| GrepFixtures.GrepEverywhere | client/client_actions/searching_test.py:434-457 | with 100-byte blocks and a 50-byte overlap, for every offset below 500: one hit at the offset whose data and length are those of data[max(0, offset - 10):offset + 13] |
| GrepFixtures.HitUnit | client/client_actions/searching_test.py:462 | the unit is 23 bytes |
| GrepFixtures.AtLeastOnePerCopy | client/client_actions/searching_test.py:462-463 | n copies of a unit holding the needle hold at least n matches |
| GrepFixtures.NoticeSaysWhy | client/client_actions/searching_test.py:478 | the notice contains "maximum number of hits" |
| GrepFixtures.HitLimit | client/client_actions/searching_test.py:459-480 | limit + 100 units give limit + 1 results, the last of which XORs back to text containing "maximum number of hits" |
| GrepFixtures.MatchShown | client/client_actions/searching_test.py:259-260 | a match's result, XORed back, contains the needle |
| GrepFixtures.ResultsShowNeedle | client/client_actions/searching_test.py:259-278 | every result below the hit limit, XORed back, contains the needle |
| GrepFixtures.LiteralAndRegex | client/client_actions/searching_test.py:242-278 | for any mapped file: the literal "10" (sent XORed with any input key) and the expression "1[0]" give identical results, and each result below the hit limit contains "10" after XOR |

## Left out

- `client/client_actions/searching.py` is not part of this model. The Grep and Find actions are designed to satisfy the tests' assertions, so their internals (the buffer handling and the walker's exact resumption data) may differ from the original.
- SearchParams (lines 111-129) swaps class attributes and restores them afterwards. The model instead passes block size, overlap and hit limit as an explicit `SearchConfig` value to each call. The defaults of `searching.py` are outside this model. The theorems for tests without `@SearchParams` therefore hold for every configuration that admits the test: at least one byte per block, an overlap of at least the pattern length less one, and a hit limit of at least one.
- The offsets asserted for `numbers.txt` (lines 256-258, 274-276) come from `numbers.txt`, a test data file outside this model. LiteralAndRegex is stated for any mapped file instead.
- The test framework, RDF values and protobuf calls (`RunAction`, `MergeFrom`, `ToProto`, `assertProto2Equal`) are foreign framework code. Responses are plain datatypes.
- The `VFS_HANDLERS` registry and `VFSInit` are process-wide state. The filesystem map is passed explicitly.
- `Seek` and a directory handle's size of 0 come from the base `VFSHandler` class, which this model leaves out. `Seek` is modelled as setting the offset.
- Regular expressions are fixed-length sequences of byte or character classes, matched with search semantics.
  - ".*mp3" is searched as "mp3": under search semantics the leading ".*" adds nothing.
  - Overlapping matches are all reported. The tests' patterns cannot overlap themselves.
- Grep.Truncate: the notice is added only when hits exceed the limit. With exactly `limit` hits none is added. The tests check only limit + 100 hits.
- The defaults before = 10 and after = 10 follow testBufferBoundaries, which sets neither yet expects ten bytes on each side.
- The cursor's `client_state` is modelled as a map holding the pending entries under one key. The tests assert only that it is empty once the walk finishes.
- Find.FindOutcome requires a well-formed filesystem, one with no key starting with "//" and only plain names leading to mapped children, so that the walk terminates. FindFixtures.MockWellFormed proves it for the fixture.
- Find.FindOutcome: where the root is unmapped, the handler raises IOError (lines 62-63). The model's Find answers with no hits and a finished cursor instead of an error. Grep reports the same situation as `OpenFailed`.
- Find.PageAll needs a quota of at least one. A running call with quota 0 reports nothing and makes no progress.
- A listing stops at the first unmapped child, where the original raises mid-way. Find walks past such a directory with the entries listed before it.
- The path filter is searched in the entry's whole collapsed path.
- Find's content filter scans a file from offset 0 to its end with zero bytes of context and key 0, and counts a file as a hit when the scan reports anything.
- GrepFixtures.SnippetSize: states every before and after up to 100, which includes the test's 0, 1, 10 and 50.
- GrepFixtures.LiteralAndRegex: states that "10" appears only in results below the hit limit, because a truncation notice does not contain it. The test's file has 21 hits.
- FindFixtures.MockSecret: requires an overlap that covers "Secret", because the default overlap belongs to `searching.py`, which is outside this model.
