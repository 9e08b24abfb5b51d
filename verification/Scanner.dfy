/** The watcher's scan: one cached parser per transcript, resumed from its offset when the file has
    grown, and a promise that nobody can tell the cache is there. */
module Scanner {
  import opened Basics
  import opened History
  import opened ParserRules
  import P = Parser

  /** A transcript's path. Paths are only ever compared, so a number stands for each. */
  type Path = int

  datatype FileStat = FileStat(modTime: int, size: nat)

  /** One transcript as a scan meets it. `stat` is None when the file could not be examined,
      `skipped` when it lies outside the scan window and Claude Code does not list it. `content` is
      what the file holds when it is read; `broken` says that reading it fails. */
  datatype File = File(path: Path, stat: Option<FileStat>, skipped: bool, content: seq<byte>, opens: bool, broken: bool)

  /** What the scanner remembers of a file: its stat, and the content it last read. */
  datatype Known = Known(stat: FileStat, content: seq<byte>)

  /** What a new parser makes of a whole file. */
  function InfoOf(decode: Decoder, content: seq<byte>): Info {
    Snapshot(Parse(decode, content))
  }

  predicate IsHit(known: map<Path, Known>, f: File) {
    f.stat.Some? && f.path in known && known[f.path].stat == f.stat.value
  }

  /** The files a scan reports on: those it looks at and, unless they are unchanged, can read. */
  predicate IsScanned(known: map<Path, Known>, f: File) {
    f.stat.Some? && !f.skipped && (IsHit(known, f) || (f.opens && !f.broken))
  }

  /** What the watcher takes for granted of a file it has met before: its modification time and size
      determine its content, and a file that has become larger was appended to. */
  predicate Plausible(known: map<Path, Known>, f: File) {
    f.stat.Some? && f.path in known ==>
      var k := known[f.path];
      && (f.stat.value == k.stat ==> f.content == k.content)
      && (f.stat.value.size > k.stat.size ==> k.content <= f.content)
  }

  predicate Distinct(files: seq<File>) {
    forall i, j :: 0 <= i < j < |files| ==> files[i].path != files[j].path
  }

  /** What a scan without any cache reports. */
  function Expected(decode: Decoder, known: map<Path, Known>, files: seq<File>): seq<(Path, Info)> {
    if files == [] then []
    else
      var n := |files| - 1;
      var f := files[n];
      Expected(decode, known, files[..n]) + if IsScanned(known, f) then [(f.path, InfoOf(decode, f.content))] else []
  }

  /** What the scanner remembers after a scan: the files just reported on, and no others. */
  function Remembered(known: map<Path, Known>, files: seq<File>): map<Path, Known> {
    if files == [] then map[]
    else
      var n := |files| - 1;
      var f := files[n];
      var before := Remembered(known, files[..n]);
      if IsScanned(known, f) then before[f.path := Known(f.stat.value, f.content)] else before
  }

  /** File `i` has that path, and the scan reports on it. */
  ghost predicate IsReportedAt(known: map<Path, Known>, files: seq<File>, path: Path, i: int) {
    0 <= i < |files| && files[i].path == path && IsScanned(known, files[i])
  }

  /** What is remembered are exactly the files just reported on, each with its stat and content. */
  lemma {:induction false} RememberedExactly(known: map<Path, Known>, files: seq<File>)
    requires Distinct(files)
    ensures forall p :: p in Remembered(known, files) <==> exists i :: IsReportedAt(known, files, p, i)
    ensures forall p, i :: IsReportedAt(known, files, p, i) ==>
              Remembered(known, files)[p] == Known(files[i].stat.value, files[i].content)
  {
    if files != [] {
      var n := |files| - 1;
      RememberedExactly(known, files[..n]);
      forall p
        ensures p in Remembered(known, files) <==> exists i :: IsReportedAt(known, files, p, i)
      {
        ReportedStep(known, files, p);
      }
      forall p, i | IsReportedAt(known, files, p, i)
        ensures Remembered(known, files)[p] == Known(files[i].stat.value, files[i].content)
      {
        assert i < n ==> IsReportedAt(known, files[..n], p, i) && files[n].path != p;
      }
    }
  }

  lemma ReportedStep(known: map<Path, Known>, files: seq<File>, p: Path)
    requires files != []
    ensures var n := |files| - 1;
            (exists i :: IsReportedAt(known, files, p, i)) <==>
            IsReportedAt(known, files, p, n) || exists i :: IsReportedAt(known, files[..n], p, i)
  {
    var n := |files| - 1;
    if i :| IsReportedAt(known, files, p, i) {
      assert i < n ==> IsReportedAt(known, files[..n], p, i);
    }
    if i :| IsReportedAt(known, files[..n], p, i) {
      assert IsReportedAt(known, files, p, i);
    }
  }

  lemma {:induction false} RememberedPaths(known: map<Path, Known>, files: seq<File>, path: Path)
    ensures path in Remembered(known, files) ==> exists i :: 0 <= i < |files| && files[i].path == path
  {
    if files != [] && path != files[|files| - 1].path {
      RememberedPaths(known, files[..|files| - 1], path);
    }
  }

  datatype CacheEntry = CacheEntry(modTime: int, size: nat, parser: P.Parser)

  /** The entry's parser has read exactly the complete lines of `k.content`. */
  ghost predicate EntryOk(decode: Decoder, e: CacheEntry, k: Known)
    reads e.parser.Repr()
  {
    && FileStat(e.modTime, e.size) == k.stat
    && e.parser.decode == decode
    && e.parser.Valid()
    && IsCompletedOf(e.parser.consumed, k.content)
  }

  /** `consumed` are the complete lines of `content`. Kept behind the marker, as `IsFoldOf` is. */
  ghost predicate IsCompletedOf(consumed: seq<byte>, content: seq<byte>) {
    forall token {:trigger Look(token)} :: Look(token) ==> consumed == Completed(content)
  }

  /** Reading on from the end of `consumed` leaves consumed what a fresh parse of `content` would. */
  ghost predicate IsResumable(consumed: seq<byte>, content: seq<byte>) {
    forall token {:trigger Look(token)} :: Look(token) ==>
      |consumed| <= |content| && consumed + Completed(content[|consumed|..]) == Completed(content)
  }

  ghost predicate Apart(a: CacheEntry, b: CacheEntry) {
    a.parser != b.parser && a.parser.pending != b.parser.pending && a.parser.agents != b.parser.agents
  }

  ghost function Parsers(cache: map<Path, CacheEntry>): set<object> {
    set p, o | p in cache && o in cache[p].parser.Repr() :: o
  }

  ghost function EntryRepr(cache: map<Path, CacheEntry>, path: Path): set<object> {
    if path in cache then cache[path].parser.Repr() else {}
  }

  /** Every entry is what it claims to be, and no two share a parser. */
  ghost predicate CacheOk(decode: Decoder, cache: map<Path, CacheEntry>, known: map<Path, Known>)
    reads Parsers(cache)
  {
    && cache.Keys == known.Keys
    && (forall p {:trigger p in cache} :: p in cache ==> EntryOk(decode, cache[p], known[p]))
    && NoSharing(cache)
  }

  ghost predicate NoSharing(cache: map<Path, CacheEntry>) {
    forall p, q {:trigger p in cache, q in cache} :: p in cache && q in cache && p != q ==> Apart(cache[p], cache[q])
  }

  /** Resuming a cached parser from its offset leaves the same bytes consumed as a fresh parse exactly
      when the bytes it had consumed are still how the file begins. */
  lemma ResumeIsExact(consumed: seq<byte>, content: seq<byte>)
    requires Whole(consumed) && |consumed| <= |content|
    ensures consumed + Completed(content[|consumed|..]) == Completed(content) <==> consumed <= content
  {
    CutIsFaithful(content);
    if consumed <= content {
      assert content == consumed + content[|consumed|..];
      CompletedAppend(consumed, content[|consumed|..]);
    }
  }

  /** A parser that had read the old content and is resumed on an appended-to file. */
  lemma ResumeGrown(consumed: seq<byte>, previous: seq<byte>, content: seq<byte>)
    requires IsCompletedOf(consumed, previous) && previous <= content
    ensures IsResumable(consumed, content)
  {
    assert Look(0);
    CutIsFaithful(previous);
    CompletedIsWhole(previous);
    assert consumed <= content;
    ResumeIsExact(consumed, content);
  }

  lemma ResumeNew(content: seq<byte>)
    ensures IsResumable([], content)
  {
    assert content[0..] == content && [] + Completed(content) == Completed(content);
  }

  lemma ParseCompleted(decode: Decoder, content: seq<byte>)
    ensures Parse(decode, Completed(content)) == Parse(decode, content)
  {
    CompletedIsWhole(content);
  }

  /** `info` is what a new parser makes of `content`. Kept behind the marker, as `IsFoldOf` is. */
  ghost predicate IsInfoOf(info: Info, decode: Decoder, content: seq<byte>) {
    forall token {:trigger Look(token)} :: Look(token) ==> info == InfoOf(decode, content)
  }

  /** The snapshot of a parser that has read the complete lines of `content`. */
  method TakeSnapshot(parser: P.Parser, ghost content: seq<byte>) returns (info: Info)
    requires parser.Valid() && IsCompletedOf(parser.consumed, content)
    ensures IsInfoOf(info, parser.decode, content)
  {
    assert Look(0);
    FoldOf(parser.State(), parser.decode, parser.consumed);
    ParseCompleted(parser.decode, content);
    info := parser.Snapshot();
  }

  /** A one-shot parse of a whole file. */
  method ParseWhole(decode: Decoder, content: seq<byte>) returns (info: Info)
    ensures IsInfoOf(info, decode, content)
  {
    var parser := new P.Parser(decode);
    var reader := new P.Reader(content, false);
    var _ := parser.Advance(reader);
    assert [] + Completed(content) == Completed(content);
    info := TakeSnapshot(parser, content);
  }

  class Scanner {
    const decode: Decoder
    var cache: map<Path, CacheEntry>
    ghost var known: map<Path, Known>

    constructor (decode: Decoder)
      ensures Valid() && fresh(this) && this.decode == decode && cache == map[] && known == map[]
    {
      this.decode := decode;
      cache, known := map[], map[];
    }

    ghost predicate Valid()
      reads this, Parsers(cache)
    {
      CacheOk(decode, cache, known)
    }

    /** The parser to read a changed file with: the cached one when the file has grown, a new one
        otherwise. */
    method ChooseParser(f: File) returns (parser: P.Parser)
      requires f.stat.Some? && Plausible(known, f) && !IsHit(known, f)
      requires f.path in cache <==> f.path in known
      requires f.path in cache ==> EntryOk(decode, cache[f.path], known[f.path])
      ensures parser.Valid() && parser.decode == decode
      ensures IsResumable(parser.consumed, f.content)
      ensures (f.path in cache && parser == cache[f.path].parser) || IsNew(parser)
    {
      if f.path in cache && f.stat.value.size > cache[f.path].size {
        parser := cache[f.path].parser;
        ResumeGrown(parser.consumed, known[f.path].content, f.content);
      } else {
        parser := new P.Parser(decode);
        ResumeNew(f.content);
      }
    }

    /** Reads a file on from the parser's offset. */
    method ReadOn(parser: P.Parser, f: File) returns (info: Option<Info>)
      requires parser.Valid() && parser.decode == decode
      requires IsResumable(parser.consumed, f.content)
      modifies parser.Repr()
      ensures info.Some? <==> f.opens && !f.broken
      ensures info.Some? ==> IsInfoOf(info.value, decode, f.content)
      ensures info.Some? ==> parser.Valid() && IsCompletedOf(parser.consumed, f.content)
    {
      assert Look(0);
      if !f.opens {
        return None;
      }
      var reader := new P.Reader(f.content[parser.offset..], f.broken);
      var ok := parser.Advance(reader);
      if !ok {
        return None;
      }
      var snapshot := TakeSnapshot(parser, f.content);
      info := Some(snapshot);
    }

    /** Reading one file on leaves the entries of the other files as they were. */
    method ReadAmong(parser: P.Parser, f: File,
                     ghost others: map<Path, CacheEntry>, ghost othersKnown: map<Path, Known>)
      returns (info: Option<Info>)
      requires parser.Valid() && parser.decode == decode
      requires IsResumable(parser.consumed, f.content)
      requires CacheOk(decode, others, othersKnown)
      requires forall p {:trigger p in others} :: p in others ==> Apart(others[p], CacheEntry(0, 0, parser))
      modifies parser.Repr()
      ensures info.Some? <==> f.opens && !f.broken
      ensures info.Some? ==> IsInfoOf(info.value, decode, f.content)
      ensures info.Some? ==> parser.Valid() && IsCompletedOf(parser.consumed, f.content)
      ensures CacheOk(decode, others, othersKnown)
    {
      label before:
      info := ReadOn(parser, f);
      forall p | p in others
        ensures EntryOk(decode, others[p], othersKnown[p])
      {
        var q := others[p].parser;
        assert Apart(others[p], CacheEntry(0, 0, parser));
        assert unchanged@before(q) && unchanged@before(q.pending) && unchanged@before(q.agents);
        assert old@before(EntryOk(decode, others[p], othersKnown[p]));
      }
    }

    /** The parse of a file that is new to the cache or has changed. */
    method ParseChanged(f: File, ghost others: map<Path, CacheEntry>, ghost othersKnown: map<Path, Known>)
      returns (result: Option<(Info, CacheEntry)>)
      requires f.stat.Some? && Plausible(known, f) && !IsHit(known, f)
      requires f.path in cache <==> f.path in known
      requires f.path in cache ==> EntryOk(decode, cache[f.path], known[f.path])
      requires CacheOk(decode, others, othersKnown)
      requires f.path in cache ==> forall p {:trigger p in others} :: p in others ==> Apart(others[p], cache[f.path])
      modifies EntryRepr(cache, f.path)
      ensures result.Some? <==> f.opens && !f.broken
      ensures result.Some? ==> IsInfoOf(result.value.0, decode, f.content)
      ensures result.Some? ==>
                CacheOk(decode, others[f.path := result.value.1], othersKnown[f.path := Known(f.stat.value, f.content)])
      ensures result.Some? ==>
                (f.path in cache && result.value.1.parser == cache[f.path].parser) || IsNew(result.value.1.parser)
      ensures result.None? ==> CacheOk(decode, others, othersKnown)
    {
      var parser := ChooseParser(f);
      var info := ReadAmong(parser, f, others, othersKnown);
      if info.None? {
        return None;
      }
      var e := CacheEntry(f.stat.value.modTime, f.stat.value.size, parser);
      EntryRenewed(decode, others, othersKnown, f.path, e, Known(f.stat.value, f.content));
      result := Some((info.value, e));
    }

    /** The parse of one file: reuse the cached parser when the stat is unchanged, resume it when the
        file has grown, start over otherwise. Whatever the route, the answer is what a new parser
        makes of the whole file. `others` are the entries of other files still of use: they keep. */
    method ParseFile(f: File, ghost others: map<Path, CacheEntry>, ghost othersKnown: map<Path, Known>)
      returns (result: Option<(Info, CacheEntry)>)
      requires f.stat.Some? && Plausible(known, f)
      requires f.path in cache <==> f.path in known
      requires f.path in cache ==> EntryOk(decode, cache[f.path], known[f.path])
      requires CacheOk(decode, others, othersKnown)
      requires f.path in cache ==> forall p {:trigger p in others} :: p in others ==> Apart(others[p], cache[f.path])
      modifies EntryRepr(cache, f.path)
      ensures result.Some? <==> IsHit(known, f) || (f.opens && !f.broken)
      ensures result.Some? ==> IsInfoOf(result.value.0, decode, f.content)
      ensures result.Some? ==>
                CacheOk(decode, others[f.path := result.value.1], othersKnown[f.path := Known(f.stat.value, f.content)])
      ensures result.Some? ==>
                (f.path in cache && result.value.1.parser == cache[f.path].parser) || IsNew(result.value.1.parser)
      ensures result.None? ==> CacheOk(decode, others, othersKnown)
    {
      if f.path in cache && FileStat(cache[f.path].modTime, cache[f.path].size) == f.stat.value {
        var e := cache[f.path];
        var info := TakeSnapshot(e.parser, f.content);
        EntryRenewed(decode, others, othersKnown, f.path, e, known[f.path]);
        return Some((info, e));
      }
      result := ParseChanged(f, others, othersKnown);
    }

    /** One file of a scan: looked at or passed over. */
    method ScanFile(f: File, ghost others: map<Path, CacheEntry>, ghost othersKnown: map<Path, Known>)
      returns (result: Option<(Info, CacheEntry)>)
      requires Plausible(known, f)
      requires f.path in cache <==> f.path in known
      requires f.path in cache ==> EntryOk(decode, cache[f.path], known[f.path])
      requires CacheOk(decode, others, othersKnown)
      requires f.path in cache ==> forall p {:trigger p in others} :: p in others ==> Apart(others[p], cache[f.path])
      modifies EntryRepr(cache, f.path)
      ensures result.Some? <==> IsScanned(known, f)
      ensures result.Some? ==> IsInfoOf(result.value.0, decode, f.content)
      ensures result.Some? ==>
                CacheOk(decode, others[f.path := result.value.1], othersKnown[f.path := Known(f.stat.value, f.content)])
      ensures result.Some? ==>
                (f.path in cache && result.value.1.parser == cache[f.path].parser) || IsNew(result.value.1.parser)
      ensures result.None? ==> CacheOk(decode, others, othersKnown)
      ensures cache == old(cache) && known == old(known)
    {
      assert this !in EntryRepr(cache, f.path);
      if f.stat.None? || f.skipped {
        return None;
      }
      result := ParseFile(f, others, othersKnown);
    }

    /** The files of a scan in turn: what is reported of them, and the entries to keep. */
    method ReadAll(files: seq<File>) returns (infos: seq<(Path, Info)>, next: map<Path, CacheEntry>)
      requires Valid() && Distinct(files)
      requires forall i :: 0 <= i < |files| ==> Plausible(known, files[i])
      modifies Parsers(cache)
      ensures cache == old(cache) && known == old(known)
      ensures IsExpected(infos, decode, known, files)
      ensures CacheOk(decode, next, Remembered(known, files))
      ensures forall p {:trigger p in next} :: p in next ==>
                (p in cache && next[p].parser == cache[p].parser) || IsNew(next[p].parser)
    {
      next, infos := map[], [];
      ghost var pool: map<Path, CacheEntry>, poolKnown: map<Path, Known> := cache, known;
      for i := 0 to |files|
        invariant cache == old(cache) && known == old(known)
        invariant CacheOk(decode, pool, poolKnown)
        invariant StillToCome(pool, poolKnown, files, i, cache, known)
        invariant AreKept(next, pool, poolKnown, Remembered(known, files[..i]))
        invariant forall p {:trigger p in next} :: p in next ==>
                    (p in cache && next[p].parser == cache[p].parser) || IsNew(next[p].parser)
        invariant IsExpected(infos, decode, known, files[..i])
      {
        var f := files[i];
        Without(decode, pool, poolKnown, f.path);
        TakenOut(next, pool, poolKnown, files, i, cache, known);
        pool, poolKnown := pool - {f.path}, poolKnown - {f.path};
        var result := ScanFile(f, pool, poolKnown);
        ReportedOne(infos, decode, known, files, i, result);
        KeptOne(next, pool, poolKnown, files, i, cache, known, result);
        if result.Some? {
          var e := result.value.1;
          infos, next := infos + [(f.path, result.value.0)], next[f.path := e];
          pool, poolKnown := pool[f.path := e], poolKnown[f.path := Known(f.stat.value, f.content)];
        }
      }
      assert files[..|files|] == files;
      PartOk(decode, next, pool, poolKnown, Remembered(known, files));
    }

    /** One scan. It reports of every file it looks at what a new parser makes of that file, and keeps
        the entries of those files and of no others. */
    method Scan(files: seq<File>) returns (infos: seq<(Path, Info)>)
      requires Valid() && Distinct(files)
      requires forall i :: 0 <= i < |files| ==> Plausible(known, files[i])
      modifies this, Parsers(cache)
      ensures IsExpected(infos, decode, old(known), files)
      ensures known == Remembered(old(known), files)
      ensures Valid() && forall o :: o in Parsers(cache) ==> o in old(Parsers(cache)) || fresh(o)
    {
      var next;
      infos, next := ReadAll(files);
      ParsersRenewed(cache, next);
      cache := next;
      known := Remembered(known, files);
    }
  }

  /** What is remembered after a run of scans. */
  function RememberedAfter(scans: seq<seq<File>>): map<Path, Known> {
    if scans == [] then map[] else Remembered(RememberedAfter(scans[..|scans| - 1]), scans[|scans| - 1])
  }

  ghost predicate AllExpected(reports: seq<seq<(Path, Info)>>, decode: Decoder, scans: seq<seq<File>>) {
    && |reports| <= |scans|
    && forall i :: 0 <= i < |reports| ==> IsExpected(reports[i], decode, RememberedAfter(scans[..i]), scans[i])
  }

  lemma ScannedOne(reports: seq<seq<(Path, Info)>>, decode: Decoder, scans: seq<seq<File>>, infos: seq<(Path, Info)>)
    requires |reports| < |scans| && AllExpected(reports, decode, scans)
    requires IsExpected(infos, decode, RememberedAfter(scans[..|reports|]), scans[|reports|])
    ensures AllExpected(reports + [infos], decode, scans)
  {
  }

  /** Whatever files come and go, grow, shrink, are rewritten or fail to be read between them, every
      scan of a run reports what one without a cache would. */
  method Watch(decode: Decoder, scans: seq<seq<File>>) returns (reports: seq<seq<(Path, Info)>>)
    requires forall i :: 0 <= i < |scans| ==> Distinct(scans[i])
    requires forall i, j :: 0 <= i < |scans| && 0 <= j < |scans[i]| ==>
               Plausible(RememberedAfter(scans[..i]), scans[i][j])
    ensures |reports| == |scans|
    ensures forall i :: 0 <= i < |scans| ==> reports[i] == Expected(decode, RememberedAfter(scans[..i]), scans[i])
  {
    var scanner := new Scanner(decode);
    reports := [];
    for i := 0 to |scans|
      invariant |reports| == i
      invariant scanner.Valid() && scanner.decode == decode && scanner.known == RememberedAfter(scans[..i])
      invariant fresh(scanner) && forall o :: o in Parsers(scanner.cache) ==> fresh(o)
      invariant AllExpected(reports, decode, scans)
    {
      assert scans[..i + 1][..i] == scans[..i];
      var infos := scanner.Scan(scans[i]);
      ScannedOne(reports, decode, scans, infos);
      reports := reports + [infos];
    }
    forall i | 0 <= i < |scans|
      ensures reports[i] == Expected(decode, RememberedAfter(scans[..i]), scans[i])
    {
      ExpectedExactly(reports[i], decode, RememberedAfter(scans[..i]), scans[i]);
    }
  }

  twostate predicate IsNew(new parser: P.Parser)
  {
    fresh(parser) && fresh(parser.pending) && fresh(parser.agents)
  }

  twostate lemma ParsersRenewed(was: map<Path, CacheEntry>, new next: map<Path, CacheEntry>)
    requires forall p {:trigger p in next} :: p in next ==>
               (p in was && next[p].parser == was[p].parser) || IsNew(next[p].parser)
    ensures forall o :: o in Parsers(next) ==> o in Parsers(was) || fresh(o)
  {
    forall o | o in Parsers(next) && o !in Parsers(was)
      ensures fresh(o)
    {
      var p :| p in next && o in next[p].parser.Repr();
    }
  }

  lemma EntryRenewed(decode: Decoder, cache: map<Path, CacheEntry>, known: map<Path, Known>, path: Path,
                     e: CacheEntry, k: Known)
    requires CacheOk(decode, cache, known) && EntryOk(decode, e, k)
    requires forall p {:trigger p in cache} :: p in cache ==> Apart(cache[p], e)
    ensures CacheOk(decode, cache[path := e], known[path := k])
  {
  }

  lemma Without(decode: Decoder, pool: map<Path, CacheEntry>, poolKnown: map<Path, Known>, path: Path)
    requires CacheOk(decode, pool, poolKnown)
    ensures CacheOk(decode, pool - {path}, poolKnown - {path})
    ensures path in pool ==> forall p {:trigger p in pool - {path}} :: p in pool - {path} ==> Apart(pool[p], pool[path])
  {
  }

  /** A scan takes the entry of the file at hand out of the pool; none of those kept is lost. */
  lemma TakenOut(next: map<Path, CacheEntry>, pool: map<Path, CacheEntry>, poolKnown: map<Path, Known>,
                 files: seq<File>, i: nat, cache: map<Path, CacheEntry>, known: map<Path, Known>)
    requires i < |files| && Distinct(files)
    requires StillToCome(pool, poolKnown, files, i, cache, known)
    requires AreKept(next, pool, poolKnown, Remembered(known, files[..i]))
    ensures var p := files[i].path;
            && StillToCome(pool - {p}, poolKnown - {p}, files, i + 1, cache, known)
            && AreKept(next, pool - {p}, poolKnown - {p}, Remembered(known, files[..i]))
  {
    RememberedPaths(known, files[..i], files[i].path);
  }

  lemma PartOk(decode: Decoder, next: map<Path, CacheEntry>, pool: map<Path, CacheEntry>, poolKnown: map<Path, Known>,
               remembered: map<Path, Known>)
    requires CacheOk(decode, pool, poolKnown) && AreKept(next, pool, poolKnown, remembered)
    ensures CacheOk(decode, next, remembered)
  {
  }

  /** The entries of the files not reached yet are still the cache's own. */
  ghost predicate StillToCome(pool: map<Path, CacheEntry>, poolKnown: map<Path, Known>, files: seq<File>, i: nat,
                              cache: map<Path, CacheEntry>, known: map<Path, Known>)
  {
    forall j {:trigger files[j]} :: i <= j < |files| ==>
      var p := files[j].path;
      && (p in cache <==> p in pool)
      && (p in cache ==> pool[p] == cache[p] && p in known && p in poolKnown && poolKnown[p] == known[p])
  }

  /** The entries made so far are part of the pool. */
  ghost predicate AreKept(next: map<Path, CacheEntry>, pool: map<Path, CacheEntry>, poolKnown: map<Path, Known>,
                          remembered: map<Path, Known>)
  {
    && next.Keys == remembered.Keys
    && forall p {:trigger p in next} :: p in next ==>
         p in pool && pool[p] == next[p] && p in poolKnown && poolKnown[p] == remembered[p]
  }

  ghost predicate IsExpected(infos: seq<(Path, Info)>, decode: Decoder, known: map<Path, Known>, files: seq<File>) {
    forall token {:trigger Look(token)} :: Look(token) ==> infos == Expected(decode, known, files)
  }

  lemma ExpectedExactly(infos: seq<(Path, Info)>, decode: Decoder, known: map<Path, Known>, files: seq<File>)
    requires IsExpected(infos, decode, known, files)
    ensures infos == Expected(decode, known, files)
  {
    assert Look(0);
  }

  /** What a scan has reported, one file later. */
  lemma ReportedOne(infos: seq<(Path, Info)>, decode: Decoder, known: map<Path, Known>, files: seq<File>, i: nat,
                    result: Option<(Info, CacheEntry)>)
    requires i < |files| && IsExpected(infos, decode, known, files[..i])
    requires result.Some? <==> IsScanned(known, files[i])
    requires result.Some? ==> IsInfoOf(result.value.0, decode, files[i].content)
    ensures IsExpected(infos + if result.Some? then [(files[i].path, result.value.0)] else [], decode, known,
                       files[..i + 1])
  {
    assert Look(0);
    assert files[..i + 1][..i] == files[..i];
  }

  /** What a scan has kept, one file later. */
  lemma KeptOne(next: map<Path, CacheEntry>, others: map<Path, CacheEntry>, othersKnown: map<Path, Known>,
                files: seq<File>, i: nat, cache: map<Path, CacheEntry>, known: map<Path, Known>,
                result: Option<(Info, CacheEntry)>)
    requires i < |files| && Distinct(files)
    requires StillToCome(others, othersKnown, files, i + 1, cache, known)
    requires AreKept(next, others, othersKnown, Remembered(known, files[..i]))
    requires result.Some? <==> IsScanned(known, files[i])
    ensures var p := files[i].path;
            if result.Some? then
              var e, k := result.value.1, Known(files[i].stat.value, files[i].content);
              && StillToCome(others[p := e], othersKnown[p := k], files, i + 1, cache, known)
              && AreKept(next[p := e], others[p := e], othersKnown[p := k], Remembered(known, files[..i + 1]))
            else AreKept(next, others, othersKnown, Remembered(known, files[..i + 1]))
  {
    assert files[..i + 1][..i] == files[..i];
  }
}
