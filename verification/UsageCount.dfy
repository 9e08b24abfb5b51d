/** Exact counting, from transcript bytes to daily buckets: each reply's figures are counted once
    however often its line is written, scanned or reported. */
module UsageCount {
  import opened Basics
  import opened History
  import opened ParserRules
  import opened Tallies
  import LedgerRules
  import Scanner

  /** One of the four token figures of a usage record. */
  datatype Figure = Input | Output | CacheCreation | CacheRead

  function Of(u: Usage, f: Figure): int {
    match f
    case Input => u.input
    case Output => u.output
    case CacheCreation => u.cacheCreation
    case CacheRead => u.cacheRead
  }

  predicate IsReply(l: Line, id: string) {
    l.lineType.AssistantLine? && l.message.id == id
  }

  /** The message ids of a transcript's replies. */
  function Ids(lines: seq<Line>): set<string> {
    set i | 0 <= i < |lines| && lines[i].lineType.AssistantLine? && lines[i].message.id != "" :: lines[i].message.id
  }

  /** The figures of the first reply that carries an id. */
  function FirstUsage(lines: seq<Line>, id: string): Usage {
    if lines == [] then NO_USAGE
    else if IsReply(lines[0], id) then lines[0].message.usage
    else FirstUsage(lines[1..], id)
  }

  /** The sum of one figure over the replies that carry no id. */
  function WithoutId(lines: seq<Line>, f: Figure): int {
    if lines == [] then 0
    else
      var l := lines[|lines| - 1];
      WithoutId(lines[..|lines| - 1], f) + if IsReply(l, "") then Of(l.message.usage, f) else 0
  }

  function Firsts(lines: seq<Line>, f: Figure): map<string, int> {
    map id | id in Ids(lines) :: Of(FirstUsage(lines, id), f)
  }

  lemma {:induction false} FirstUsageSnoc(lines: seq<Line>, l: Line, id: string)
    ensures FirstUsage(lines + [l], id) ==
            if exists i :: 0 <= i < |lines| && IsReply(lines[i], id) then FirstUsage(lines, id)
            else if IsReply(l, id) then l.message.usage
            else NO_USAGE
  {
    if lines == [] {
      assert (lines + [l])[1..] == [];
    } else {
      assert (lines + [l])[1..] == lines[1..] + [l];
      FirstUsageSnoc(lines[1..], l, id);
      if exists i :: 0 <= i < |lines| && IsReply(lines[i], id) {
        var i :| 0 <= i < |lines| && IsReply(lines[i], id);
        assert i > 0 ==> IsReply(lines[1..][i - 1], id);
      }
    }
  }

  lemma IdsSnoc(lines: seq<Line>, l: Line)
    ensures Ids(lines + [l]) ==
            Ids(lines) + if l.lineType.AssistantLine? && l.message.id != "" then {l.message.id} else {}
  {
    var all := lines + [l];
    assert forall i :: 0 <= i < |lines| ==> all[i] == lines[i];
    assert all[|lines|] == l;
  }

  lemma FirstsSnoc(lines: seq<Line>, l: Line, f: Figure)
    ensures Firsts(lines + [l], f) ==
            if l.lineType.AssistantLine? && l.message.id != "" && l.message.id !in Ids(lines)
            then Firsts(lines, f)[l.message.id := Of(l.message.usage, f)]
            else Firsts(lines, f)
  {
    IdsSnoc(lines, l);
    forall id | id in Ids(lines + [l])
      ensures FirstUsage(lines + [l], id) == if id in Ids(lines) then FirstUsage(lines, id) else l.message.usage
    {
      FirstUsageSnoc(lines, l, id);
    }
  }

  lemma FoldCounts(p: Progress, l: Line)
    ensures FoldLine(p, l).seen ==
            p.seen + if l.lineType.AssistantLine? && l.message.id != "" then {l.message.id} else {}
    ensures FoldLine(p, l).info.usage ==
            if l.lineType.AssistantLine? && !IsRetry(p.seen, l.message) then AddUsage(p.info.usage, l.message.usage)
            else p.info.usage
  {
  }

  /** The usage a transcript folds to: over its distinct message ids, the figures of the first reply
      that carries each, plus the replies that carry no id. */
  lemma {:induction false} UsageIsTheFirsts(lines: seq<Line>, f: Figure)
    ensures Fold(lines).seen == Ids(lines)
    ensures Of(Fold(lines).info.usage, f) == Total(Firsts(lines, f)) + WithoutId(lines, f)
  {
    if lines == [] {
      assert Firsts(lines, f) == map[];
    } else {
      var n := |lines| - 1;
      var before, l := lines[..n], lines[n];
      assert before + [l] == lines;
      UsageIsTheFirsts(before, f);
      FoldCounts(Fold(before), l);
      IdsSnoc(before, l);
      FirstsSnoc(before, l, f);
      TotalSet(Firsts(before, f), l.message.id, Of(l.message.usage, f));
    }
  }

  predicate NonNegative(u: Usage) {
    u.input >= 0 && u.output >= 0 && u.cacheCreation >= 0 && u.cacheRead >= 0
  }

  /** As a transcript gains lines its usage never decreases. */
  lemma {:induction false} UsageGrows(lines: seq<Line>, more: seq<Line>, f: Figure)
    requires forall i :: 0 <= i < |more| ==> NonNegative(more[i].message.usage)
    ensures 0 <= Of(Fold(lines + more).info.usage, f) - Of(Fold(lines).info.usage, f)
  {
    if more == [] {
      assert lines + more == lines;
    } else {
      var n := |more| - 1;
      assert (lines + more)[..|lines + more| - 1] == lines + more[..n];
      UsageGrows(lines, more[..n], f);
      FoldCounts(Fold(lines + more[..n]), more[n]);
    }
  }

  lemma {:induction false} LinesGrow(a: seq<byte>, b: seq<byte>)
    ensures Lines(a) <= Lines(a + b)
  {
    if b == [] {
      assert a + b == a;
    } else {
      var n := |b| - 1;
      assert (a + b)[..|a + b| - 1] == a + b[..n];
      LinesGrow(a, b[..n]);
    }
  }

  /** Whatever a transcript decodes to, its figures are token counts. */
  ghost predicate DecodesCounts(decode: Decoder) {
    forall raw {:trigger decode(raw)} :: decode(raw).Some? ==> NonNegative(decode(raw).value.message.usage)
  }

  lemma {:induction false} DecodedCounts(decode: Decoder, raws: seq<seq<byte>>)
    requires DecodesCounts(decode)
    ensures forall i :: 0 <= i < |Decoded(decode, raws)| ==> NonNegative(Decoded(decode, raws)[i].message.usage)
  {
    if raws != [] {
      var n := |raws| - 1;
      DecodedCounts(decode, raws[..n]);
      var last := decode(raws[n]);
    }
  }

  function OutputOf(decode: Decoder, content: seq<byte>): int {
    Scanner.InfoOf(decode, content).usage.output
  }

  lemma OutputGrows(decode: Decoder, content: seq<byte>, longer: seq<byte>)
    requires DecodesCounts(decode) && content <= longer
    ensures OutputOf(decode, content) <= OutputOf(decode, longer)
  {
    assert longer == content + longer[|content|..];
    LinesGrow(content, longer[|content|..]);
    var before, after := Lines(content), Lines(longer);
    assert after == before + after[|before|..];
    DecodedConcat(decode, before, after[|before|..]);
    DecodedCounts(decode, after[|before|..]);
    UsageGrows(Decoded(decode, before), Decoded(decode, after[|before|..]), Output);
  }

  lemma OutputIsCount(decode: Decoder, content: seq<byte>)
    requires DecodesCounts(decode)
    ensures OutputOf(decode, content) >= 0
  {
    OutputGrows(decode, [], content);
  }

  /** `total` is what a fresh parse of `content` counts. Kept behind the marker, as `IsFoldOf` is. */
  ghost predicate IsOutputOf(total: int, decode: Decoder, content: seq<byte>) {
    forall token {:trigger Look(token)} :: Look(token) ==> total == OutputOf(decode, content)
  }

  lemma OutputsGrow(a: int, b: int, decode: Decoder, content: seq<byte>, longer: seq<byte>)
    requires DecodesCounts(decode) && content <= longer
    requires IsOutputOf(a, decode, content) && IsOutputOf(b, decode, longer)
    ensures 0 <= a <= b
  {
    assert Look(0);
    OutputIsCount(decode, content);
    OutputGrows(decode, content, longer);
  }

  /** `mark` is what a session has counted after a run. Kept behind the marker, as `IsFoldOf` is. */
  ghost predicate IsMark(mark: int, cs: seq<LedgerRules.Call>, session: string) {
    forall token {:trigger Look(token)} :: Look(token) ==> mark == Held(LedgerRules.Run(cs).marks, session)
  }

  lemma MarkIsTheMaximum(mark: int, cs: seq<LedgerRules.Call>, session: string)
    requires IsMark(mark, cs, session)
    ensures mark >= 0
    ensures forall i :: 0 <= i < |cs| && LedgerRules.Counts(cs[i], session) ==> cs[i].total <= mark
    ensures mark > 0 ==> exists i :: 0 <= i < |cs| && LedgerRules.Counts(cs[i], session) && cs[i].total == mark
  {
    assert Look(0);
    LedgerRules.MarkIsTheMaximum(cs, session);
  }

  /** A rollup that raises a count: a total of nothing never does. */
  predicate Raises(c: LedgerRules.Call, session: string) {
    LedgerRules.Counts(c, session) && c.total > 0
  }

  /** Scans of a growing transcript, each reported and rolled up, among any other calls on the store, empty
      rollups of the same session included: after the last scan that was rolled up, the session has counted
      exactly that scan's total; before the first, nothing. */
  lemma ScansCountOnce(decode: Decoder, contents: seq<seq<byte>>, cs: seq<LedgerRules.Call>, session: string,
                       last: nat, mark: int)
    requires DecodesCounts(decode) && |contents| == |cs|
    requires forall i, j :: 0 <= i < j < |contents| ==> contents[i] <= contents[j]
    requires forall i :: 0 <= i < |cs| && Raises(cs[i], session) ==> IsOutputOf(cs[i].total, decode, contents[i])
    requires IsMark(mark, cs, session)
    ensures last < |cs| && Raises(cs[last], session) && (forall i :: last < i < |cs| ==> !Raises(cs[i], session)) ==>
              IsOutputOf(mark, decode, contents[last])
    ensures (forall i :: 0 <= i < |cs| ==> !Raises(cs[i], session)) ==> mark == 0
  {
    MarkIsTheMaximum(mark, cs, session);
    if mark > 0 {
      var i :| 0 <= i < |cs| && LedgerRules.Counts(cs[i], session) && cs[i].total == mark;
      assert Raises(cs[i], session);
      if last < |cs| && Raises(cs[last], session) && i <= last {
        OutputsGrow(mark, cs[last].total, decode, contents[i], contents[last]);
      }
    }
  }
}
