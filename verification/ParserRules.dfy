/** How the bytes of a transcript are cut into lines, and what the fold over those lines holds. */
module ParserRules {
  import opened Basics
  import opened History
  import ToolRules
  import AgentRules

  const NEWLINE: byte := 10

  // ---------------------------------------------------------------------------------------------
  // Bytes and lines.

  /** A file cut at its newlines: the lines, newlines included, and the partial line left over. */
  datatype Cut = Cut(lines: seq<seq<byte>>, partial: seq<byte>)

  function CutByte(c: Cut, b: byte): Cut {
    var partial := c.partial + [b];
    if b == NEWLINE then Cut(c.lines + [partial], []) else Cut(c.lines, partial)
  }

  function CutLines(bytes: seq<byte>): Cut {
    if bytes == [] then Cut([], []) else CutByte(CutLines(bytes[..|bytes| - 1]), bytes[|bytes| - 1])
  }

  function Lines(bytes: seq<byte>): seq<seq<byte>> {
    CutLines(bytes).lines
  }

  function Joined(lines: seq<seq<byte>>): seq<byte> {
    if lines == [] then [] else Joined(lines[..|lines| - 1]) + lines[|lines| - 1]
  }

  /** The bytes of the whole lines. */
  function Completed(bytes: seq<byte>): seq<byte> {
    Joined(Lines(bytes))
  }

  predicate Whole(bytes: seq<byte>) {
    CutLines(bytes).partial == []
  }

  predicate NoNewline(bytes: seq<byte>) {
    forall i :: 0 <= i < |bytes| ==> bytes[i] != NEWLINE
  }

  predicate IsLine(raw: seq<byte>) {
    raw != [] && raw[|raw| - 1] == NEWLINE && NoNewline(raw[..|raw| - 1])
  }

  lemma JoinedOne(lines: seq<seq<byte>>, raw: seq<byte>)
    ensures Joined(lines + [raw]) == Joined(lines) + raw
  {
    assert (lines + [raw])[..|lines|] == lines;
  }

  ghost predicate Faithful(c: Cut, bytes: seq<byte>) {
    && Joined(c.lines) + c.partial == bytes
    && NoNewline(c.partial)
    && forall i :: 0 <= i < |c.lines| ==> IsLine(c.lines[i])
  }

  lemma CutByteIsFaithful(c: Cut, bytes: seq<byte>, b: byte)
    requires Faithful(c, bytes)
    ensures Faithful(CutByte(c, b), bytes + [b])
  {
    var partial := c.partial + [b];
    assert partial[..|partial| - 1] == c.partial;
    JoinedOne(c.lines, partial);
    assert Joined(c.lines) + partial == bytes + [b];
  }

  lemma CutSnoc(bytes: seq<byte>, b: byte)
    ensures CutLines(bytes + [b]) == CutByte(CutLines(bytes), b)
  {
    assert (bytes + [b])[..|bytes|] == bytes;
  }

  /** The cut loses nothing, makes only whole lines, and leaves no newline behind: what is completed
      ends just past the last newline. */
  lemma {:induction false} CutIsFaithful(bytes: seq<byte>)
    ensures Faithful(CutLines(bytes), bytes)
  {
    if bytes != [] {
      var before, last := bytes[..|bytes| - 1], bytes[|bytes| - 1];
      CutIsFaithful(before);
      CutByteIsFaithful(CutLines(before), before, last);
      CutSnoc(before, last);
      assert before + [last] == bytes;
    }
  }

  /** Lines read up to a line boundary, then from there on, are the lines of the whole. */
  lemma {:induction false} CutAppend(a: seq<byte>, c: seq<byte>)
    requires Whole(a)
    ensures CutLines(a + c) == Cut(Lines(a) + Lines(c), CutLines(c).partial)
  {
    if c == [] {
      assert a + c == a;
    } else {
      var n := |c| - 1;
      CutAppend(a, c[..n]);
      assert (a + c)[..|a + c| - 1] == a + c[..n];
    }
  }

  lemma {:induction false} CutNoNewline(bytes: seq<byte>)
    requires NoNewline(bytes)
    ensures CutLines(bytes) == Cut([], bytes)
  {
    if bytes != [] {
      var before, last := bytes[..|bytes| - 1], bytes[|bytes| - 1];
      assert before + [last] == bytes && last != NEWLINE;
      assert NoNewline(before) by {
        assert forall i :: 0 <= i < |before| ==> before[i] == bytes[i];
      }
      CutNoNewline(before);
      CutSnoc(before, last);
    }
  }

  lemma CutOneLine(raw: seq<byte>)
    requires IsLine(raw)
    ensures CutLines(raw) == Cut([raw], [])
  {
    var n := |raw| - 1;
    CutNoNewline(raw[..n]);
    CutSnoc(raw[..n], raw[n]);
    assert raw[..n] + [raw[n]] == raw;
  }

  lemma {:induction false} CutJoined(lines: seq<seq<byte>>)
    requires forall i :: 0 <= i < |lines| ==> IsLine(lines[i])
    ensures CutLines(Joined(lines)) == Cut(lines, [])
  {
    if lines != [] {
      var n := |lines| - 1;
      CutJoined(lines[..n]);
      CutOneLine(lines[n]);
      CutAppend(Joined(lines[..n]), lines[n]);
    }
  }

  /** Dropping the partial line leaves the same lines, and nothing partial. */
  lemma CompletedIsWhole(bytes: seq<byte>)
    ensures CutLines(Completed(bytes)) == Cut(Lines(bytes), [])
  {
    CutIsFaithful(bytes);
    CutJoined(Lines(bytes));
  }

  lemma {:induction false} JoinedConcat(a: seq<seq<byte>>, b: seq<seq<byte>>)
    ensures Joined(a + b) == Joined(a) + Joined(b)
  {
    if b == [] {
      assert a + b == a;
    } else {
      var n := |b| - 1;
      JoinedConcat(a, b[..n]);
      assert (a + b)[..|a + b| - 1] == a + b[..n];
    }
  }

  // ---------------------------------------------------------------------------------------------
  // The fold.

  datatype Info = Info(
    sessionId: string, cwd: string, gitBranch: string, title: string, model: string, effort: string,
    contextTokens: int, permissionMode: string, usage: Usage, lastStopReason: string,
    lastActivity: string, lastApiError: int, thinking: bool, activity: string,
    backgroundLaunches: nat, backgroundOpen: nat, pendingTool: string, backgroundActive: bool,
    agentsActive: nat, agentActivity: string, lastCompactBoundary: string, interrupted: bool, hasTurns: bool)

  const NO_USAGE := Usage(0, 0, 0, 0)

  const NO_INFO :=
    Info("", "", "", "", "", "", 0, "", NO_USAGE, "", "", 0, false, "", 0, 0, "", false, 0, "", "", false, false)

  datatype Titles = Titles(custom: string, ai: string)

  function Observe(t: Titles, custom: string, ai: string): Titles {
    Titles(if custom != "" then custom else t.custom, if ai != "" then ai else t.ai)
  }

  function ResolveTitle(t: Titles): string {
    if t.custom != "" then t.custom else t.ai
  }

  /** The fields any line may carry: the last non-empty value of each is kept. */
  function ApplyMeta(info: Info, l: Line): Info {
    info.(sessionId := KeepLast(info.sessionId, l.sessionId),
          cwd := KeepLast(info.cwd, l.cwd),
          gitBranch := KeepLast(info.gitBranch, l.gitBranch),
          lastActivity := KeepLast(info.lastActivity, l.timestamp),
          permissionMode := KeepLast(info.permissionMode, l.permissionMode))
  }

  /** Claude Code writes bracketed markers where a model's name goes; a marker is not a model. */
  predicate IsRealModel(m: string) {
    m != "" && m[0] != '<'
  }

  predicate LastBlockIsThinking(c: Content) {
    c.Blocks? && c.blocks != [] && c.blocks[|c.blocks| - 1].ThinkingBlock?
  }

  function LastToolActivity(bs: seq<Block>): string {
    if bs == [] then ""
    else if bs[|bs| - 1].ToolUse? then bs[|bs| - 1].activity
    else LastToolActivity(bs[..|bs| - 1])
  }

  const INTERRUPT_MARKERS := {"[Request interrupted by user]", "[Request interrupted by user for tool use]"}

  predicate IsInterruptLine(c: Content) {
    c.Blocks? && exists i :: 0 <= i < |c.blocks| && c.blocks[i].TextBlock? && c.blocks[i].text in INTERRUPT_MARKERS
  }

  function PromptSize(u: Usage): int {
    u.input + u.cacheRead + u.cacheCreation
  }

  function AddUsage(a: Usage, b: Usage): Usage {
    Usage(a.input + b.input, a.output + b.output, a.cacheCreation + b.cacheCreation, a.cacheRead + b.cacheRead)
  }

  /** What an assistant line sets, its token figures excepted. */
  function ApplyReply(info: Info, l: Line): Info {
    var m := l.message;
    info.(lastStopReason := m.stopReason,
          lastApiError := if l.isApiError then l.apiErrorStatus else 0,
          thinking := LastBlockIsThinking(m.content),
          activity := if m.content.Blocks? then LastToolActivity(m.content.blocks) else "",
          model := if IsRealModel(m.model) then m.model else info.model,
          effort := KeepLast(info.effort, l.effort),
          contextTokens :=
            if !l.isSidechain && PromptSize(m.usage) > 0 then PromptSize(m.usage) else info.contextTokens)
  }

  /** Everything a parser has accumulated. */
  datatype Progress = Progress(
    info: Info, titles: Titles, seen: set<string>, tools: ToolRules.Tools, agents: AgentRules.Agents)

  const START := Progress(NO_INFO, Titles("", ""), {}, ToolRules.NO_TOOLS, AgentRules.NO_AGENTS)

  predicate IsRetry(seen: set<string>, m: Message) {
    m.id != "" && m.id in seen
  }

  /** A retry repeats a line under the same message id: its figures are counted once. */
  function CountUsage(p: Progress, m: Message): Progress {
    if IsRetry(p.seen, m) then p
    else
      p.(info := p.info.(usage := AddUsage(p.info.usage, m.usage)),
         seen := if m.id != "" then p.seen + {m.id} else p.seen)
  }

  predicate IsTurn(l: Line) {
    l.lineType.AssistantLine? || l.lineType.UserLine?
  }

  function FoldInfo(p: Progress, l: Line): Progress {
    var info := ApplyMeta(p.info, l);
    var p1 := p.(info := if IsTurn(l) then info.(hasTurns := true) else info,
                 titles := Observe(p.titles, l.customTitle, l.aiTitle));
    match l.lineType
    case AssistantLine =>
      var p2 := CountUsage(p1.(info := ApplyReply(p1.info, l)), l.message);
      p2.(info := p2.info.(interrupted := false))
    case UserLine => p1.(info := p1.info.(interrupted := IsInterruptLine(l.message.content)))
    case SystemLine =>
      if l.subtype == "compact_boundary" && l.timestamp != ""
      then p1.(info := p1.info.(lastCompactBoundary := l.timestamp))
      else p1
    case _ => p1
  }

  function FoldLine(p: Progress, l: Line): Progress {
    FoldInfo(p, l).(tools := ToolRules.StepAll(p.tools, LineEvents(l)),
                    agents := AgentRules.StepAll(p.agents, LineEvents(l)))
  }

  /** JSON decoding of one raw line; None when it is malformed. */
  type Decoder = seq<byte> -> Option<Line>

  function Decoded(decode: Decoder, raws: seq<seq<byte>>): seq<Line> {
    if raws == [] then []
    else
      var last := decode(raws[|raws| - 1]);
      Decoded(decode, raws[..|raws| - 1]) + if last.Some? then [last.value] else []
  }

  function Fold(lines: seq<Line>): Progress {
    if lines == [] then START else FoldLine(Fold(lines[..|lines| - 1]), lines[|lines| - 1])
  }

  /** What a parser holds once it has read these bytes and no others. */
  function Parse(decode: Decoder, bytes: seq<byte>): Progress {
    Fold(Decoded(decode, Lines(bytes)))
  }

  /** A marker, true of every token. A fact quantified over the tokens so marked stays out of a proof
      until the proof mentions one; the fold is large, and most proofs need not look inside. */
  ghost predicate Look(token: int) {
    true
  }

  /** `bytes` are whole lines, and `p` is their fold. */
  ghost predicate IsFoldOf(p: Progress, decode: Decoder, bytes: seq<byte>) {
    forall token {:trigger Look(token)} :: Look(token) ==> Whole(bytes) && p == Parse(decode, bytes)
  }

  lemma FoldOf(p: Progress, decode: Decoder, bytes: seq<byte>)
    requires IsFoldOf(p, decode, bytes)
    ensures Whole(bytes) && p == Parse(decode, bytes)
  {
    assert Look(0);
  }

  lemma {:induction false} DecodedConcat(decode: Decoder, a: seq<seq<byte>>, b: seq<seq<byte>>)
    ensures Decoded(decode, a + b) == Decoded(decode, a) + Decoded(decode, b)
  {
    if b == [] {
      assert a + b == a;
    } else {
      assert (a + b)[..|a + b| - 1] == a + b[..|b| - 1];
      DecodedConcat(decode, a, b[..|b| - 1]);
    }
  }

  /** The pending-work part of the fold is the event history of the lines. */
  lemma {:induction false} FoldIsTheHistory(lines: seq<Line>)
    ensures Fold(lines).tools == ToolRules.StepAll(ToolRules.NO_TOOLS, Events(lines))
    ensures Fold(lines).agents == AgentRules.StepAll(AgentRules.NO_AGENTS, Events(lines))
  {
    if lines != [] {
      var n := |lines| - 1;
      FoldIsTheHistory(lines[..n]);
      ToolRules.StepAllConcat(ToolRules.NO_TOOLS, Events(lines[..n]), LineEvents(lines[n]));
      AgentRules.StepAllConcat(AgentRules.NO_AGENTS, Events(lines[..n]), LineEvents(lines[n]));
    }
  }

  /** The snapshot `Info` returns: the fold, with the title and the pending work resolved. */
  function Snapshot(p: Progress): Info {
    var pending := ToolRules.LatestForeground(p.tools, p.tools.order);
    var agent := AgentRules.Latest(p.agents, p.agents.order);
    p.info.(title := ResolveTitle(p.titles),
            pendingTool := if pending.Some? then p.tools.open[pending.value].name else "",
            backgroundActive := ToolRules.BackgroundIds(p.tools) != {},
            backgroundLaunches := p.tools.launched,
            backgroundOpen := |ToolRules.BackgroundIds(p.tools)|,
            agentsActive := |p.agents.desc|,
            agentActivity := if agent.Some? then p.agents.desc[agent.value] else "")
  }

  // ---------------------------------------------------------------------------------------------
  // Reading in pieces.

  /** One `Advance`: the file as it stood, and how far into it the reader had delivered bytes when it
      ended, be it at the end of the file or on a read error. */
  datatype Reading = Reading(snapshot: seq<byte>, reached: nat)

  function Delivered(r: Reading): seq<byte> {
    if r.reached <= |r.snapshot| then r.snapshot[..r.reached] else r.snapshot
  }

  /** What a parser has consumed after reading on from its offset. */
  function Consume(consumed: seq<byte>, r: Reading): seq<byte> {
    if |consumed| <= |Delivered(r)| then consumed + Completed(Delivered(r)[|consumed|..]) else consumed
  }

  function ConsumeAll(consumed: seq<byte>, rs: seq<Reading>): seq<byte>
    decreases |rs|
  {
    if rs == [] then consumed else ConsumeAll(Consume(consumed, rs[0]), rs[1..])
  }

  /** Every reading goes on from the offset the previous one left, in a file that still begins with
      the bytes consumed so far. */
  ghost predicate Resumes(consumed: seq<byte>, rs: seq<Reading>)
    decreases |rs|
  {
    rs == [] || (consumed <= Delivered(rs[0]) && Resumes(Consume(consumed, rs[0]), rs[1..]))
  }

  /** The file only grows, and no reading delivers less of it than the one before. */
  ghost predicate Growing(rs: seq<Reading>) {
    forall i, j :: 0 <= i < j < |rs| ==> Delivered(rs[i]) <= Delivered(rs[j])
  }

  lemma CompletedAppend(a: seq<byte>, c: seq<byte>)
    requires Whole(a)
    ensures Completed(a + c) == a + Completed(c)
  {
    CutAppend(a, c);
    JoinedConcat(Lines(a), Lines(c));
    CutIsFaithful(a);
  }

  lemma ConsumeIsComplete(consumed: seq<byte>, r: Reading)
    requires Whole(consumed) && consumed <= Delivered(r)
    ensures Consume(consumed, r) == Completed(Delivered(r)) && Whole(Consume(consumed, r))
    ensures Consume(consumed, r) <= Delivered(r)
  {
    var got, data := Delivered(r), Delivered(r)[|consumed|..];
    assert got == consumed + data;
    CompletedAppend(consumed, data);
    CutIsFaithful(got);
    CompletedIsWhole(got);
  }

  lemma {:induction false} GrowingResumes(consumed: seq<byte>, rs: seq<Reading>)
    requires Growing(rs) && Whole(consumed)
    requires rs != [] ==> consumed <= Delivered(rs[0])
    ensures Resumes(consumed, rs)
    decreases |rs|
  {
    if rs != [] {
      ConsumeIsComplete(consumed, rs[0]);
      GrowingResumes(Consume(consumed, rs[0]), rs[1..]);
    }
  }

  /** However a growing file is cut into readings, and whether or not a reading failed midway, the
      parser ends where one pass over what the last reading delivered would have ended: at the byte
      past its last newline, holding the fold of exactly the bytes before it. */
  lemma {:induction false} ChunkIndependence(decode: Decoder, consumed: seq<byte>, rs: seq<Reading>)
    requires rs != [] && Whole(consumed) && Resumes(consumed, rs)
    ensures var got := Delivered(rs[|rs| - 1]);
            && ConsumeAll(consumed, rs) == Completed(got)
            && Parse(decode, ConsumeAll(consumed, rs)) == Parse(decode, got)
  {
    ConsumedToTheEnd(consumed, rs);
    CompletedIsWhole(Delivered(rs[|rs| - 1]));
  }

  lemma {:induction false} ConsumedToTheEnd(consumed: seq<byte>, rs: seq<Reading>)
    requires rs != [] && Whole(consumed) && Resumes(consumed, rs)
    ensures var got := Delivered(rs[|rs| - 1]);
            ConsumeAll(consumed, rs) == Completed(got)
    decreases |rs|
  {
    ConsumeIsComplete(consumed, rs[0]);
    if |rs| > 1 {
      ConsumedToTheEnd(Consume(consumed, rs[0]), rs[1..]);
    }
  }
}
