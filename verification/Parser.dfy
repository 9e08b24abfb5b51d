/** The incremental transcript parser: an object that is fed the bytes appended since its offset. */
module Parser {
  import opened Basics
  import opened History
  import opened ParserRules
  import ToolRules
  import AgentRules
  import PT = PendingTools
  import PA = PendingAgents

  datatype ReadEnd = FullLine | AtEof | Broken

  /** A buffered reader over the bytes from a file offset on. It ends at the end of the file or, when
      it is `broken`, on a read error. */
  class Reader {
    var rest: seq<byte>
    const broken: bool

    constructor (bytes: seq<byte>, broken: bool)
      ensures rest == bytes && this.broken == broken
    {
      rest := bytes;
      this.broken := broken;
    }

    /** Everything up to and including the next newline or, without one, all that is left. */
    method ReadBytes() returns (raw: seq<byte>, end: ReadEnd)
      modifies this
      ensures end.FullLine? ==> IsLine(raw) && old(rest) == raw + rest
      ensures !end.FullLine? ==> NoNewline(raw) && raw == old(rest) && rest == []
      ensures !end.FullLine? ==> end == if broken then Broken else AtEof
    {
      var i := 0;
      while i < |rest|
        invariant 0 <= i <= |rest| && rest == old(rest)
        invariant NoNewline(rest[..i])
      {
        i := i + 1;
        if rest[i - 1] == NEWLINE {
          raw, rest := rest[..i], rest[i..];
          assert raw[..i - 1] == old(rest)[..i - 1];
          return raw, FullLine;
        }
      }
      assert rest[..i] == rest;
      raw, rest := rest, [];
      end := if broken then Broken else AtEof;
    }
  }

  /** Reading one more line folds in what it decodes to, and a malformed line is skipped. */
  lemma ParseOneLine(decode: Decoder, bytes: seq<byte>, raw: seq<byte>)
    requires Whole(bytes) && IsLine(raw)
    ensures Whole(bytes + raw)
    ensures Parse(decode, bytes + raw) ==
            var l := decode(raw);
            if l.Some? then FoldLine(Parse(decode, bytes), l.value) else Parse(decode, bytes)
  {
    CutOneLine(raw);
    CutAppend(bytes, raw);
    var lines := Decoded(decode, Lines(bytes));
    DecodedConcat(decode, Lines(bytes), [raw]);
    assert Decoded(decode, [raw][..0]) == [];
    if decode(raw).Some? {
      assert (lines + [decode(raw).value])[..|lines|] == lines;
    } else {
      assert lines + [] == lines;
    }
  }

  class Parser {
    const decode: Decoder
    var info: Info
    var titles: Titles
    var seen: set<string>
    const pending: PT.PendingTools
    const agents: PA.PendingAgents
    var offset: nat
    /** The bytes folded in so far. */
    ghost var consumed: seq<byte>

    constructor (decode: Decoder)
      ensures Valid() && fresh(Repr()) && this.decode == decode && consumed == []
    {
      this.decode := decode;
      info, titles, seen, offset, consumed := NO_INFO, Titles("", ""), {}, 0, [];
      pending := new PT.PendingTools();
      agents := new PA.PendingAgents();
    }

    ghost function Repr(): set<object> {
      {this, pending, agents}
    }

    ghost function State(): Progress
      reads Repr()
    {
      Progress(info, titles, seen, pending.State(), agents.State())
    }

    /** The offset counts the consumed bytes, those are whole lines, and the state is their fold. */
    ghost predicate Valid()
      reads Repr()
    {
      offset == |consumed| && IsFoldOf(State(), decode, consumed)
    }

    /** Folds one raw line; a malformed one changes nothing. */
    method FoldRawLine(raw: seq<byte>)
      modifies this`info, this`titles, this`seen, pending, agents
      ensures State() == if decode(raw).Some? then FoldLine(old(State()), decode(raw).value) else old(State())
    {
      var decoded := decode(raw);
      if decoded.None? {
        return;
      }
      var l := decoded.value;
      FoldInfoLine(l);
      FoldPendingLine(l);
    }

    /** The identity, context and token part of a line. */
    method FoldInfoLine(l: Line)
      modifies this`info, this`titles, this`seen
      ensures Progress(info, titles, seen, pending.State(), agents.State()) == FoldInfo(old(State()), l)
    {
      info := ApplyMeta(info, l);
      titles := Observe(titles, l.customTitle, l.aiTitle);
      if IsTurn(l) {
        info := info.(hasTurns := true);
      }
      match l.lineType {
        case AssistantLine =>
          info := ApplyReply(info, l);
          if !IsRetry(seen, l.message) {
            if l.message.id != "" {
              seen := seen + {l.message.id};
            }
            info := info.(usage := AddUsage(info.usage, l.message.usage));
          }
          info := info.(interrupted := false);
        case UserLine => info := info.(interrupted := IsInterruptLine(l.message.content));
        case SystemLine =>
          if l.subtype == "compact_boundary" && l.timestamp != "" {
            info := info.(lastCompactBoundary := l.timestamp);
          }
        case _ =>
      }
    }

    /** The pending-work part of a line. */
    method FoldPendingLine(l: Line)
      modifies pending, agents
      ensures pending.State() == ToolRules.StepAll(old(pending.State()), LineEvents(l))
      ensures agents.State() == AgentRules.StepAll(old(agents.State()), LineEvents(l))
    {
      var content := l.message.content;
      match l.lineType {
        case AssistantLine =>
          pending.AddToolUses(content);
          agents.AddLaunches(content);
        case UserLine =>
          FoldUserLine(l);
        case AttachmentLine =>
          if l.attachment.commandMode == TASK_NOTIFICATION {
            var _ := agents.ClearNotificationsIn(l.attachment.notifications);
            pending.ClearBackgroundNotificationsIn(l.attachment.notifications);
          }
        case _ =>
      }
    }

    /** Results and notifications close what they name; a real prompt closes the turn. */
    method FoldUserLine(l: Line)
      requires l.lineType.UserLine?
      modifies pending, agents
      ensures pending.State() == ToolRules.StepAll(old(pending.State()), LineEvents(l))
      ensures agents.State() == AgentRules.StepAll(old(agents.State()), LineEvents(l))
    {
      var content := l.message.content;
      ghost var tools, inFlight := pending.State(), agents.State();
      var answered := pending.ClearToolResults(content);
      var notified := agents.ClearNotifications(content);
      pending.ClearBackgroundNotifications(content);
      ghost var named := ContentAnswers(content) + ContentClosings(content);
      ToolRules.StepAllConcat(tools, ContentAnswers(content), ContentClosings(content));
      AgentRules.StepAllConcat(inFlight, ContentAnswers(content), ContentClosings(content));
      if content.Blocks? {
        AgentRules.AnswersAreIgnored(inFlight, content.blocks);
      }
      assert pending.State() == ToolRules.StepAll(tools, named);
      assert agents.State() == AgentRules.StepAll(inFlight, named);
      if !answered && !notified && !l.isMeta {
        pending.CloseTurnTools();
        agents.CloseTurn();
        ToolRules.StepAllOne(tools, named, Prompted);
        AgentRules.StepAllOne(inFlight, named, Prompted);
      } else {
        assert named + [] == named;
      }
    }

    /** Folds every complete line the reader delivers. A trailing partial line stays unconsumed, and
        a read error leaves exactly the lines before it folded in. */
    method Advance(r: Reader) returns (ok: bool)
      requires Valid()
      modifies Repr(), r
      ensures Valid() && consumed == old(consumed) + Completed(old(r.rest))
      ensures ok == !r.broken
    {
      ghost var all, before := r.rest, consumed;
      var end := FullLine;
      Begun(all);
      while end.FullLine?
        invariant end.FullLine? ==> Valid() && Midway(all, before, consumed, r.rest)
        invariant !end.FullLine? ==> Valid() && consumed == before + Completed(all)
        invariant !end.FullLine? ==> end == if r.broken then Broken else AtEof
        decreases end.FullLine?, |r.rest|
      {
        end := AdvanceOne(r, all, before);
      }
      ok := end.AtEof?;
    }

    /** Reads once: a whole line is folded in; anything else ends the reading and folds nothing. */
    method AdvanceOne(r: Reader, ghost all: seq<byte>, ghost before: seq<byte>) returns (end: ReadEnd)
      requires Valid() && Midway(all, before, consumed, r.rest)
      modifies Repr(), r
      ensures Valid()
      ensures end.FullLine? ==> Midway(all, before, consumed, r.rest) && |r.rest| < |old(r.rest)|
      ensures !end.FullLine? ==> consumed == before + Completed(all) && r.rest == []
      ensures !end.FullLine? ==> end == if r.broken then Broken else AtEof
    {
      ghost var rest, was := r.rest, consumed;
      var raw;
      raw, end := r.ReadBytes();
      if end.FullLine? {
        MidwayLine(all, before, was, raw, r.rest);
        ConsumeLine(raw);
      } else {
        MidwayEnd(all, before, was, rest);
      }
    }

    method ConsumeLine(raw: seq<byte>)
      requires Valid() && IsLine(raw)
      modifies Repr()
      ensures Valid() && consumed == old(consumed) + raw
    {
      FoldOf(State(), decode, consumed);
      offset := offset + |raw|;
      FoldRawLine(raw);
      ParseOneLine(decode, consumed, raw);
      consumed := consumed + raw;
    }

    /** A snapshot of the state, with the title and the pending work resolved. */
    method Snapshot() returns (snapshot: Info)
      ensures snapshot == ParserRules.Snapshot(State())
    {
      var pendingTool, backgroundActive := pending.Resolve();
      var launched, open := pending.BackgroundCounts();
      var count, description := agents.Resolve();
      snapshot := info.(title := ResolveTitle(titles),
                        pendingTool := pendingTool, backgroundActive := backgroundActive,
                        backgroundLaunches := launched, backgroundOpen := open,
                        agentsActive := count, agentActivity := description);
    }
  }

  /** Between two reads: of all that was to be read, `consumed` holds the lines taken so far on top
      of what it held `before`, and `rest` is still to come. */
  ghost predicate Midway(all: seq<byte>, before: seq<byte>, consumed: seq<byte>, rest: seq<byte>) {
    exists taken :: IsTaken(all, before, consumed, rest, taken)
  }

  ghost predicate IsTaken(all: seq<byte>, before: seq<byte>, consumed: seq<byte>, rest: seq<byte>, taken: seq<byte>) {
    all == taken + rest && consumed == before + taken && Whole(taken)
  }

  lemma Begun(all: seq<byte>)
    ensures forall before :: Midway(all, before, before, all)
  {
    forall before
      ensures Midway(all, before, before, all)
    {
      assert IsTaken(all, before, before, all, []);
    }
  }

  lemma MidwayLine(all: seq<byte>, before: seq<byte>, consumed: seq<byte>, raw: seq<byte>, rest: seq<byte>)
    requires IsLine(raw) && Midway(all, before, consumed, raw + rest)
    ensures Midway(all, before, consumed + raw, rest)
  {
    var taken :| IsTaken(all, before, consumed, raw + rest, taken);
    CutOneLine(raw);
    CutAppend(taken, raw);
    assert IsTaken(all, before, consumed + raw, rest, taken + raw);
  }

  lemma MidwayEnd(all: seq<byte>, before: seq<byte>, consumed: seq<byte>, rest: seq<byte>)
    requires NoNewline(rest) && Midway(all, before, consumed, rest)
    ensures consumed == before + Completed(all)
  {
    var taken :| IsTaken(all, before, consumed, rest, taken);
    CompletedAppend(taken, rest);
    CutNoNewline(rest);
    assert taken + [] == taken;
  }
}
