/** What a transcript's snapshot says of its session, told over the lines it was folded from. */
module InfoHistory {
  import opened Basics
  import opened History
  import opened ParserRules

  /** The part of a fold that is told here. */
  datatype Said = Said(
    stopReason: string, apiError: int, thinking: bool, activity: string, interrupted: bool, hasTurns: bool,
    contextTokens: int, model: string, titles: Titles)

  function SaidOf(p: Progress): Said {
    Said(p.info.lastStopReason, p.info.lastApiError, p.info.thinking, p.info.activity, p.info.interrupted,
         p.info.hasTurns, p.info.contextTokens, p.info.model, p.titles)
  }

  function Activity(c: Content): string {
    if c.Blocks? then LastToolActivity(c.blocks) else ""
  }

  /** A reply of the main chain that says how large its prompt was. */
  predicate IsMeasured(l: Line) {
    l.lineType.AssistantLine? && !l.isSidechain && PromptSize(l.message.usage) > 0
  }

  predicate IsReply(l: Line) {
    l.lineType.AssistantLine?
  }

  predicate NamesModel(l: Line) {
    IsReply(l) && IsRealModel(l.message.model)
  }

  predicate HasCustomTitle(l: Line) {
    l.customTitle != ""
  }

  /** What one line adds to what was said before it. */
  function Says(s: Said, l: Line): Said {
    var reply := IsReply(l);
    Said(if reply then l.message.stopReason else s.stopReason,
         if !reply then s.apiError else if l.isApiError then l.apiErrorStatus else 0,
         if reply then LastBlockIsThinking(l.message.content) else s.thinking,
         if reply then Activity(l.message.content) else s.activity,
         if !IsTurn(l) then s.interrupted else !reply && IsInterruptLine(l.message.content),
         s.hasTurns || IsTurn(l),
         if IsMeasured(l) then PromptSize(l.message.usage) else s.contextTokens,
         if NamesModel(l) then l.message.model else s.model,
         Titles(KeepLast(s.titles.custom, l.customTitle), KeepLast(s.titles.ai, l.aiTitle)))
  }

  lemma ReplySays(p: Progress, l: Line)
    requires IsReply(l)
    ensures SaidOf(FoldInfo(p, l)) == Says(SaidOf(p), l)
  {
    var info := ApplyReply(ApplyMeta(p.info, l).(hasTurns := true), l);
    var p1 := p.(info := info, titles := Observe(p.titles, l.customTitle, l.aiTitle));
    var p2 := CountUsage(p1, l.message);
    assert p2.info.(usage := p1.info.usage) == p1.info && p2.titles == p1.titles;
  }

  lemma OtherSays(p: Progress, l: Line)
    requires !IsReply(l)
    ensures SaidOf(FoldInfo(p, l)) == Says(SaidOf(p), l)
  {
  }

  /** What the told part of a fold comes to, on its own. */
  function SaidAfter(lines: seq<Line>): Said {
    if lines == [] then SaidOf(START) else Says(SaidAfter(lines[..|lines| - 1]), lines[|lines| - 1])
  }

  lemma LineSays(p: Progress, l: Line)
    ensures SaidOf(FoldLine(p, l)) == Says(SaidOf(p), l)
  {
    if IsReply(l) {
      ReplySays(p, l);
    } else {
      OtherSays(p, l);
    }
    var q := FoldInfo(p, l);
    assert FoldLine(p, l).info == q.info && FoldLine(p, l).titles == q.titles;
  }

  lemma {:induction false} FoldSays(lines: seq<Line>)
    ensures SaidOf(Fold(lines)) == SaidAfter(lines)
  {
    if lines != [] {
      FoldSays(lines[..|lines| - 1]);
      LineSays(Fold(lines[..|lines| - 1]), lines[|lines| - 1]);
    }
  }

  /** `lines[i]` is the last line of a kind. */
  ghost predicate IsLast(lines: seq<Line>, kind: Line -> bool, i: nat) {
    i < |lines| && kind(lines[i]) && forall j :: i < j < |lines| ==> !kind(lines[j])
  }

  lemma LastBefore(lines: seq<Line>, kind: Line -> bool, i: nat)
    requires IsLast(lines, kind, i)
    ensures i == |lines| - 1 || (!kind(lines[|lines| - 1]) && IsLast(lines[..|lines| - 1], kind, i))
  {
  }

  /** A part of what was said that only lines of one kind touch is what the last such line made it. */
  lemma {:induction false} LastOfKindSays<T>(lines: seq<Line>, kind: Line -> bool, part: Said -> T, given: Line -> T,
                                             i: nat)
    requires forall s, l :: part(Says(s, l)) == if kind(l) then given(l) else part(s)
    requires IsLast(lines, kind, i)
    ensures part(SaidAfter(lines)) == given(lines[i])
  {
    LastBefore(lines, kind, i);
    if i < |lines| - 1 {
      LastOfKindSays(lines[..|lines| - 1], kind, part, given, i);
    }
  }

  /** The stop reason, the API error, the activity and whether Claude is thinking are the last reply's. */
  lemma ReplyIsTold(lines: seq<Line>, i: nat)
    requires IsLast(lines, IsReply, i)
    ensures var info, l := Fold(lines).info, lines[i];
            && info.lastStopReason == l.message.stopReason
            && info.lastApiError == (if l.isApiError then l.apiErrorStatus else 0)
            && info.activity == Activity(l.message.content)
            && (info.thinking <==>
                && l.message.content.Blocks? && l.message.content.blocks != []
                && l.message.content.blocks[|l.message.content.blocks| - 1] == ThinkingBlock)
  {
    FoldSays(lines);
    LastOfKindSays(lines, IsReply, (s: Said) => s.stopReason, (l: Line) => l.message.stopReason, i);
    LastOfKindSays(lines, IsReply, (s: Said) => s.apiError,
                   (l: Line) => if l.isApiError then l.apiErrorStatus else 0, i);
    LastOfKindSays(lines, IsReply, (s: Said) => s.thinking, (l: Line) => LastBlockIsThinking(l.message.content), i);
    LastOfKindSays(lines, IsReply, (s: Said) => s.activity, (l: Line) => Activity(l.message.content), i);
    assert SaidOf(Fold(lines)) == SaidAfter(lines);
  }

  /** A session is interrupted exactly when the last line of its exchange is the operator's interruption. */
  lemma InterruptionIsTold(lines: seq<Line>, i: nat)
    requires IsLast(lines, IsTurn, i)
    ensures Fold(lines).info.interrupted <==>
            && lines[i].lineType.UserLine? && lines[i].message.content.Blocks?
            && (|| TextBlock("[Request interrupted by user]") in lines[i].message.content.blocks
                || TextBlock("[Request interrupted by user for tool use]") in lines[i].message.content.blocks)
  {
    FoldSays(lines);
    LastOfKindSays(lines, IsTurn, (s: Said) => s.interrupted,
                   (l: Line) => !IsReply(l) && IsInterruptLine(l.message.content), i);
    assert SaidOf(Fold(lines)).interrupted == SaidAfter(lines).interrupted;
  }

  /** The context size is the prompt of the last main-chain reply that measured one; a synthetic reply or a
      subagent's never overwrites it. The model is the last one a reply really names. */
  lemma ContextIsTold(lines: seq<Line>, i: nat)
    requires i < |lines|
    ensures IsLast(lines, IsMeasured, i) ==>
              var u := lines[i].message.usage;
              Fold(lines).info.contextTokens == u.input + u.cacheRead + u.cacheCreation
    ensures IsLast(lines, NamesModel, i) ==> Fold(lines).info.model == lines[i].message.model
    ensures IsMeasured(lines[i]) <==>
            && lines[i].lineType.AssistantLine? && !lines[i].isSidechain
            && var u := lines[i].message.usage; u.input + u.cacheRead + u.cacheCreation > 0
    ensures NamesModel(lines[i]) <==>
            && lines[i].lineType.AssistantLine? && lines[i].message.model != "" && lines[i].message.model[0] != '<'
  {
    FoldSays(lines);
    if IsLast(lines, IsMeasured, i) {
      LastOfKindSays(lines, IsMeasured, (s: Said) => s.contextTokens, (l: Line) => PromptSize(l.message.usage), i);
      assert SaidOf(Fold(lines)).contextTokens == SaidAfter(lines).contextTokens;
    }
    if IsLast(lines, NamesModel, i) {
      LastOfKindSays(lines, NamesModel, (s: Said) => s.model, (l: Line) => l.message.model, i);
      assert SaidOf(Fold(lines)).model == SaidAfter(lines).model;
    }
  }

  /** The operator's last title wins over every generated one, however late those come. */
  lemma CustomTitleIsTold(lines: seq<Line>, i: nat)
    requires IsLast(lines, HasCustomTitle, i)
    ensures ResolveTitle(Fold(lines).titles) == lines[i].customTitle
  {
    FoldSays(lines);
    LastOfKindSays(lines, HasCustomTitle, (s: Said) => s.titles.custom, (l: Line) => l.customTitle, i);
    assert SaidOf(Fold(lines)).titles == SaidAfter(lines).titles;
  }

  // ---------------------------------------------------------------------------------------------
  // The fields kept from whichever line gave them last.

  datatype Field = SessionId | Cwd | GitBranch | LastActivity | PermissionMode | Effort | CompactBoundary

  /** What a line gives, "" when nothing: the effort comes with a reply, the boundary with the end of a
      compaction. */
  function Given(l: Line, f: Field): string {
    match f
    case SessionId => l.sessionId
    case Cwd => l.cwd
    case GitBranch => l.gitBranch
    case LastActivity => l.timestamp
    case PermissionMode => l.permissionMode
    case Effort => if l.lineType.AssistantLine? then l.effort else ""
    case CompactBoundary => if l.lineType.SystemLine? && l.subtype == "compact_boundary" then l.timestamp else ""
  }

  function Kept(info: Info, f: Field): string {
    match f
    case SessionId => info.sessionId
    case Cwd => info.cwd
    case GitBranch => info.gitBranch
    case LastActivity => info.lastActivity
    case PermissionMode => info.permissionMode
    case Effort => info.effort
    case CompactBoundary => info.lastCompactBoundary
  }

  lemma ReplyKeeps(p: Progress, l: Line, f: Field)
    requires IsReply(l)
    ensures Kept(FoldInfo(p, l).info, f) == KeepLast(Kept(p.info, f), Given(l, f))
  {
    var info := ApplyReply(ApplyMeta(p.info, l).(hasTurns := true), l);
    var p1 := p.(info := info, titles := Observe(p.titles, l.customTitle, l.aiTitle));
    var p2 := CountUsage(p1, l.message);
    assert p2.info.(usage := p1.info.usage) == p1.info;
    assert Kept(p2.info, f) == Kept(info, f);
  }

  lemma OtherKeeps(p: Progress, l: Line, f: Field)
    requires !IsReply(l)
    ensures Kept(FoldInfo(p, l).info, f) == KeepLast(Kept(p.info, f), Given(l, f))
  {
  }

  /** What a field comes to, on its own. */
  function KeptAfter(lines: seq<Line>, f: Field): string {
    if lines == [] then "" else KeepLast(KeptAfter(lines[..|lines| - 1], f), Given(lines[|lines| - 1], f))
  }

  lemma LineKeeps(p: Progress, l: Line, f: Field)
    ensures Kept(FoldLine(p, l).info, f) == KeepLast(Kept(p.info, f), Given(l, f))
  {
    if IsReply(l) {
      ReplyKeeps(p, l, f);
    } else {
      OtherKeeps(p, l, f);
    }
    var q := FoldInfo(p, l);
    assert FoldLine(p, l).info == q.info;
  }

  lemma {:induction false} FoldKeeps(lines: seq<Line>, f: Field)
    ensures Kept(Fold(lines).info, f) == KeptAfter(lines, f)
  {
    if lines != [] {
      FoldKeeps(lines[..|lines| - 1], f);
      LineKeeps(Fold(lines[..|lines| - 1]), lines[|lines| - 1], f);
    }
  }

  lemma {:induction false} LastGivenIsKept(lines: seq<Line>, f: Field, i: nat)
    ensures i < |lines| && Given(lines[i], f) != "" && (forall j :: i < j < |lines| ==> Given(lines[j], f) == "") ==>
              KeptAfter(lines, f) == Given(lines[i], f)
    ensures (forall j :: 0 <= j < |lines| ==> Given(lines[j], f) == "") ==> KeptAfter(lines, f) == ""
  {
    if lines != [] {
      var before := lines[..|lines| - 1];
      assert forall j :: 0 <= j < |before| ==> before[j] == lines[j];
      LastGivenIsKept(before, f, i);
    }
  }

  /** Each of these fields is what the last line to give it said, and empty only if none did. */
  lemma FieldIsKept(lines: seq<Line>, f: Field, i: nat)
    ensures i < |lines| && Given(lines[i], f) != "" && (forall j :: i < j < |lines| ==> Given(lines[j], f) == "") ==>
              Kept(Fold(lines).info, f) == Given(lines[i], f)
    ensures (forall j :: 0 <= j < |lines| ==> Given(lines[j], f) == "") ==> Kept(Fold(lines).info, f) == ""
  {
    FoldKeeps(lines, f);
    LastGivenIsKept(lines, f, i);
  }

  /** Without a title of the operator's, the last generated one. */
  lemma {:induction false} GeneratedTitleIsTold(lines: seq<Line>, i: nat)
    requires forall j :: 0 <= j < |lines| ==> lines[j].customTitle == ""
    ensures IsLast(lines, (l: Line) => l.aiTitle != "", i) ==> ResolveTitle(Fold(lines).titles) == lines[i].aiTitle
    ensures (forall j :: 0 <= j < |lines| ==> lines[j].aiTitle == "") ==> ResolveTitle(Fold(lines).titles) == ""
  {
    FoldSays(lines);
    NoCustomTitle(lines);
    if IsLast(lines, (l: Line) => l.aiTitle != "", i) {
      LastOfKindSays(lines, (l: Line) => l.aiTitle != "", (s: Said) => s.titles.ai, (l: Line) => l.aiTitle, i);
    }
    assert SaidOf(Fold(lines)).titles == SaidAfter(lines).titles;
  }

  lemma {:induction false} NoCustomTitle(lines: seq<Line>)
    requires forall j :: 0 <= j < |lines| ==> lines[j].customTitle == ""
    ensures SaidAfter(lines).titles.custom == ""
    ensures (forall j :: 0 <= j < |lines| ==> lines[j].aiTitle == "") ==> SaidAfter(lines).titles.ai == ""
  {
    if lines != [] {
      NoCustomTitle(lines[..|lines| - 1]);
    }
  }

  /** A session has turns once it has a line of an exchange. */
  lemma {:induction false} TurnsAreTold(lines: seq<Line>)
    ensures Fold(lines).info.hasTurns <==>
            exists i :: 0 <= i < |lines| && (lines[i].lineType.AssistantLine? || lines[i].lineType.UserLine?)
  {
    FoldSays(lines);
    SaidTurns(lines);
    assert SaidOf(Fold(lines)).hasTurns == SaidAfter(lines).hasTurns;
  }

  lemma {:induction false} SaidTurns(lines: seq<Line>)
    ensures SaidAfter(lines).hasTurns <==> exists i :: 0 <= i < |lines| && IsTurn(lines[i])
  {
    if lines != [] {
      var n := |lines| - 1;
      SaidTurns(lines[..n]);
      assert forall i :: 0 <= i < n ==> lines[..n][i] == lines[i];
    }
  }

  /** The activity of a reply is that of its last call, if it makes any. */
  lemma {:induction false} ActivityIsTheLastCall(bs: seq<Block>, i: nat)
    ensures i < |bs| && bs[i].ToolUse? && (forall j :: i < j < |bs| ==> !bs[j].ToolUse?) ==>
              Activity(Blocks(bs)) == bs[i].activity
    ensures (forall j :: 0 <= j < |bs| ==> !bs[j].ToolUse?) ==> Activity(Blocks(bs)) == ""
  {
    if bs != [] {
      var n := |bs| - 1;
      ActivityIsTheLastCall(bs[..n], i);
      assert forall j :: 0 <= j < n ==> bs[..n][j] == bs[j];
    }
  }
}
