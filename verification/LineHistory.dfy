/** How a transcript line moves the pending work, told over its blocks and notifications alone: which
    calls and subagents it opens, and which it closes, through every carrier. */
module LineHistory {
  import opened Basics
  import opened History
  import opened ParserRules
  import ToolRules
  import AgentRules

  // ---------------------------------------------------------------------------------------------
  // What a line says.

  function UsesIn(l: Line): seq<Block> {
    if l.lineType.AssistantLine? && l.message.content.Blocks? then l.message.content.blocks else []
  }

  function ResultsIn(l: Line): seq<Block> {
    if l.lineType.UserLine? && l.message.content.Blocks? then l.message.content.blocks else []
  }

  ghost predicate IsUse(b: Block, id: string) {
    b.ToolUse? && b.id == id && id != ""
  }

  /** Block `i` is the last among the first `n` to call a tool under `id`. */
  ghost predicate IsLastUse(bs: seq<Block>, n: nat, id: string, i: nat)
    requires n <= |bs|
  {
    i < n && IsUse(bs[i], id) && forall j :: i < j < n ==> !IsUse(bs[j], id)
  }

  ghost predicate IsUsed(bs: seq<Block>, n: nat, id: string)
    requires n <= |bs|
  {
    exists i :: 0 <= i < n && IsUse(bs[i], id)
  }

  predicate IsResult(b: Block) {
    b.ToolResult? && b.toolUseId != ""
  }

  ghost predicate Answers(bs: seq<Block>, n: nat, id: string)
    requires n <= |bs|
  {
    exists i :: 0 <= i < n && IsResult(bs[i]) && bs[i].toolUseId == id
  }

  ghost predicate Names(ns: seq<Notification>, n: nat, id: string)
    requires n <= |ns|
  {
    exists i :: 0 <= i < n && ns[i].terminal && ns[i].toolUseId == Some(id)
  }

  /** The line carries a terminal notification that names `id`: as the text of a user line, or queued as an
      attachment while a turn runs. */
  ghost predicate Notifies(l: Line, id: string) {
    match l.lineType
    case UserLine =>
      l.message.content.Plain? && Names(l.message.content.notifications, |l.message.content.notifications|, id)
    case AttachmentLine =>
      && l.attachment.commandMode == "task-notification"
      && Names(l.attachment.notifications, |l.attachment.notifications|, id)
    case _ => false
  }

  /** The operator typed the line: it answers nothing, carries no notification, and Claude Code did not
      write it. */
  ghost predicate IsTyped(l: Line) {
    && l.lineType.UserLine? && !l.isMeta
    && (l.message.content.Plain? ==> l.message.content.notifications == [])
    && (l.message.content.Blocks? ==>
          forall i :: 0 <= i < |l.message.content.blocks| ==> !IsResult(l.message.content.blocks[i]))
  }

  // ---------------------------------------------------------------------------------------------
  // Stops. Within one line a result can name a task that a later result stops, and a stop can end the
  // launch that a still later result would have named.

  /** The launch that `task` names after the first `n` blocks: the last one, open in the background when
      its result gave it that id. */
  ghost function TaskOf(s: ToolRules.Tools, bs: seq<Block>, n: nat, task: string): Option<string>
    requires n <= |bs|
    decreases n, 0
  {
    if n == 0 then if task in s.byTask then Some(s.byTask[task]) else None
    else
      var b := bs[n - 1];
      if IsResult(b) && b.launched == Some(task) && b.toolUseId in s.open && s.open[b.toolUseId].background &&
         !IsStopped(s, bs, n - 1, b.toolUseId)
      then Some(b.toolUseId)
      else TaskOf(s, bs, n - 1, task)
  }

  /** Block `k` reports that a declared stop succeeded, and the task it stopped names `id`. */
  ghost predicate Stops(s: ToolRules.Tools, bs: seq<Block>, k: nat, id: string)
    requires k < |bs|
    decreases k + 1, 1
  {
    && IsResult(bs[k]) && !Answers(bs, k, bs[k].toolUseId) && bs[k].toolUseId in s.pendingStops
    && bs[k].stopped == Some(s.pendingStops[bs[k].toolUseId])
    && TaskOf(s, bs, k + 1, s.pendingStops[bs[k].toolUseId]) == Some(id)
  }

  ghost predicate IsStopped(s: ToolRules.Tools, bs: seq<Block>, n: nat, id: string)
    requires n <= |bs|
    decreases n, 2
  {
    n > 0 && (IsStopped(s, bs, n - 1, id) || Stops(s, bs, n - 1, id))
  }

  /** What closes each kind of open call: a background launch by its notification, a foreground call by its
      result or by the next typed prompt, and either by a stop. */
  ghost predicate ClosesCall(s: ToolRules.Tools, l: Line, id: string, background: bool) {
    || (background && Notifies(l, id))
    || (!background && (Answers(ResultsIn(l), |ResultsIn(l)|, id) || IsTyped(l)))
    || IsStopped(s, ResultsIn(l), |ResultsIn(l)|, id)
  }

  // ---------------------------------------------------------------------------------------------
  // The bookkeeping over the parts of a line, one id at a time.

  lemma UseStep(bs: seq<Block>, n: nat, id: string, i: nat)
    requires n < |bs|
    ensures IsLastUse(bs, n + 1, id, i) <==> if IsUse(bs[n], id) then i == n else IsLastUse(bs, n, id, i)
    ensures IsUsed(bs, n + 1, id) <==> IsUse(bs[n], id) || IsUsed(bs, n, id)
  {
  }

  /** The first `n` blocks of a reply, recorded one by one. */
  function Used(s: ToolRules.Tools, bs: seq<Block>, n: nat): ToolRules.Tools
    requires n <= |bs|
  {
    if n == 0 then s
    else
      var ds := BlockDeclarations(bs[n - 1]);
      if ds == [] then Used(s, bs, n - 1) else ToolRules.Declare(Used(s, bs, n - 1), ds[0])
  }

  lemma UsedStep(s: ToolRules.Tools, bs: seq<Block>, n: nat)
    requires n < |bs| && ToolRules.StepAll(s, Declarations(bs[..n])) == Used(s, bs, n)
    ensures ToolRules.StepAll(s, Declarations(bs[..n + 1])) == Used(s, bs, n + 1)
  {
    ToolRules.StepAllBlocks(s, bs, n);
    UseIsStepped(Used(s, bs, n), bs[n]);
  }

  lemma UseIsStepped(was: ToolRules.Tools, b: Block)
    ensures var ds := BlockDeclarations(b); ds != [] ==> ToolRules.Step(was, ds[0]) == ToolRules.Declare(was, ds[0])
  {
  }

  lemma {:induction false} UsedIsDeclared(s: ToolRules.Tools, bs: seq<Block>, n: nat)
    requires n <= |bs|
    ensures ToolRules.StepAll(s, Declarations(bs[..n])) == Used(s, bs, n)
  {
    if n > 0 {
      UsedIsDeclared(s, bs, n - 1);
      UsedStep(s, bs, n - 1);
    }
  }

  lemma UseOpens(was: ToolRules.Tools, b: Block, id: string)
    ensures var ds := BlockDeclarations(b);
            && (ds == [] ==> !IsUse(b, id))
            && (ds != [] ==>
                  var now := ToolRules.Declare(was, ds[0]);
                  && (id in now.open <==> id in was.open || IsUse(b, id))
                  && (IsUse(b, id) ==> now.open[id] == ToolRules.Tool(b.name, b.runInBackground || b.persistent))
                  && (!IsUse(b, id) && id in was.open ==> now.open[id] == was.open[id]))
  {
  }

  lemma {:induction false} UsesOpen(s: ToolRules.Tools, bs: seq<Block>, n: nat, id: string, i: nat)
    requires n <= |bs|
    ensures var s' := Used(s, bs, n);
            && (IsLastUse(bs, n, id, i) ==>
                  && id in s'.open
                  && s'.open[id] == ToolRules.Tool(bs[i].name, bs[i].runInBackground || bs[i].persistent))
            && (!IsUsed(bs, n, id) ==> (id in s'.open <==> id in s.open))
            && (!IsUsed(bs, n, id) && id in s.open ==> s'.open[id] == s.open[id])
  {
    if n > 0 {
      UsesOpen(s, bs, n - 1, id, i);
      UseStep(bs, n - 1, id, i);
      UseOpens(Used(s, bs, n - 1), bs[n - 1], id);
    }
  }

  lemma NameStep(ns: seq<Notification>, n: nat, id: string)
    requires n < |ns|
    ensures Names(ns, n + 1, id) <==> Names(ns, n, id) || (ns[n].terminal && ns[n].toolUseId == Some(id))
  {
  }

  /** The first `n` notifications, taken one by one. */
  function Noticed(s: ToolRules.Tools, ns: seq<Notification>, n: nat): ToolRules.Tools
    requires n <= |ns|
  {
    if n == 0 then s
    else if ns[n - 1].terminal && ns[n - 1].toolUseId.Some?
    then ToolRules.Notify(Noticed(s, ns, n - 1), ns[n - 1].toolUseId.value)
    else Noticed(s, ns, n - 1)
  }

  lemma {:induction false} NoticedIsClosed(s: ToolRules.Tools, ns: seq<Notification>, n: nat)
    requires n <= |ns|
    ensures ToolRules.StepAll(s, Closings(ns[..n])) == Noticed(s, ns, n)
  {
    if n > 0 {
      NoticedIsClosed(s, ns, n - 1);
      ToolRules.StepAllClosings(s, ns, n - 1);
    }
  }

  lemma {:induction false} NamesClose(s: ToolRules.Tools, ns: seq<Notification>, n: nat, id: string)
    requires n <= |ns|
    ensures var s' := Noticed(s, ns, n);
            && (id in s'.open <==> id in s.open && !(s.open[id].background && Names(ns, n, id)))
            && (id in s'.open ==> s'.open[id] == s.open[id])
  {
    if n > 0 {
      NamesClose(s, ns, n - 1, id);
      NameStep(ns, n - 1, id);
    }
  }

  lemma AnswersStep(bs: seq<Block>, n: nat, id: string)
    requires n < |bs|
    ensures Answers(bs, n + 1, id) <==> Answers(bs, n, id) || (IsResult(bs[n]) && bs[n].toolUseId == id)
  {
  }

  /** The first `n` blocks of a user line, answered one by one. */
  function Answered(s: ToolRules.Tools, bs: seq<Block>, n: nat): ToolRules.Tools
    requires n <= |bs|
  {
    if n == 0 then s
    else
      var was, b := Answered(s, bs, n - 1), bs[n - 1];
      if IsResult(b) then ToolRules.Answer(was, b.toolUseId, b.launched, b.stopped) else was
  }

  lemma ResultIsStepped(was: ToolRules.Tools, b: Block)
    ensures BlockAnswers(b) == [] <==> !IsResult(b)
    ensures IsResult(b) ==> ToolRules.Step(was, BlockAnswers(b)[0]) ==
                            ToolRules.Answer(was, b.toolUseId, b.launched, b.stopped)
  {
  }

  lemma AnsweredStep(s: ToolRules.Tools, bs: seq<Block>, n: nat)
    requires n < |bs| && ToolRules.StepAll(s, History.Answers(bs[..n])) == Answered(s, bs, n)
    ensures ToolRules.StepAll(s, History.Answers(bs[..n + 1])) == Answered(s, bs, n + 1)
  {
    ToolRules.StepAllBlocks(s, bs, n);
    ResultIsStepped(Answered(s, bs, n), bs[n]);
  }

  lemma {:induction false} AnsweredIsStepped(s: ToolRules.Tools, bs: seq<Block>, n: nat)
    requires n <= |bs|
    ensures ToolRules.StepAll(s, History.Answers(bs[..n])) == Answered(s, bs, n)
  {
    if n > 0 {
      AnsweredIsStepped(s, bs, n - 1);
      AnsweredStep(s, bs, n - 1);
    }
  }

  lemma {:induction false} PendingStopsAfter(s: ToolRules.Tools, bs: seq<Block>, n: nat, call: string)
    requires n <= |bs|
    ensures var s' := Answered(s, bs, n);
            && (call in s'.pendingStops <==> call in s.pendingStops && !Answers(bs, n, call))
            && (call in s'.pendingStops ==> s'.pendingStops[call] == s.pendingStops[call])
  {
    if n > 0 {
      var b := bs[n - 1];
      PendingStopsAfter(s, bs, n - 1, call);
      AnswersStep(bs, n - 1, call);
      if IsResult(b) {
        ToolRules.AnswerParts(Answered(s, bs, n - 1), b.toolUseId, b.launched, b.stopped);
      }
    }
  }

  lemma {:induction false} TasksAfter(s: ToolRules.Tools, bs: seq<Block>, n: nat, task: string)
    requires n <= |bs|
    ensures var s' := Answered(s, bs, n);
            TaskOf(s, bs, n, task) == if task in s'.byTask then Some(s'.byTask[task]) else None
    decreases n, 0
  {
    if n > 0 {
      var b := bs[n - 1];
      TasksAfter(s, bs, n - 1, task);
      if IsResult(b) {
        OpenAfter(s, bs, n - 1, b.toolUseId);
        ToolRules.AnswerParts(Answered(s, bs, n - 1), b.toolUseId, b.launched, b.stopped);
      }
    }
  }

  lemma {:induction false} OpenAfter(s: ToolRules.Tools, bs: seq<Block>, n: nat, id: string)
    requires n <= |bs|
    ensures var s' := Answered(s, bs, n);
            && (id in s'.open <==>
                id in s.open && !(!s.open[id].background && Answers(bs, n, id)) && !IsStopped(s, bs, n, id))
            && (id in s'.open ==> s'.open[id] == s.open[id])
    decreases n, 1
  {
    if n > 0 {
      var b := bs[n - 1];
      OpenAfter(s, bs, n - 1, id);
      AnswersStep(bs, n - 1, id);
      if IsResult(b) {
        var was := Answered(s, bs, n - 1);
        PendingStopsAfter(s, bs, n - 1, b.toolUseId);
        if b.toolUseId in was.pendingStops {
          TasksAfter(s, bs, n, was.pendingStops[b.toolUseId]);
        }
        AnswerCloses(was, b, id);
        ToolRules.AnswerParts(was, b.toolUseId, b.launched, b.stopped);
      }
    }
  }

  /** What one result closes. */
  lemma AnswerCloses(was: ToolRules.Tools, b: Block, id: string)
    requires IsResult(b)
    ensures var now := ToolRules.Answer(was, b.toolUseId, b.launched, b.stopped);
            && (id in now.open <==>
                && id in was.open && !(!was.open[id].background && id == b.toolUseId)
                && !(b.toolUseId in was.pendingStops && b.stopped == Some(was.pendingStops[b.toolUseId]) &&
                     was.pendingStops[b.toolUseId] in now.byTask &&
                     now.byTask[was.pendingStops[b.toolUseId]] == id))
            && (id in now.open ==> now.open[id] == was.open[id])
  {
    ToolRules.AnswerParts(was, b.toolUseId, b.launched, b.stopped);
  }

  lemma {:induction false} NoAnswers(bs: seq<Block>)
    ensures History.Answers(bs) == [] <==> forall i :: 0 <= i < |bs| ==> !IsResult(bs[i])
  {
    if bs != [] {
      var n := |bs| - 1;
      NoAnswers(bs[..n]);
      assert forall i :: 0 <= i < n ==> bs[..n][i] == bs[i];
    }
  }

  // ---------------------------------------------------------------------------------------------
  // One line.

  lemma TypedIsPrompt(l: Line)
    ensures IsTyped(l) <==> IsPrompt(l)
  {
    if l.message.content.Blocks? {
      NoAnswers(l.message.content.blocks);
    }
  }

  lemma PromptKeeps(s: ToolRules.Tools, id: string)
    requires ToolRules.Ordered(s)
    ensures var s' := ToolRules.CloseTurn(s);
            && (id in s'.open <==> id in s.open && s.open[id].background)
            && (id in s'.open ==> s'.open[id] == s.open[id])
  {
    if |s.open| == 0 {
      assert s.open == map[];
    }
  }

  /** The calls a line leaves open: those it makes, each by its last block, and those that were open and
      that nothing in it closes. */
  ghost predicate MovesCall(s: ToolRules.Tools, s': ToolRules.Tools, l: Line, id: string, i: nat) {
    var uses := UsesIn(l);
    && (IsLastUse(uses, |uses|, id, i) ==>
          && id in s'.open
          && s'.open[id] == ToolRules.Tool(uses[i].name, uses[i].runInBackground || uses[i].persistent))
    && (!IsUsed(uses, |uses|, id) ==>
          (id in s'.open <==> id in s.open && !ClosesCall(s, l, id, s.open[id].background)) &&
          (id in s'.open ==> s'.open[id] == s.open[id]))
  }

  /** What a user line does to the calls: a typed one closes the turn, any other answers or notifies. */
  ghost function AfterUser(s: ToolRules.Tools, l: Line): ToolRules.Tools {
    if IsTyped(l) then ToolRules.CloseTurn(s)
    else
      match l.message.content
      case Blocks(blocks) => Answered(s, blocks, |blocks|)
      case Plain(notifications) => Noticed(s, notifications, |notifications|)
      case _ => s
  }

  lemma UntypedIsAfter(s: ToolRules.Tools, l: Line)
    requires l.lineType.UserLine? && !IsTyped(l)
    ensures ToolRules.StepAll(s, LineEvents(l)) == AfterUser(s, l)
  {
    var c := l.message.content;
    TypedIsPrompt(l);
    if c.Blocks? {
      AnsweredIsStepped(s, c.blocks, |c.blocks|);
      assert c.blocks[..|c.blocks|] == c.blocks && LineEvents(l) == History.Answers(c.blocks);
    } else if c.Plain? {
      NoticedIsClosed(s, c.notifications, |c.notifications|);
      assert c.notifications[..|c.notifications|] == c.notifications && LineEvents(l) == Closings(c.notifications);
    } else {
      assert LineEvents(l) == [];
    }
  }

  lemma TypedIsAfter(s: ToolRules.Tools, l: Line)
    requires l.lineType.UserLine? && IsTyped(l)
    ensures ToolRules.StepAll(s, LineEvents(l)) == AfterUser(s, l)
  {
    TypedEvents(l);
    PromptIsStepped(s);
  }

  lemma TypedEvents(l: Line)
    requires IsTyped(l)
    ensures LineEvents(l) == [Prompted]
  {
    TypedIsPrompt(l);
    assert ContentClosings(l.message.content) == [];
  }

  lemma PromptIsStepped(s: ToolRules.Tools)
    ensures ToolRules.StepAll(s, [Prompted]) == ToolRules.CloseTurn(s)
  {
    var nothing: seq<Event> := [];
    assert ToolRules.StepAll(s, nothing) == s && nothing + [Prompted] == [Prompted];
    ToolRules.StepAllOne(s, nothing, Prompted);
  }

  lemma {:induction false} NothingAnswered(s: ToolRules.Tools, bs: seq<Block>, n: nat, id: string)
    requires n <= |bs| && forall i :: 0 <= i < n ==> !IsResult(bs[i])
    ensures !Answers(bs, n, id) && !IsStopped(s, bs, n, id)
  {
    if n > 0 {
      NothingAnswered(s, bs, n - 1, id);
    }
  }

  lemma AfterUserMoves(s: ToolRules.Tools, l: Line, id: string, i: nat)
    requires ToolRules.Ordered(s) && l.lineType.UserLine?
    ensures MovesCall(s, AfterUser(s, l), l, id, i)
  {
    var c, bs := l.message.content, ResultsIn(l);
    if IsTyped(l) {
      NothingAnswered(s, bs, |bs|, id);
      PromptKeeps(s, id);
    } else if c.Blocks? {
      OpenAfter(s, bs, |bs|, id);
    } else {
      NothingAnswered(s, bs, |bs|, id);
      if c.Plain? {
        NamesClose(s, c.notifications, |c.notifications|, id);
      }
    }
  }

  /** What a line does to the calls. */
  ghost function AfterLine(s: ToolRules.Tools, l: Line): ToolRules.Tools {
    match l.lineType
    case AssistantLine => Used(s, UsesIn(l), |UsesIn(l)|)
    case UserLine => AfterUser(s, l)
    case AttachmentLine =>
      if l.attachment.commandMode == "task-notification"
      then Noticed(s, l.attachment.notifications, |l.attachment.notifications|)
      else s
    case _ => s
  }

  lemma ReplyIsAfter(s: ToolRules.Tools, l: Line)
    requires l.lineType.AssistantLine?
    ensures ToolRules.StepAll(s, LineEvents(l)) == AfterLine(s, l)
  {
    var uses := UsesIn(l);
    UsedIsDeclared(s, uses, |uses|);
    assert uses[..|uses|] == uses && LineEvents(l) == Declarations(uses);
  }

  lemma AttachmentIsAfter(s: ToolRules.Tools, l: Line)
    requires l.lineType.AttachmentLine?
    ensures ToolRules.StepAll(s, LineEvents(l)) == AfterLine(s, l)
  {
    var ns := l.attachment.notifications;
    NoticedIsClosed(s, ns, |ns|);
    assert ns[..|ns|] == ns;
  }

  lemma LineIsAfter(s: ToolRules.Tools, l: Line)
    ensures ToolRules.StepAll(s, LineEvents(l)) == AfterLine(s, l)
  {
    if l.lineType.AssistantLine? {
      ReplyIsAfter(s, l);
    } else if l.lineType.AttachmentLine? {
      AttachmentIsAfter(s, l);
    } else if l.lineType.UserLine? {
      if IsTyped(l) {
        TypedIsAfter(s, l);
      } else {
        UntypedIsAfter(s, l);
      }
    } else {
      assert LineEvents(l) == [];
    }
  }

  lemma AfterLineMoves(s: ToolRules.Tools, l: Line, id: string, i: nat)
    requires ToolRules.Ordered(s)
    ensures MovesCall(s, AfterLine(s, l), l, id, i)
  {
    match l.lineType {
      case AssistantLine => UsesOpen(s, UsesIn(l), |UsesIn(l)|, id, i);
      case UserLine => AfterUserMoves(s, l, id, i);
      case AttachmentLine => NamesClose(s, l.attachment.notifications, |l.attachment.notifications|, id);
      case SystemLine =>
      case OtherLine =>
    }
  }

  lemma {:induction false} FoldIsOrdered(lines: seq<Line>)
    ensures ToolRules.Ordered(Fold(lines).tools)
  {
    FoldIsTheHistory(lines);
    ToolRules.BookkeepingIsTheHistory(Events(lines));
  }

  lemma FoldOne(lines: seq<Line>, l: Line)
    ensures Fold(lines + [l]) == FoldLine(Fold(lines), l)
  {
    assert (lines + [l])[..|lines|] == lines;
  }

  /** After any transcript, a line opens exactly the calls it makes and closes exactly those that its
      results, its notifications, its stops or its being typed close. */
  lemma LineMovesCalls(lines: seq<Line>, l: Line, id: string, i: nat)
    ensures MovesCall(Fold(lines).tools, Fold(lines + [l]).tools, l, id, i)
  {
    FoldIsOrdered(lines);
    FoldOne(lines, l);
    LineIsAfter(Fold(lines).tools, l);
    AfterLineMoves(Fold(lines).tools, l, id, i);
  }

  // ---------------------------------------------------------------------------------------------
  // What later stops rest on.

  ghost predicate DeclaresStop(b: Block, call: string) {
    IsUse(b, call) && b.taskId != ""
  }

  ghost predicate IsLastStop(bs: seq<Block>, n: nat, call: string, i: nat)
    requires n <= |bs|
  {
    i < n && DeclaresStop(bs[i], call) && forall j :: i < j < n ==> !DeclaresStop(bs[j], call)
  }

  ghost predicate HasStop(bs: seq<Block>, n: nat, call: string)
    requires n <= |bs|
  {
    exists i :: 0 <= i < n && DeclaresStop(bs[i], call)
  }

  predicate IsBackgroundLaunch(b: Block) {
    b.ToolUse? && b.id != "" && (b.runInBackground || b.persistent)
  }

  function BackgroundLaunches(bs: seq<Block>, n: nat): set<nat>
    requires n <= |bs|
  {
    set i: nat | i < n && IsBackgroundLaunch(bs[i])
  }

  lemma StopStep(bs: seq<Block>, n: nat, call: string, i: nat)
    requires n < |bs|
    ensures IsLastStop(bs, n + 1, call, i) <==>
            if DeclaresStop(bs[n], call) then i == n else IsLastStop(bs, n, call, i)
    ensures HasStop(bs, n + 1, call) <==> DeclaresStop(bs[n], call) || HasStop(bs, n, call)
  {
  }

  lemma {:induction false} UsesDeclareStops(s: ToolRules.Tools, bs: seq<Block>, n: nat, call: string, i: nat)
    requires n <= |bs|
    ensures var s' := Used(s, bs, n);
            && (IsLastStop(bs, n, call, i) ==> call in s'.pendingStops && s'.pendingStops[call] == bs[i].taskId)
            && (!HasStop(bs, n, call) ==> (call in s'.pendingStops <==> call in s.pendingStops))
            && (!HasStop(bs, n, call) && call in s.pendingStops ==> s'.pendingStops[call] == s.pendingStops[call])
            && s'.byTask == s.byTask
  {
    if n > 0 {
      UsesDeclareStops(s, bs, n - 1, call, i);
      StopStep(bs, n - 1, call, i);
    }
  }

  lemma {:induction false} UsesCount(s: ToolRules.Tools, bs: seq<Block>, n: nat)
    requires n <= |bs|
    ensures Used(s, bs, n).launched == s.launched + |BackgroundLaunches(bs, n)|
  {
    if n > 0 {
      UsesCount(s, bs, n - 1);
      assert BackgroundLaunches(bs, n) ==
             BackgroundLaunches(bs, n - 1) + if IsBackgroundLaunch(bs[n - 1]) then {n - 1} else {};
    }
  }

  lemma {:induction false} NamesKeepStops(s: ToolRules.Tools, ns: seq<Notification>, n: nat)
    requires n <= |ns|
    ensures var s' := Noticed(s, ns, n);
            s'.pendingStops == s.pendingStops && s'.byTask == s.byTask && s'.launched == s.launched
  {
    if n > 0 {
      NamesKeepStops(s, ns, n - 1);
    }
  }

  lemma {:induction false} ResultsLaunchNothing(s: ToolRules.Tools, bs: seq<Block>, n: nat)
    requires n <= |bs|
    ensures Answered(s, bs, n).launched == s.launched
  {
    if n > 0 {
      ResultsLaunchNothing(s, bs, n - 1);
      var was, b := Answered(s, bs, n - 1), bs[n - 1];
      if IsResult(b) {
        ToolRules.AnswerOnlyCloses(was, b.toolUseId, b.launched, b.stopped, "");
      }
    }
  }

  function TaskIn(s: ToolRules.Tools, task: string): Option<string> {
    if task in s.byTask then Some(s.byTask[task]) else None
  }

  /** A stop is awaited from the call that declares it until that call is answered; a task names the last
      launch whose result gave it that id; and launches are counted as they are declared. */
  ghost predicate MovesStop(s: ToolRules.Tools, s': ToolRules.Tools, l: Line, call: string, task: string, i: nat) {
    var uses, results := UsesIn(l), ResultsIn(l);
    && (IsLastStop(uses, |uses|, call, i) ==> call in s'.pendingStops && s'.pendingStops[call] == uses[i].taskId)
    && (!HasStop(uses, |uses|, call) ==>
          && (call in s'.pendingStops <==> call in s.pendingStops && !Answers(results, |results|, call))
          && (call in s'.pendingStops ==> s'.pendingStops[call] == s.pendingStops[call]))
    && TaskIn(s', task) == TaskOf(s, results, |results|, task)
    && s'.launched == s.launched + |BackgroundLaunches(uses, |uses|)|
  }

  lemma {:induction false} NoTaskNamed(s: ToolRules.Tools, bs: seq<Block>, n: nat, task: string)
    requires n <= |bs| && forall i :: 0 <= i < n ==> !IsResult(bs[i])
    ensures TaskOf(s, bs, n, task) == TaskIn(s, task)
  {
    if n > 0 {
      NoTaskNamed(s, bs, n - 1, task);
    }
  }

  lemma AfterUserMovesStops(s: ToolRules.Tools, l: Line, call: string, task: string, i: nat)
    requires l.lineType.UserLine?
    ensures MovesStop(s, AfterUser(s, l), l, call, task, i)
  {
    var c, bs := l.message.content, ResultsIn(l);
    assert BackgroundLaunches(UsesIn(l), 0) == {};
    if !IsTyped(l) && c.Blocks? {
      PendingStopsAfter(s, bs, |bs|, call);
      TasksAfter(s, bs, |bs|, task);
      ResultsLaunchNothing(s, bs, |bs|);
    } else {
      NothingAnswered(s, bs, |bs|, call);
      NoTaskNamed(s, bs, |bs|, task);
      if !IsTyped(l) && c.Plain? {
        NamesKeepStops(s, c.notifications, |c.notifications|);
      }
    }
  }

  lemma AfterLineMovesStops(s: ToolRules.Tools, l: Line, call: string, task: string, i: nat)
    ensures MovesStop(s, AfterLine(s, l), l, call, task, i)
  {
    var uses := UsesIn(l);
    assert BackgroundLaunches(uses, 0) == {};
    match l.lineType {
      case AssistantLine =>
        UsesDeclareStops(s, uses, |uses|, call, i);
        UsesCount(s, uses, |uses|);
      case UserLine => AfterUserMovesStops(s, l, call, task, i);
      case AttachmentLine => NamesKeepStops(s, l.attachment.notifications, |l.attachment.notifications|);
      case SystemLine =>
      case OtherLine =>
    }
  }

  /** After any transcript, what a line makes of the stops awaited, of the tasks named and of the count of
      launches. */
  lemma LineMovesStops(lines: seq<Line>, l: Line, call: string, task: string, i: nat)
    ensures MovesStop(Fold(lines).tools, Fold(lines + [l]).tools, l, call, task, i)
  {
    FoldOne(lines, l);
    LineIsAfter(Fold(lines).tools, l);
    AfterLineMovesStops(Fold(lines).tools, l, call, task, i);
  }

  // ---------------------------------------------------------------------------------------------
  // A whole transcript.

  ghost predicate IsBackgroundUse(l: Line, id: string) {
    exists i: nat :: IsLastUse(UsesIn(l), |UsesIn(l)|, id, i) &&
      (UsesIn(l)[i].runInBackground || UsesIn(l)[i].persistent)
  }

  /** The line makes the call, and its last block to do so describes this tool. */
  ghost predicate Makes(l: Line, id: string, tool: ToolRules.Tool) {
    exists i: nat :: IsLastUse(UsesIn(l), |UsesIn(l)|, id, i) &&
      tool == ToolRules.Tool(UsesIn(l)[i].name, UsesIn(l)[i].runInBackground || UsesIn(l)[i].persistent)
  }

  ghost predicate Uses(l: Line, id: string) {
    IsUsed(UsesIn(l), |UsesIn(l)|, id)
  }

  /** The call was last made at line `n`, and no line since has closed it. */
  ghost predicate IsOpenSince(lines: seq<Line>, id: string, n: nat) {
    && n < |lines| && Uses(lines[n], id)
    && forall k :: n < k < |lines| ==> IsKeptBy(lines, id, n, k)
  }

  ghost predicate IsKeptBy(lines: seq<Line>, id: string, n: nat, k: nat)
    requires n < k < |lines|
  {
    !Uses(lines[k], id) && !ClosesCall(Fold(lines[..k]).tools, lines[k], id, IsBackgroundUse(lines[n], id))
  }

  lemma {:induction false} LastUseExists(bs: seq<Block>, n: nat, id: string) returns (i: nat)
    requires n <= |bs| && IsUsed(bs, n, id)
    ensures IsLastUse(bs, n, id, i)
  {
    i := n - 1;
    if !IsUse(bs[i], id) {
      i := LastUseExists(bs, n - 1, id);
    }
  }

  lemma KeptBefore(lines: seq<Line>, l: Line, id: string, n: nat, k: nat)
    requires n < k < |lines|
    ensures IsKeptBy(lines + [l], id, n, k) <==> IsKeptBy(lines, id, n, k)
  {
    assert (lines + [l])[..k] == lines[..k];
  }

  lemma KeptLast(lines: seq<Line>, l: Line, id: string, n: nat)
    requires n < |lines|
    ensures IsKeptBy(lines + [l], id, n, |lines|) <==>
            !Uses(l, id) && !ClosesCall(Fold(lines).tools, l, id, IsBackgroundUse(lines[n], id))
  {
    assert (lines + [l])[..|lines|] == lines;
  }

  lemma OpenSinceStep(lines: seq<Line>, l: Line, id: string, n: nat)
    ensures IsOpenSince(lines + [l], id, n) <==>
            if n < |lines| then IsOpenSince(lines, id, n) && IsKeptBy(lines + [l], id, n, |lines|)
            else n == |lines| && Uses(l, id)
  {
    var all := lines + [l];
    if n < |lines| {
      forall k | n < k < |lines|
        ensures IsKeptBy(all, id, n, k) <==> IsKeptBy(lines, id, n, k)
      {
        KeptBefore(lines, l, id, n, k);
      }
    }
  }

  /** Over any transcript a call is open exactly when no line has closed it since the last one that made
      it; and it is known by what that line said of it. */
  lemma {:induction false} CallsAreTold(lines: seq<Line>, id: string)
    ensures id in Fold(lines).tools.open <==> exists n: nat :: IsOpenSince(lines, id, n)
    ensures forall n: nat :: IsOpenSince(lines, id, n) && id in Fold(lines).tools.open ==>
              Makes(lines[n], id, Fold(lines).tools.open[id])
    ensures forall n: nat :: IsOpenSince(lines, id, n) && id in Fold(lines).tools.open ==>
              (Fold(lines).tools.open[id].background <==> IsBackgroundUse(lines[n], id))
  {
    if lines != [] {
      var m := |lines| - 1;
      var before, l := lines[..m], lines[m];
      assert lines == before + [l];
      CallsAreTold(before, id);
      CallStep(before, l, id);
    }
  }

  lemma CallStep(before: seq<Line>, l: Line, id: string)
    requires id in Fold(before).tools.open <==> exists n: nat :: IsOpenSince(before, id, n)
    requires forall n: nat :: IsOpenSince(before, id, n) && id in Fold(before).tools.open ==>
               Makes(before[n], id, Fold(before).tools.open[id]) &&
               (Fold(before).tools.open[id].background <==> IsBackgroundUse(before[n], id))
    ensures var lines := before + [l];
            && (id in Fold(lines).tools.open <==> exists n: nat :: IsOpenSince(lines, id, n))
            && (forall n: nat :: IsOpenSince(lines, id, n) && id in Fold(lines).tools.open ==>
                  Makes(lines[n], id, Fold(lines).tools.open[id]) &&
                  (Fold(lines).tools.open[id].background <==> IsBackgroundUse(lines[n], id)))
  {
    var lines := before + [l];
    if Uses(l, id) {
      var i := LastUseExists(UsesIn(l), |UsesIn(l)|, id);
      LineMovesCalls(before, l, id, i);
      OpenSinceStep(before, l, id, |before|);
      assert IsOpenSince(lines, id, |before|);
      forall n: nat | IsOpenSince(lines, id, n)
        ensures n == |before|
      {
        assert n < |before| ==> IsKeptBy(lines, id, n, |before|);
      }
      LastUseIsOne(UsesIn(l), |UsesIn(l)|, id, i);
    } else {
      LineMovesCalls(before, l, id, 0);
      forall n: nat
        ensures IsOpenSince(lines, id, n) <==>
                n < |before| && IsOpenSince(before, id, n) &&
                !ClosesCall(Fold(before).tools, l, id, IsBackgroundUse(before[n], id))
      {
        OpenSinceStep(before, l, id, n);
        if n < |before| {
          KeptLast(before, l, id, n);
        }
      }
      assert forall n: nat :: IsOpenSince(lines, id, n) ==> lines[n] == before[n];
    }
  }

  lemma LastUseIsOne(bs: seq<Block>, n: nat, id: string, i: nat)
    requires n <= |bs| && IsLastUse(bs, n, id, i)
    ensures forall j: nat :: IsLastUse(bs, n, id, j) ==> j == i
  {
  }

  // ---------------------------------------------------------------------------------------------
  // Subagents.

  ghost predicate IsLaunch(b: Block, id: string) {
    IsUse(b, id) && (b.name == "Task" || b.name == "Agent")
  }

  ghost predicate IsLastLaunch(bs: seq<Block>, n: nat, id: string, i: nat)
    requires n <= |bs|
  {
    i < n && IsLaunch(bs[i], id) && forall j :: i < j < n ==> !IsLaunch(bs[j], id)
  }

  ghost predicate IsLaunched(bs: seq<Block>, n: nat, id: string)
    requires n <= |bs|
  {
    exists i :: 0 <= i < n && IsLaunch(bs[i], id)
  }

  lemma LaunchStep(bs: seq<Block>, n: nat, id: string, i: nat)
    requires n < |bs|
    ensures IsLastLaunch(bs, n + 1, id, i) <==> if IsLaunch(bs[n], id) then i == n else IsLastLaunch(bs, n, id, i)
    ensures IsLaunched(bs, n + 1, id) <==> IsLaunch(bs[n], id) || IsLaunched(bs, n, id)
  {
  }

  /** The first `n` blocks of a reply, taken one by one. */
  function Launched(s: AgentRules.Agents, bs: seq<Block>, n: nat): AgentRules.Agents
    requires n <= |bs|
  {
    if n == 0 then s
    else
      var ds := BlockDeclarations(bs[n - 1]);
      if ds == [] then Launched(s, bs, n - 1) else AgentRules.Step(Launched(s, bs, n - 1), ds[0])
  }

  lemma LaunchedStep(s: AgentRules.Agents, bs: seq<Block>, n: nat)
    requires n < |bs| && AgentRules.StepAll(s, Declarations(bs[..n])) == Launched(s, bs, n)
    ensures AgentRules.StepAll(s, Declarations(bs[..n + 1])) == Launched(s, bs, n + 1)
  {
    AgentRules.StepAllBlocks(s, bs, n);
  }

  lemma {:induction false} LaunchedIsDeclared(s: AgentRules.Agents, bs: seq<Block>, n: nat)
    requires n <= |bs|
    ensures AgentRules.StepAll(s, Declarations(bs[..n])) == Launched(s, bs, n)
  {
    if n > 0 {
      LaunchedIsDeclared(s, bs, n - 1);
      LaunchedStep(s, bs, n - 1);
    }
  }

  lemma LaunchOpens(was: AgentRules.Agents, b: Block, id: string)
    ensures var ds := BlockDeclarations(b);
            && (ds == [] ==> !IsLaunch(b, id))
            && (ds != [] ==>
                  var now := AgentRules.Step(was, ds[0]);
                  && (id in now.desc <==> id in was.desc || IsLaunch(b, id))
                  && (IsLaunch(b, id) ==> now.desc[id] == b.description)
                  && (!IsLaunch(b, id) && id in was.desc ==> now.desc[id] == was.desc[id]))
  {
  }

  lemma {:induction false} LaunchesOpen(s: AgentRules.Agents, bs: seq<Block>, n: nat, id: string, i: nat)
    requires n <= |bs|
    ensures var s' := Launched(s, bs, n);
            && (IsLastLaunch(bs, n, id, i) ==> id in s'.desc && s'.desc[id] == bs[i].description)
            && (!IsLaunched(bs, n, id) ==> (id in s'.desc <==> id in s.desc))
            && (!IsLaunched(bs, n, id) && id in s.desc ==> s'.desc[id] == s.desc[id])
  {
    if n > 0 {
      LaunchesOpen(s, bs, n - 1, id, i);
      LaunchStep(bs, n - 1, id, i);
      LaunchOpens(Launched(s, bs, n - 1), bs[n - 1], id);
    }
  }

  lemma {:induction false} NamesRetire(s: AgentRules.Agents, ns: seq<Notification>, n: nat, id: string)
    requires n <= |ns|
    ensures var s' := AgentRules.StepAll(s, Closings(ns[..n]));
            && (id in s'.desc <==> id in s.desc && !Names(ns, n, id))
            && (id in s'.desc ==> s'.desc[id] == s.desc[id])
  {
    if n > 0 {
      NamesRetire(s, ns, n - 1, id);
      NameStep(ns, n - 1, id);
      AgentRules.StepAllClosings(s, ns, n - 1);
    }
  }

  /** The subagents a line leaves in flight: those it launches, each by its last block, and those that were
      in flight and that it neither notifies nor, being typed, leaves behind. */
  ghost predicate MovesAgent(s: AgentRules.Agents, s': AgentRules.Agents, l: Line, id: string, i: nat) {
    var uses := UsesIn(l);
    && (IsLastLaunch(uses, |uses|, id, i) ==> id in s'.desc && s'.desc[id] == uses[i].description)
    && (!IsLaunched(uses, |uses|, id) ==>
          && (id in s'.desc <==> id in s.desc && !Notifies(l, id) && !IsTyped(l))
          && (id in s'.desc ==> s'.desc[id] == s.desc[id]))
  }

  lemma UserLineRetires(s: AgentRules.Agents, l: Line, id: string)
    requires l.lineType.UserLine?
    ensures var s' := AgentRules.StepAll(s, LineEvents(l));
            && (id in s'.desc <==> id in s.desc && !Notifies(l, id) && !IsTyped(l))
            && (id in s'.desc ==> s'.desc[id] == s.desc[id])
  {
    var c := l.message.content;
    if IsTyped(l) {
      TypedEvents(l);
      AgentPrompt(s);
    } else {
      TypedIsPrompt(l);
      if c.Blocks? {
        AgentRules.AnswersAreIgnored(s, c.blocks);
        assert LineEvents(l) == History.Answers(c.blocks);
      } else if c.Plain? {
        NamesRetire(s, c.notifications, |c.notifications|, id);
        assert c.notifications[..|c.notifications|] == c.notifications && LineEvents(l) == Closings(c.notifications);
      } else {
        assert LineEvents(l) == [];
      }
    }
  }

  lemma AgentPrompt(s: AgentRules.Agents)
    ensures AgentRules.StepAll(s, [Prompted]).desc == map[]
  {
    var nothing: seq<Event> := [];
    assert AgentRules.StepAll(s, nothing) == s && nothing + [Prompted] == [Prompted];
    AgentRules.StepAllOne(s, nothing, Prompted);
    if |s.desc| == 0 {
      assert s.desc == map[];
    }
  }

  lemma ReplyLaunches(s: AgentRules.Agents, l: Line, id: string, i: nat)
    requires l.lineType.AssistantLine?
    ensures MovesAgent(s, AgentRules.StepAll(s, LineEvents(l)), l, id, i)
  {
    var uses := UsesIn(l);
    LaunchesOpen(s, uses, |uses|, id, i);
    LaunchedIsDeclared(s, uses, |uses|);
    assert uses[..|uses|] == uses && LineEvents(l) == Declarations(uses);
  }

  lemma AttachmentRetires(s: AgentRules.Agents, l: Line, id: string, i: nat)
    requires l.lineType.AttachmentLine?
    ensures MovesAgent(s, AgentRules.StepAll(s, LineEvents(l)), l, id, i)
  {
    var ns := l.attachment.notifications;
    NamesRetire(s, ns, |ns|, id);
    assert ns[..|ns|] == ns;
  }

  /** After any transcript, a line launches exactly the subagents it calls and retires exactly those its
      notifications name, or all of them when the operator typed it. */
  lemma LineMovesAgents(lines: seq<Line>, l: Line, id: string, i: nat)
    ensures MovesAgent(Fold(lines).agents, Fold(lines + [l]).agents, l, id, i)
  {
    var s := Fold(lines).agents;
    FoldOne(lines, l);
    if l.lineType.AssistantLine? {
      ReplyLaunches(s, l, id, i);
    } else if l.lineType.AttachmentLine? {
      AttachmentRetires(s, l, id, i);
    } else if l.lineType.UserLine? {
      UserLineRetires(s, l, id);
    } else {
      assert LineEvents(l) == [];
    }
  }

  ghost predicate Launches(l: Line, id: string) {
    IsLaunched(UsesIn(l), |UsesIn(l)|, id)
  }

  /** The subagent was last launched at line `n`, and no notification has named it since, nor has the
      operator typed. */
  ghost predicate IsInFlightSince(lines: seq<Line>, id: string, n: nat) {
    && n < |lines| && Launches(lines[n], id)
    && forall k :: n < k < |lines| ==> !Launches(lines[k], id) && !Notifies(lines[k], id) && !IsTyped(lines[k])
  }

  lemma InFlightStep(lines: seq<Line>, l: Line, id: string, n: nat)
    ensures IsInFlightSince(lines + [l], id, n) <==>
            if Launches(l, id) then n == |lines|
            else IsInFlightSince(lines, id, n) && !Notifies(l, id) && !IsTyped(l)
  {
    var all := lines + [l];
    assert forall k :: 0 <= k < |lines| ==> all[k] == lines[k];
    if n < |lines| && IsInFlightSince(all, id, n) {
      assert all[|lines|] == l;
    }
  }

  lemma {:induction false} LastLaunchExists(bs: seq<Block>, n: nat, id: string) returns (i: nat)
    requires n <= |bs| && IsLaunched(bs, n, id)
    ensures IsLastLaunch(bs, n, id, i)
  {
    i := n - 1;
    if !IsLaunch(bs[i], id) {
      i := LastLaunchExists(bs, n - 1, id);
    }
  }

  /** Over any transcript a subagent is in flight exactly when neither a notification that names it nor a
      typed line has come since the last line that launched it. */
  lemma {:induction false} AgentsAreTold(lines: seq<Line>, id: string)
    ensures id in Fold(lines).agents.desc <==> exists n: nat :: IsInFlightSince(lines, id, n)
  {
    if lines != [] {
      var m := |lines| - 1;
      var before, l := lines[..m], lines[m];
      assert lines == before + [l];
      AgentsAreTold(before, id);
      if Launches(l, id) {
        var i := LastLaunchExists(UsesIn(l), |UsesIn(l)|, id);
        LineMovesAgents(before, l, id, i);
        InFlightStep(before, l, id, m);
      } else {
        LineMovesAgents(before, l, id, 0);
        if n: nat :| IsInFlightSince(before, id, n) {
          InFlightStep(before, l, id, n);
        }
        if n: nat :| IsInFlightSince(lines, id, n) {
          InFlightStep(before, l, id, n);
        }
      }
    }
  }
}
