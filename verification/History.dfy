/** Decoded transcript lines, and the history of bookkeeping events they carry.

    A transcript line reaches this model already decoded from JSON: content blocks are typed,
    a notification text is already split into its blocks, and the sentences a tool result may
    hold ("Command running in background with ID: ...", "Successfully stopped task: ...") are
    already read into `launched` and `stopped`. */
module History {
  import opened Basics

  /** One `<task-notification>` block: whether its status is terminal, and the tool use it names. */
  datatype Notification = Notification(terminal: bool, toolUseId: Option<string>)

  datatype Block =
    | ToolUse(id: string, name: string, runInBackground: bool, persistent: bool,
              taskId: string, description: string, activity: string)
    | ToolResult(toolUseId: string, launched: Option<string>, stopped: Option<string>)
    | TextBlock(text: string)
    | ThinkingBlock
    | OtherBlock

  /** A message's `content`: absent, a plain string (with its notifications), an array of blocks,
      or something that decodes as neither. */
  datatype Content =
    | Missing
    | Plain(notifications: seq<Notification>)
    | Blocks(blocks: seq<Block>)
    | Opaque

  datatype Usage = Usage(input: int, output: int, cacheCreation: int, cacheRead: int)

  datatype Message = Message(id: string, model: string, stopReason: string, usage: Usage, content: Content)

  datatype Attachment = Attachment(commandMode: string, notifications: seq<Notification>)

  datatype LineType = AssistantLine | UserLine | AttachmentLine | SystemLine | OtherLine

  datatype Line = Line(
    lineType: LineType, subtype: string, sessionId: string, cwd: string, gitBranch: string,
    customTitle: string, aiTitle: string, timestamp: string, effort: string, permissionMode: string,
    isApiError: bool, isSidechain: bool, isMeta: bool, apiErrorStatus: int,
    message: Message, attachment: Attachment)

  /** What one line means for the pending-work bookkeeping, one event per block. */
  datatype Event =
    | Declared(id: string, name: string, background: bool, stops: Option<string>, description: string)
    | Answered(id: string, launched: Option<string>, stopped: Option<string>)
    | Notified(id: string)
    | Prompted

  const TASK_NOTIFICATION := "task-notification"

  /** Work that outlives its call is recognised by what the input declares, never by the tool's name. */
  predicate IsBackgroundWork(b: Block)
    requires b.ToolUse?
  {
    b.runInBackground || b.persistent
  }

  /** The task a call declares it will stop, if any. */
  function StopsTask(b: Block): Option<string>
    requires b.ToolUse?
  {
    if b.taskId == "" then None else Some(b.taskId)
  }

  predicate IsAgentCall(name: string) {
    name == "Task" || name == "Agent"
  }

  function BlockDeclarations(b: Block): seq<Event> {
    if b.ToolUse? && b.id != "" then
      [Declared(b.id, b.name, IsBackgroundWork(b), StopsTask(b), b.description)]
    else []
  }

  function BlockAnswers(b: Block): seq<Event> {
    if b.ToolResult? && b.toolUseId != "" then [Answered(b.toolUseId, b.launched, b.stopped)] else []
  }

  function Declarations(bs: seq<Block>): seq<Event> {
    if bs == [] then [] else Declarations(bs[..|bs| - 1]) + BlockDeclarations(bs[|bs| - 1])
  }

  function Answers(bs: seq<Block>): seq<Event> {
    if bs == [] then [] else Answers(bs[..|bs| - 1]) + BlockAnswers(bs[|bs| - 1])
  }

  /** The terminal notifications that name a tool use; the others close nothing. */
  function Closings(ns: seq<Notification>): seq<Event> {
    if ns == [] then []
    else
      var n := ns[|ns| - 1];
      Closings(ns[..|ns| - 1]) + if n.terminal && n.toolUseId.Some? then [Notified(n.toolUseId.value)] else []
  }

  function ContentDeclarations(c: Content): seq<Event> {
    if c.Blocks? then Declarations(c.blocks) else []
  }

  function ContentAnswers(c: Content): seq<Event> {
    if c.Blocks? then Answers(c.blocks) else []
  }

  function ContentClosings(c: Content): seq<Event> {
    if c.Plain? then Closings(c.notifications) else []
  }

  predicate CarriesNotification(c: Content) {
    c.Plain? && c.notifications != []
  }

  /** A prompt the operator typed: a user line that answers no tool, carries no notification and
      was not written by Claude Code itself. */
  predicate IsPrompt(l: Line) {
    && l.lineType.UserLine?
    && ContentAnswers(l.message.content) == []
    && !CarriesNotification(l.message.content)
    && !l.isMeta
  }

  function LineEvents(l: Line): seq<Event> {
    match l.lineType
    case AssistantLine => ContentDeclarations(l.message.content)
    case UserLine =>
      ContentAnswers(l.message.content) + ContentClosings(l.message.content) +
      if IsPrompt(l) then [Prompted] else []
    case AttachmentLine =>
      if l.attachment.commandMode == TASK_NOTIFICATION then Closings(l.attachment.notifications) else []
    case _ => []
  }

  /** The event history of a whole transcript. */
  function Events(lines: seq<Line>): seq<Event> {
    if lines == [] then [] else Events(lines[..|lines| - 1]) + LineEvents(lines[|lines| - 1])
  }
}
