/** What the watcher takes a session's status to be, from the session record, the process table, a
    compaction marker and the folded transcript. */
module StatusRules {
  import opened Basics
  import opened History
  import opened ParserRules
  import ToolRules
  import LineHistory

  /** `NoStatus` is a session row's status before any report carried one. */
  datatype Status = NoStatus | Working | Thinking | Compacting | Waiting | Idle | Error | Stale | Ended

  datatype Liveness = Live | Gone | Unknown

  datatype Process = Process(pid: int, start: nat)

  /** An entry of Claude Code's session registry. */
  datatype Record = Record(word: string, waitingFor: string, process: Process)

  /** Everything read around a transcript. `liveness` is what the process table says of a process;
      `marker` is the compaction marker, with the instant it names if it names one. */
  datatype Around = Around(
    record: Option<Record>, mapping: Option<Process>, liveness: Process -> Liveness,
    current: map<Process, string>, marker: Option<Option<Instant>>, parseTime: string -> Option<Instant>)

  const ACTIVE_WINDOW: int := 10 * SECOND
  const TOOL_WINDOW: int := 300 * SECOND
  const AGENT_WINDOW: int := 1800 * SECOND
  const COMPACT_WINDOW: int := 300 * SECOND

  predicate IsNamed(p: Process) {
    p.pid > 0 && p.start != 0
  }

  /** Confidently gone: an unreadable process table, or a record that names no process, says nothing. */
  predicate RecordDead(r: Record, a: Around) {
    IsNamed(r.process) && a.liveness(r.process).Gone?
  }

  function MapWord(word: string): Status {
    if word == "waiting" then Waiting
    else if word == "busy" || word == "shell" then Working
    else Idle
  }

  /** The session's process now runs another session. */
  predicate Superseded(id: string, a: Around) {
    && a.mapping.Some? && IsNamed(a.mapping.value)
    && a.mapping.value in a.current && a.current[a.mapping.value] != id
  }

  predicate ActivelyWorking(stopReason: string, age: int) {
    age < ACTIVE_WINDOW || (stopReason == "tool_use" && age < TOOL_WINDOW)
  }

  function StatusFor(stopReason: string, age: int, a: Around): Status {
    if a.mapping.Some? && a.liveness(a.mapping.value).Gone? then Ended
    else if ActivelyWorking(stopReason, age) then Working
    else if a.mapping.Some? then Idle
    else Ended
  }

  function WithError(base: Status, apiError: int): Status {
    if apiError != 0 && (base.Working? || base.Idle?) then Error else base
  }

  function WithThinking(base: Status, thinking: bool): Status {
    if thinking && (base.Working? || base.Idle?) then Thinking else base
  }

  function WithCompacting(base: Status, compacting: bool): Status {
    if compacting && (base.Working? || base.Thinking?) then Compacting else base
  }

  function RefineWithTools(base: Status, info: Info, age: int): Status {
    if !base.Idle? then base
    else if info.backgroundActive then Working
    else if info.agentsActive > 0 && age < AGENT_WINDOW then Working
    else if info.pendingTool != "" then Working
    else base
  }

  predicate BoundaryCloses(boundary: Option<Instant>, started: Instant) {
    boundary.Some? && boundary.value >= started
  }

  /** Whether the session is summarizing its context. Otherwise a marker, if any, is swept away. */
  predicate CompactingNow(info: Info, now: Instant, a: Around) {
    && a.marker.Some? && a.marker.value.Some?
    && !BoundaryCloses(a.parseTime(info.lastCompactBoundary), a.marker.value.value)
    && now - a.marker.value.value < COMPACT_WINDOW
  }

  /** The refinements never overrule a question, an error or an end; what they make of a working or
      resting session is a live status, at rest only if it was. */
  function RefinedStatus(base: Status, info: Info, age: int, now: Instant, a: Around): (status: Status)
    ensures base.Waiting? || base.Error? || base.Ended? ==> status == base
    ensures base.Working? ==> status.Working? || status.Thinking? || status.Compacting?
    ensures base.Idle? ==> status.Idle? || status.Working? || status.Thinking? || status.Compacting?
  {
    var thought := WithThinking(base, info.thinking && !info.interrupted);
    RefineWithTools(WithCompacting(thought, CompactingNow(info, now, a)), info, age)
  }

  function RefinedActivity(status: Status, activity: string, info: Info, age: int): string {
    if status.Compacting? then "compacting context"
    else if status.Idle? && info.interrupted then "interrupted"
    else if !status.Working? || activity != "" then activity
    else if info.pendingTool != "" then "running " + info.pendingTool
    else if info.agentsActive > 0 && age < AGENT_WINDOW then info.agentActivity
    else if info.backgroundActive then "background command"
    else activity
  }

  /** What a report says. `declared`: the status rests on something stated, not on a quiet transcript. */
  datatype Verdict = Verdict(status: Status, activity: string, declared: bool)

  function CapText(s: string, n: nat): string
    requires n > 0
  {
    if |s| > n then s[..n - 1] + "…" else s
  }

  /** The status before the refinements of a session that is not known to be over. */
  function BaseStatus(info: Info, age: int, a: Around): Status {
    if a.record.Some? then WithError(MapWord(a.record.value.word), info.lastApiError)
    else WithError(StatusFor(info.lastStopReason, age, a), info.lastApiError)
  }

  function BaseActivity(info: Info, base: Status, a: Around): string {
    if a.record.None? then info.activity
    else
      var r := a.record.value;
      if r.word == "shell" then
        if info.activity == "" && info.pendingTool == "" && !info.backgroundActive && info.agentsActive == 0
        then "shell"
        else info.activity
      else if base.Waiting? && info.activity == "" && r.waitingFor != "" then CapText(r.waitingFor, 80)
      else info.activity
  }

  predicate IsOver(id: string, a: Around) {
    if a.record.Some? then RecordDead(a.record.value, a) else Superseded(id, a)
  }

  function Resolve(id: string, info: Info, age: int, now: Instant, a: Around): Verdict {
    if IsOver(id, a) then Verdict(Ended, info.activity, true)
    else
      var base := BaseStatus(info, age, a);
      var status := RefinedStatus(base, info, age, now, a);
      Verdict(status, RefinedActivity(status, BaseActivity(info, base, a), info, age), a.record.Some?)
  }

  // ---------------------------------------------------------------------------------------------
  // What the transcript's history decides.

  /** Some line launched background work, and none since has closed it. */
  ghost predicate BackgroundOpen(lines: seq<Line>) {
    exists id, n: nat :: LineHistory.IsOpenSince(lines, id, n) && LineHistory.IsBackgroundUse(lines[n], id)
  }

  /** Some line launched a subagent, and none since has retired it. */
  ghost predicate AgentRunning(lines: seq<Line>) {
    exists id, n: nat :: LineHistory.IsInFlightSince(lines, id, n)
  }

  lemma BackgroundIsTold(lines: seq<Line>)
    ensures BackgroundOpen(lines) <==> ToolRules.BackgroundIds(Fold(lines).tools) != {}
  {
    var tools := Fold(lines).tools;
    if id, n: nat :| LineHistory.IsOpenSince(lines, id, n) && LineHistory.IsBackgroundUse(lines[n], id) {
      LineHistory.CallsAreTold(lines, id);
      assert id in ToolRules.BackgroundIds(tools);
    }
    if id :| id in ToolRules.BackgroundIds(tools) {
      LineHistory.CallsAreTold(lines, id);
      var n: nat :| LineHistory.IsOpenSince(lines, id, n);
    }
  }

  lemma AgentsAreTold(lines: seq<Line>)
    ensures AgentRunning(lines) <==> Fold(lines).agents.desc != map[]
  {
    var desc := Fold(lines).agents.desc;
    if id, n: nat :| LineHistory.IsInFlightSince(lines, id, n) {
      LineHistory.AgentsAreTold(lines, id);
    }
    if id :| id in desc.Keys {
      LineHistory.AgentsAreTold(lines, id);
    }
  }

  /** What a transcript's snapshot says of pending work is what its lines leave open. */
  lemma SnapshotIsTheHistory(lines: seq<Line>)
    ensures var info := Snapshot(Fold(lines));
            && (info.backgroundActive <==> BackgroundOpen(lines))
            && (info.agentsActive > 0 <==> AgentRunning(lines))
            && info.backgroundOpen <= info.backgroundLaunches
            && (info.backgroundActive <==> info.backgroundOpen > 0)
  {
    LineHistory.FoldIsOrdered(lines);
    BackgroundIsTold(lines);
    AgentsAreTold(lines);
  }

  /** While the history leaves a background launch open, no session record, process table or compaction
      marker makes the session read idle. */
  lemma OpenWorkNeverReadsIdle(lines: seq<Line>, id: string, age: int, now: Instant, a: Around)
    requires BackgroundOpen(lines)
    ensures !Resolve(id, Snapshot(Fold(lines)), age, now, a).status.Idle?
  {
    SnapshotIsTheHistory(lines);
  }

  /** Exactly when a session reads idle: it is not over, everything around it says it rests, and its
      transcript leaves nothing going. */
  lemma ReadsIdle(lines: seq<Line>, id: string, age: int, now: Instant, a: Around)
    ensures var info := Snapshot(Fold(lines));
            Resolve(id, info, age, now, a).status.Idle? <==>
            && !IsOver(id, a)
            && (if a.record.Some? then a.record.value.word !in {"waiting", "busy", "shell"}
                else a.mapping.Some? && !a.liveness(a.mapping.value).Gone? &&
                     !ActivelyWorking(info.lastStopReason, age))
            && info.lastApiError == 0
            && (info.thinking ==> info.interrupted)
            && !BackgroundOpen(lines)
            && (AgentRunning(lines) ==> age >= AGENT_WINDOW)
            && info.pendingTool == ""
  {
    SnapshotIsTheHistory(lines);
  }
}
