/** What a session's status and its figures of pending work mean, in terms of the record, the process, the
    clock and the lines of the transcript. */
module StatusHistory {
  import opened Basics
  import opened History
  import opened ParserRules
  import opened StatusRules
  import ToolRules
  import AgentRules
  import LineHistory

  // ---------------------------------------------------------------------------------------------
  // The status.

  /** The process that Claude Code's record names is gone or, without a record, runs another session. */
  predicate IsFinished(id: string, a: Around) {
    if a.record.Some? then
      var p := a.record.value.process;
      p.pid > 0 && p.start != 0 && a.liveness(p).Gone?
    else
      && a.mapping.Some? && a.mapping.value.pid > 0 && a.mapping.value.start != 0
      && a.mapping.value in a.current && a.current[a.mapping.value] != id
  }

  predicate Asks(a: Around) {
    a.record.Some? && a.record.value.word == "waiting"
  }

  /** The transcript moved in the last 10 seconds or, stopped on a tool, in the last 300. */
  predicate MovedLately(info: Info, age: int) {
    age < 10 * SECOND || (info.lastStopReason == "tool_use" && age < 300 * SECOND)
  }

  /** The record says so or, without one, the transcript moved lately and its process is not gone. */
  predicate IsBusy(info: Info, age: int, a: Around) {
    if a.record.Some? then a.record.value.word in {"busy", "shell"}
    else !(a.mapping.Some? && a.liveness(a.mapping.value).Gone?) && MovedLately(info, age)
  }

  /** Without a record: the process is gone, or the transcript is quiet and has none. */
  predicate IsGone(info: Info, age: int, a: Around) {
    a.record.None? &&
    if a.mapping.Some? then a.liveness(a.mapping.value).Gone? else !MovedLately(info, age)
  }

  predicate Thinks(info: Info) {
    info.thinking && !info.interrupted
  }

  /** A compaction was marked less than 300 seconds ago, and no boundary in the transcript has ended it. */
  predicate Compacts(info: Info, now: Instant, a: Around) {
    && a.marker.Some? && a.marker.value.Some?
    && now - a.marker.value.value < 300 * SECOND
    && var boundary := a.parseTime(info.lastCompactBoundary);
       boundary.None? || boundary.value < a.marker.value.value
  }

  /** Something the session started is still going: background work, a call, or a subagent, if the
      transcript moved in the last 30 minutes. */
  predicate HasWork(info: Info, age: int) {
    info.backgroundActive || info.pendingTool != "" || (info.agentsActive > 0 && age < 1800 * SECOND)
  }

  /** Exactly when a session reads each status it can read. An end goes before all else, then a question,
      then an error; a live session compacts before it thinks and thinks before it works. */
  lemma StatusIsTold(id: string, info: Info, age: int, now: Instant, a: Around)
    ensures var v := Resolve(id, info, age, now, a);
            var over, error := IsFinished(id, a) || (!Asks(a) && IsGone(info, age, a)), info.lastApiError != 0;
            var live := !over && !Asks(a) && !error;
            var busy := IsBusy(info, age, a);
            var compacts := Compacts(info, now, a) && (busy || Thinks(info));
            && (v.status.Ended? <==> over)
            && (v.status.Waiting? <==> !over && Asks(a))
            && (v.status.Error? <==> !over && !Asks(a) && error)
            && (v.status.Compacting? <==> live && compacts)
            && (v.status.Thinking? <==> live && !compacts && Thinks(info))
            && (v.status.Working? <==> live && !compacts && !Thinks(info) && (busy || HasWork(info, age)))
            && (v.status.Idle? <==> live && !compacts && !Thinks(info) && !busy && !HasWork(info, age))
            && (v.declared <==> IsFinished(id, a) || a.record.Some?)
  {
  }

  /** What is shown beside the status: the compaction, the interruption, what Claude last said it was doing;
      and of a working session that said nothing, what keeps it at work. */
  lemma ActivityIsTold(id: string, info: Info, age: int, now: Instant, a: Around)
    requires !IsFinished(id, a)
    ensures var v := Resolve(id, info, age, now, a);
            var agents := info.agentsActive > 0 && age < 1800 * SECOND;
            && (v.status.Compacting? ==> v.activity == "compacting context")
            && (v.status.Idle? && info.interrupted ==> v.activity == "interrupted")
            && (info.activity != "" && !v.status.Compacting? && !(v.status.Idle? && info.interrupted) ==>
                  v.activity == info.activity)
            && (v.status.Working? && info.activity == "" && info.pendingTool != "" ==>
                  v.activity == "running " + info.pendingTool)
            && (v.status.Working? && info.activity == "" && info.pendingTool == "" && agents ==>
                  v.activity == info.agentActivity)
            && (v.status.Working? && info.activity == "" && info.pendingTool == "" && !agents ==>
                  (info.backgroundActive ==> v.activity == "background command"))
            && (v.status.Waiting? && info.activity == "" ==>
                  var question := a.record.value.waitingFor;
                  v.activity == if |question| <= 80 then question else question[..79] + "…")
            && (a.record.Some? && a.record.value.word == "shell" && !v.status.Compacting? && info.activity == "" &&
                info.pendingTool == "" && info.agentsActive == 0 ==>
                  (!info.backgroundActive ==> v.activity == "shell"))
  {
  }

  // ---------------------------------------------------------------------------------------------
  // The figures.

  ghost predicate IsBackgroundOpen(lines: seq<Line>, id: string) {
    exists n: nat :: LineHistory.IsOpenSince(lines, id, n) && LineHistory.IsBackgroundUse(lines[n], id)
  }

  ghost predicate IsInFlight(lines: seq<Line>, id: string) {
    exists n: nat :: LineHistory.IsInFlightSince(lines, id, n)
  }

  /** The figures count exactly the background launches that are open and the subagents in flight. */
  lemma FiguresAreTold(lines: seq<Line>, open: set<string>, agents: set<string>)
    requires forall id :: id in open <==> IsBackgroundOpen(lines, id)
    requires forall id :: id in agents <==> IsInFlight(lines, id)
    ensures Snapshot(Fold(lines)).backgroundOpen == |open|
    ensures Snapshot(Fold(lines)).agentsActive == |agents|
  {
    var p := Fold(lines);
    forall id
      ensures id in open <==> id in ToolRules.BackgroundIds(p.tools)
      ensures id in agents <==> id in p.agents.desc.Keys
    {
      LineHistory.CallsAreTold(lines, id);
      LineHistory.AgentsAreTold(lines, id);
    }
    assert open == ToolRules.BackgroundIds(p.tools) && agents == p.agents.desc.Keys;
  }

  /** The pending tool is the name of the foreground call opened last, the agent shown is described as the
      last launch of the one started last; without one, each is empty. */
  lemma ShownIsTold(lines: seq<Line>)
    ensures var h, info := Events(lines), Snapshot(Fold(lines));
            && (if exists id :: ToolRules.OpenForegroundAt(h, |h|, id) then
                  exists id, i: nat ::
                    && ToolRules.OpenForegroundAt(h, |h|, id) && ToolRules.LastDeclared(h, |h|, id, i)
                    && info.pendingTool == h[i].name && IsOpenedLast(h, id)
                else info.pendingTool == "")
            && (if exists id :: AgentRules.Running(h, |h|, id) then
                  exists id, i: nat ::
                    && AgentRules.RunningAt(h, |h|, id, i)
                    && info.agentActivity == h[i].description && IsStartedLast(h, id)
                else info.agentActivity == "")
  {
    var h, p := Events(lines), Fold(lines);
    FoldIsTheHistory(lines);
    ToolRules.BookkeepingIsTheHistory(h);
    ToolRules.PendingToolIsTheLastOpened(h);
    AgentRules.AgentsInFlight(h);
    AgentRules.AgentShownIsTheLastStarted(h);
    var tool := ToolRules.LatestForeground(p.tools, p.tools.order);
    var agent := AgentRules.Latest(p.agents, p.agents.order);
    if tool.Some? {
      var i := ToolRules.OpenHasDeclaration(p.tools, h, |h|, tool.value);
      assert IsOpenedLast(h, tool.value);
    }
    if agent.Some? {
      var i: nat :| AgentRules.RunningAt(h, |h|, agent.value, i);
      assert IsStartedLast(h, agent.value);
    }
  }

  ghost predicate IsOpenedLast(h: seq<Event>, id: string) {
    forall other, i: nat, j: nat ::
      && ToolRules.OpenForegroundAt(h, |h|, other)
      && ToolRules.OpenedAt(h, |h|, other, i)
      && ToolRules.OpenedAt(h, |h|, id, j)
      ==> i <= j
  }

  ghost predicate IsStartedLast(h: seq<Event>, id: string) {
    forall other, i: nat, j: nat ::
      AgentRules.StartedAt(h, |h|, other, i) && AgentRules.StartedAt(h, |h|, id, j) ==> i <= j
  }
}
