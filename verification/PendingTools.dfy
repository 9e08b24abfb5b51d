/** The in-place bookkeeping of pending tool calls. Each method is tied to the rules of `ToolRules`
    by what it does to `State()`. */
module PendingTools {
  import opened Basics
  import opened History
  import opened ToolRules

  class PendingTools {
    var meta: map<string, Tool>
    var order: seq<string>
    var bgLaunched: nat
    var byTask: map<string, string>
    var pendingStops: map<string, string>

    constructor ()
      ensures State() == NO_TOOLS
    {
      meta, order, bgLaunched, byTask, pendingStops := map[], [], 0, map[], map[];
    }

    ghost function State(): Tools
      reads this
    {
      Tools(meta, order, bgLaunched, byTask, pendingStops)
    }

    /** Records one tool_use block: the body of the loop below. */
    method AddToolUse(b: Block)
      requires b.ToolUse? && b.id != ""
      modifies this
      ensures State() == Declare(old(State()), BlockDeclarations(b)[0])
    {
      if b.id !in meta {
        order := order + [b.id];
      }
      var stops := StopsTask(b);
      if stops.Some? {
        pendingStops := pendingStops[b.id := stops.value];
      }
      var background := IsBackgroundWork(b);
      if background {
        bgLaunched := bgLaunched + 1;
      }
      meta := meta[b.id := Tool(b.name, background)];
    }

    /** Opens every call the reply makes. */
    method AddToolUses(content: Content)
      modifies this
      ensures State() == StepAll(old(State()), ContentDeclarations(content))
    {
      if !content.Blocks? {
        return;
      }
      var blocks := content.blocks;
      for i := 0 to |blocks|
        invariant State() == StepAll(old(State()), Declarations(blocks[..i]))
      {
        var b := blocks[i];
        StepAllBlocks(old(State()), blocks, i);
        if !b.ToolUse? || b.id == "" {
          continue;
        }
        AddToolUse(b);
      }
      assert blocks[..|blocks|] == blocks;
    }

    /** Remembers by which task id a stop will name an open background launch. */
    method NoteLaunchId(toolUseId: string, launched: Option<string>)
      modifies this`byTask
      ensures State() == NoteLaunch(old(State()), toolUseId, launched)
    {
      if toolUseId !in meta || !meta[toolUseId].background {
        return;
      }
      if launched.Some? {
        byTask := byTask[launched.value := toolUseId];
      }
    }

    /** Closes the launch that a successful stop names. */
    method CloseStoppedLaunch(call: string, stopped: Option<string>)
      modifies this`pendingStops, this`meta
      ensures State() == CloseStopped(old(State()), call, stopped)
    {
      if call !in pendingStops {
        return;
      }
      var declared := pendingStops[call];
      pendingStops := pendingStops - {call};
      if stopped.None? || stopped.value != declared {
        return;
      }
      if declared in byTask {
        meta := meta - {byTask[declared]};
      }
    }

    /** Drops the calls answered by a tool_result, background launches excepted, and reports
        whether the message answered any. */
    method ClearToolResults(content: Content) returns (answered: bool)
      modifies this
      ensures State() == StepAll(old(State()), ContentAnswers(content))
      ensures answered <==> ContentAnswers(content) != []
    {
      answered := false;
      if !content.Blocks? {
        return;
      }
      var blocks := content.blocks;
      for i := 0 to |blocks|
        invariant State() == StepAll(old(State()), Answers(blocks[..i]))
        invariant answered <==> Answers(blocks[..i]) != []
      {
        var b := blocks[i];
        StepAllBlocks(old(State()), blocks, i);
        if !b.ToolResult? || b.toolUseId == "" {
          continue;
        }
        answered := true;
        ghost var before := State();
        NoteLaunchId(b.toolUseId, b.launched);
        CloseStoppedLaunch(b.toolUseId, b.stopped);
        if !(b.toolUseId in meta && meta[b.toolUseId].background) {
          meta := meta - {b.toolUseId};
        }
        assert State() == Answer(before, b.toolUseId, b.launched, b.stopped);
      }
      assert blocks[..|blocks|] == blocks;
    }

    /** Closes the background launches named by the terminal notifications of a text. */
    method ClearBackgroundNotificationsIn(notifications: seq<Notification>)
      modifies this`meta
      ensures State() == StepAll(old(State()), Closings(notifications))
    {
      for i := 0 to |notifications|
        invariant State() == StepAll(old(State()), Closings(notifications[..i]))
      {
        var n := notifications[i];
        StepAllClosings(old(State()), notifications, i);
        if !n.terminal {
          continue;
        }
        if n.toolUseId.Some? {
          if n.toolUseId.value in meta && meta[n.toolUseId.value].background {
            meta := meta - {n.toolUseId.value};
          }
        }
      }
      assert notifications[..|notifications|] == notifications;
    }

    method ClearBackgroundNotifications(content: Content)
      modifies this`meta
      ensures State() == StepAll(old(State()), ContentClosings(content))
    {
      if content.Plain? {
        ClearBackgroundNotificationsIn(content.notifications);
      }
    }

    /** A typed prompt drops every unresolved foreground call. */
    method CloseTurnTools()
      modifies this`meta, this`order
      ensures State() == CloseTurn(old(State()))
    {
      if |meta| == 0 {
        return;
      }
      var kept: map<string, Tool>, keptOrder: seq<string> := map[], [];
      for i := 0 to |order|
        invariant State() == old(State())
        invariant kept == KeptOpen(State(), order[..i])
        invariant keptOrder == KeptOrder(State(), order[..i])
      {
        var id := order[i];
        KeptStep(State(), order, i);
        if id in meta && meta[id].background {
          kept := kept[id := meta[id]];
          keptOrder := keptOrder + [id];
        }
      }
      assert order[..|order|] == order;
      meta, order := kept, keptOrder;
    }

    /** How many background launches were made, and how many are still open. */
    method BackgroundCounts() returns (launched: nat, open: nat)
      ensures launched == State().launched && open == |BackgroundIds(State())|
    {
      launched, open := bgLaunched, 0;
      var rest := meta.Keys;
      while rest != {}
        invariant rest <= meta.Keys
        invariant open == |set id | id in meta && id !in rest && meta[id].background|
        decreases rest
      {
        var id :| id in rest;
        ghost var seen := set x | x in meta && x !in rest && meta[x].background;
        rest := rest - {id};
        ghost var seen' := set x | x in meta && x !in rest && meta[x].background;
        if meta[id].background {
          open := open + 1;
          assert seen' == seen + {id};
        } else {
          assert seen' == seen;
        }
      }
      assert (set x | x in meta && x !in rest && meta[x].background) == BackgroundIds(State());
    }

    /** The name of the foreground call to report, and whether any background launch is open. */
    method Resolve() returns (pendingTool: string, backgroundActive: bool)
      ensures backgroundActive <==> BackgroundIds(State()) != {}
      ensures pendingTool ==
              var latest := LatestForeground(State(), order);
              if latest.Some? then meta[latest.value].name else ""
    {
      backgroundActive := false;
      var rest := meta.Keys;
      while rest != {} && !backgroundActive
        invariant rest <= meta.Keys
        invariant !backgroundActive ==> BackgroundIds(State()) <= rest
        invariant backgroundActive ==> BackgroundIds(State()) != {}
        decreases rest, !backgroundActive
      {
        var id :| id in rest;
        rest := rest - {id};
        if meta[id].background {
          assert id in BackgroundIds(State());
          backgroundActive := true;
        }
      }
      var i := |order|;
      assert order[..i] == order;
      while i > 0
        invariant 0 <= i <= |order|
        invariant LatestForeground(State(), order) == LatestForeground(State(), order[..i])
      {
        assert order[..i][..i - 1] == order[..i - 1];
        i := i - 1;
        if order[i] in meta && !meta[order[i]].background {
          return meta[order[i]].name, backgroundActive;
        }
      }
      return "", backgroundActive;
    }
  }
}
