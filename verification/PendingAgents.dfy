/** Async subagents: the rules by which they open and close, over the same event history as the
    pending tools, and the in-place bookkeeping that follows them. */
module AgentRules {
  import opened Basics
  import opened History
  import ToolRules

  datatype Agents = Agents(desc: map<string, string>, order: seq<string>)

  const NO_AGENTS := Agents(map[], [])

  function Launch(s: Agents, id: string, description: string): Agents {
    Agents(s.desc[id := description], if id in s.desc then s.order else s.order + [id])
  }

  function Step(s: Agents, e: Event): Agents {
    match e
    case Declared(id, name, _, _, description) => if IsAgentCall(name) then Launch(s, id, description) else s
    case Notified(id) => s.(desc := s.desc - {id})
    case Prompted => if |s.desc| == 0 then s else NO_AGENTS
    case Answered(_, _, _) => s
  }

  function StepAll(s: Agents, es: seq<Event>): Agents {
    if es == [] then s else Step(StepAll(s, es[..|es| - 1]), es[|es| - 1])
  }

  lemma StepAllOne(s: Agents, es: seq<Event>, e: Event)
    ensures StepAll(s, es + [e]) == Step(StepAll(s, es), e)
  {
    assert (es + [e])[..|es|] == es;
  }

  lemma {:induction false} StepAllConcat(s: Agents, a: seq<Event>, b: seq<Event>)
    ensures StepAll(s, a + b) == StepAll(StepAll(s, a), b)
  {
    if b == [] {
      assert a + b == a;
    } else {
      var n := |b| - 1;
      assert (a + b)[..|a + b| - 1] == a + b[..n];
      StepAllConcat(s, a, b[..n]);
    }
  }

  lemma StepAllBlocks(s: Agents, bs: seq<Block>, i: nat)
    requires i < |bs|
    ensures StepAll(s, Declarations(bs[..i + 1])) ==
            var s' := StepAll(s, Declarations(bs[..i]));
            if BlockDeclarations(bs[i]) == [] then s' else Step(s', BlockDeclarations(bs[i])[0])
  {
    assert bs[..i + 1][..i] == bs[..i];
    var before, here := Declarations(bs[..i]), BlockDeclarations(bs[i]);
    assert Declarations(bs[..i + 1]) == before + here;
    if here == [] {
      assert before + here == before;
    } else {
      assert here == [here[0]];
      StepAllOne(s, before, here[0]);
    }
  }

  lemma StepAllClosings(s: Agents, ns: seq<Notification>, i: nat)
    requires i < |ns|
    ensures StepAll(s, Closings(ns[..i + 1])) ==
            var s' := StepAll(s, Closings(ns[..i]));
            if ns[i].terminal && ns[i].toolUseId.Some? then Step(s', Notified(ns[i].toolUseId.value)) else s'
  {
    assert ns[..i + 1][..i] == ns[..i];
    var cs := Closings(ns[..i]);
    assert cs + [] == cs;
    if ns[i].terminal && ns[i].toolUseId.Some? {
      StepAllOne(s, cs, Notified(ns[i].toolUseId.value));
    }
  }

  /** Results say nothing about subagents. */
  lemma {:induction false} AnswersAreIgnored(s: Agents, bs: seq<Block>)
    ensures StepAll(s, Answers(bs)) == s
  {
    if bs != [] {
      var n := |bs| - 1;
      AnswersAreIgnored(s, bs[..n]);
      var rest := Answers(bs[..n]);
      assert rest + [] == rest;
      if BlockAnswers(bs[n]) != [] {
        StepAllOne(s, rest, BlockAnswers(bs[n])[0]);
      }
    }
  }

  // ---------------------------------------------------------------------------------------------
  // What the history says.

  ghost predicate Launches(e: Event, id: string) {
    e.Declared? && e.id == id && IsAgentCall(e.name)
  }

  ghost predicate LastLaunched(h: seq<Event>, n: nat, id: string, i: nat)
    requires n <= |h|
  {
    i < n && Launches(h[i], id) && forall j | i < j < n :: !Launches(h[j], id)
  }

  /** A prompt retires every subagent; a terminal notification retires the one it names. */
  predicate Retires(e: Event, id: string) {
    e.Prompted? || (e.Notified? && e.id == id)
  }

  ghost predicate RunningAt(h: seq<Event>, n: nat, id: string, i: nat)
    requires n <= |h|
  {
    LastLaunched(h, n, id, i) && forall j | i < j < n :: !Retires(h[j], id)
  }

  ghost predicate Running(h: seq<Event>, n: nat, id: string)
    requires n <= |h|
  {
    exists i: nat :: RunningAt(h, n, id, i)
  }

  ghost predicate Agrees(s: Agents, h: seq<Event>, n: nat)
    requires n <= |h|
  {
    && (forall id :: id in s.desc <==> Running(h, n, id))
    && (forall id, i: nat :: RunningAt(h, n, id, i) ==> id in s.desc && s.desc[id] == h[i].description)
    && (forall id :: id in s.desc ==> id in s.order)
  }

  lemma RunningStep(h: seq<Event>, n: nat, id: string, i: nat)
    requires n < |h|
    ensures RunningAt(h, n + 1, id, i) <==>
            || (i == n && Launches(h[n], id))
            || (RunningAt(h, n, id, i) && !Launches(h[n], id) && !Retires(h[n], id))
  {
  }

  lemma RunningKeptOrLaunched(h: seq<Event>, n: nat, id: string)
    requires n < |h|
    ensures Running(h, n + 1, id) <==>
            Launches(h[n], id) || (Running(h, n, id) && !Retires(h[n], id))
  {
    if Launches(h[n], id) {
      RunningStep(h, n, id, n);
    } else if Running(h, n, id) && !Retires(h[n], id) {
      var i: nat :| RunningAt(h, n, id, i);
      RunningStep(h, n, id, i);
    } else if Running(h, n + 1, id) {
      var i: nat :| RunningAt(h, n + 1, id, i);
      RunningStep(h, n, id, i);
    }
  }

  lemma AgreesStep(s: Agents, h: seq<Event>, n: nat)
    requires n < |h| && Agrees(s, h, n)
    ensures Agrees(Step(s, h[n]), h, n + 1)
  {
    var s', m := Step(s, h[n]), n + 1;
    forall id
      ensures id in s'.desc <==> Running(h, m, id)
    {
      RunningKeptOrLaunched(h, n, id);
    }
    forall id, i: nat | RunningAt(h, m, id, i)
      ensures id in s'.desc && s'.desc[id] == h[i].description
    {
      RunningStep(h, n, id, i);
      assert Running(h, m, id);
    }
  }

  lemma {:induction false} PrefixAgrees(h: seq<Event>, n: nat)
    requires n <= |h|
    ensures Agrees(StepAll(NO_AGENTS, h[..n]), h, n)
  {
    if n > 0 {
      PrefixAgrees(h, n - 1);
      assert h[..n][..n - 1] == h[..n - 1];
      AgreesStep(StepAll(NO_AGENTS, h[..n - 1]), h, n - 1);
    }
  }

  /** A subagent is in flight exactly when neither a prompt nor its own terminal notification has
      come since its last launch. */
  lemma AgentsInFlight(h: seq<Event>)
    ensures Agrees(StepAll(NO_AGENTS, h), h, |h|)
  {
    PrefixAgrees(h, |h|);
    assert h[..|h|] == h;
  }

  /** The last id of the order list that is still in flight. */
  function Latest(s: Agents, order: seq<string>): (r: Option<string>)
    ensures r.Some? ==> r.value in s.desc
  {
    if order == [] then None
    else if order[|order| - 1] in s.desc then Some(order[|order| - 1])
    else Latest(s, order[..|order| - 1])
  }

  // ---------------------------------------------------------------------------------------------
  // "The most recent subagent" is the one started last.

  /** `id` was started by the launch at `i` and has been in flight ever since. */
  ghost predicate StartedAt(h: seq<Event>, n: nat, id: string, i: nat)
    requires n <= |h|
  {
    i < n && Launches(h[i], id) && !Running(h, i, id) && forall k | i < k <= n :: Running(h, k, id)
  }

  ghost predicate StartedInOrder(s: Agents, h: seq<Event>, n: nat)
    requires n <= |h|
  {
    forall x, y, i: nat, j: nat ::
      x in s.desc && y in s.desc && StartedAt(h, n, x, i) && StartedAt(h, n, y, j) && i < j ==>
        ToolRules.After(s.order, x, y)
  }

  /** A step keeps the relative order of two subagents that stay in flight, and puts a new one last. */
  lemma AfterStep(s: Agents, e: Event, x: string, y: string)
    requires x != y && x in Step(s, e).desc && y in Step(s, e).desc
    requires y in s.desc ==> x in s.desc && ToolRules.After(s.order, x, y)
    ensures ToolRules.After(Step(s, e).order, x, y)
  {
    var s' := Step(s, e);
    if s'.order != s.order && s'.order != [] {
      assert s'.order == s.order + [e.id] && s'.order[..|s.order|] == s.order;
    }
  }

  lemma StartedPairStep(s: Agents, h: seq<Event>, n: nat, x: string, y: string, i: nat, j: nat)
    requires n < |h| && Agrees(s, h, n) && StartedInOrder(s, h, n)
    requires x in Step(s, h[n]).desc && y in Step(s, h[n]).desc
    requires StartedAt(h, n + 1, x, i) && StartedAt(h, n + 1, y, j) && i < j
    ensures ToolRules.After(Step(s, h[n]).order, x, y)
  {
    assert Running(h, n, x) && StartedAt(h, n, x, i);
    if j < n {
      assert Running(h, n, y) && StartedAt(h, n, y, j);
    } else {
      assert !Running(h, n, y);
    }
    AfterStep(s, h[n], x, y);
  }

  lemma StartedStep(s: Agents, h: seq<Event>, n: nat)
    requires n < |h| && Agrees(s, h, n) && StartedInOrder(s, h, n)
    ensures StartedInOrder(Step(s, h[n]), h, n + 1)
  {
    var s', m := Step(s, h[n]), n + 1;
    forall x, y, i: nat, j: nat
      | x in s'.desc && y in s'.desc && StartedAt(h, m, x, i) && StartedAt(h, m, y, j) && i < j
      ensures ToolRules.After(s'.order, x, y)
    {
      StartedPairStep(s, h, n, x, y, i, j);
    }
  }

  lemma {:induction false} PrefixStartedInOrder(h: seq<Event>, n: nat)
    requires n <= |h|
    ensures StartedInOrder(StepAll(NO_AGENTS, h[..n]), h, n)
  {
    if n > 0 {
      var s := StepAll(NO_AGENTS, h[..n - 1]);
      PrefixStartedInOrder(h, n - 1);
      PrefixAgrees(h, n - 1);
      StartedStep(s, h, n - 1);
      assert h[..n][..n - 1] == h[..n - 1];
      assert StepAll(NO_AGENTS, h[..n]) == Step(s, h[n - 1]);
    }
  }

  /** Whatever is in flight was started at some point, and has been since. */
  lemma {:induction false} StartExists(h: seq<Event>, n: nat, id: string) returns (i: nat)
    requires n <= |h| && Running(h, n, id)
    ensures StartedAt(h, n, id, i)
  {
    if n > 0 && Running(h, n - 1, id) {
      i := StartExists(h, n - 1, id);
    } else {
      var l: nat :| RunningAt(h, n, id, l);
      i := n - 1;
      RunningKeptOrLaunched(h, n - 1, id);
    }
  }

  lemma {:induction false} LatestComesLast(s: Agents, order: seq<string>, id: string)
    requires id in order && id in s.desc
    ensures Latest(s, order).Some?
    ensures Latest(s, order).value != id ==> ToolRules.After(order, id, Latest(s, order).value)
  {
    var n := |order| - 1;
    if order[n] != id && order[n] !in s.desc {
      LatestComesLast(s, order[..n], id);
    }
  }

  lemma LatestStartedLast(s: Agents, h: seq<Event>, n: nat, id: string, i: nat, j: nat)
    requires n <= |h| && Agrees(s, h, n) && StartedInOrder(s, h, n)
    requires StartedAt(h, n, id, i) && Running(h, n, id)
    requires Latest(s, s.order).Some? && StartedAt(h, n, Latest(s, s.order).value, j)
    ensures i <= j
  {
    var r := Latest(s, s.order).value;
    LatestComesLast(s, s.order, id);
    if r != id {
      ToolRules.AfterOneWay(s.order, id, r);
    }
  }

  /** After any history a subagent is shown exactly when one is in flight, and it is the one that was
      started last, under the description of its last launch. */
  lemma {:induction false} AgentShownIsTheLastStarted(h: seq<Event>)
    ensures var s := StepAll(NO_AGENTS, h);
            var r := Latest(s, s.order);
            && (r.Some? <==> exists id :: Running(h, |h|, id))
            && (r.Some? ==> Running(h, |h|, r.value))
            && (r.Some? ==> forall i: nat :: RunningAt(h, |h|, r.value, i) ==> s.desc[r.value] == h[i].description)
            && (r.Some? ==> forall id, i: nat, j: nat ::
                  StartedAt(h, |h|, id, i) && StartedAt(h, |h|, r.value, j) ==> i <= j)
  {
    AgentsInFlight(h);
    PrefixStartedInOrder(h, |h|);
    assert h[..|h|] == h;
    var s := StepAll(NO_AGENTS, h);
    var r := Latest(s, s.order);
    forall id | Running(h, |h|, id)
      ensures r.Some?
    {
      LatestComesLast(s, s.order, id);
    }
    forall id, i: nat, j: nat | r.Some? && StartedAt(h, |h|, id, i) && StartedAt(h, |h|, r.value, j)
      ensures i <= j
    {
      LatestStartedLast(s, h, |h|, id, i, j);
    }
  }
}

module PendingAgents {
  import opened Basics
  import opened History
  import opened AgentRules

  class PendingAgents {
    var desc: map<string, string>
    var order: seq<string>

    constructor ()
      ensures State() == NO_AGENTS
    {
      desc, order := map[], [];
    }

    ghost function State(): Agents
      reads this
    {
      Agents(desc, order)
    }

    /** Records the Task/Agent calls of an assistant message. */
    method AddLaunches(content: Content)
      modifies this
      ensures State() == StepAll(old(State()), ContentDeclarations(content))
    {
      if !content.Blocks? {
        return;
      }
      var blocks := content.blocks;
      for i := 0 to |blocks|
        invariant State() == StepAll(old(State()), Declarations(blocks[..i]))
      {
        var b := blocks[i];
        StepAllBlocks(old(State()), blocks, i);
        if !b.ToolUse? || b.id == "" || (b.name != "Task" && b.name != "Agent") {
          continue;
        }
        if b.id !in desc {
          order := order + [b.id];
        }
        desc := desc[b.id := b.description];
      }
      assert blocks[..|blocks|] == blocks;
    }

    /** Closes the subagents named by the terminal notifications of a text, and reports whether it
        carried any notification at all. */
    method ClearNotificationsIn(notifications: seq<Notification>) returns (carried: bool)
      modifies this`desc
      ensures State() == StepAll(old(State()), Closings(notifications))
      ensures carried <==> notifications != []
    {
      carried := false;
      for i := 0 to |notifications|
        invariant State() == StepAll(old(State()), Closings(notifications[..i]))
        invariant carried <==> i > 0
      {
        var n := notifications[i];
        StepAllClosings(old(State()), notifications, i);
        carried := true;
        if n.terminal && n.toolUseId.Some? {
          desc := desc - {n.toolUseId.value};
        }
      }
      assert notifications[..|notifications|] == notifications;
    }

    method ClearNotifications(content: Content) returns (carried: bool)
      modifies this`desc
      ensures State() == StepAll(old(State()), ContentClosings(content))
      ensures carried <==> CarriesNotification(content)
    {
      carried := false;
      if content.Plain? {
        carried := ClearNotificationsIn(content.notifications);
      }
    }

    /** A typed prompt drops every subagent in flight. */
    method CloseTurn()
      modifies this
      ensures State() == Step(old(State()), Prompted)
    {
      if |desc| == 0 {
        return;
      }
      desc, order := map[], [];
    }

    /** How many subagents are in flight, and the description of the one shown: over a whole history the
        one started last, by AgentShownIsTheLastStarted. */
    method Resolve() returns (count: nat, description: string)
      ensures count == |State().desc|
      ensures var latest := Latest(State(), order);
              description == if latest.Some? then desc[latest.value] else ""
    {
      count, description := |desc|, "";
      var i := |order|;
      assert order[..i] == order;
      while i > 0
        invariant 0 <= i <= |order|
        invariant Latest(State(), order) == Latest(State(), order[..i])
      {
        assert order[..i][..i - 1] == order[..i - 1];
        i := i - 1;
        if order[i] in desc {
          return count, desc[order[i]];
        }
      }
    }
  }
}
