/** The rules by which pending tool calls open and close, stated twice: once as the bookkeeping that
    the parser keeps (`Step`, line by line), and once over the whole event history (`OpenAt`). The
    two are proved to agree on every history. */
module ToolRules {
  import opened Basics
  import opened History

  datatype Tool = Tool(name: string, background: bool)

  /** The value of the bookkeeping. */
  datatype Tools = Tools(
    open: map<string, Tool>,
    order: seq<string>,
    launched: nat,
    byTask: map<string, string>,
    pendingStops: map<string, string>)

  const NO_TOOLS := Tools(map[], [], 0, map[], map[])

  function Declare(s: Tools, e: Event): Tools
    requires e.Declared?
  {
    s.(open := s.open[e.id := Tool(e.name, e.background)],
       order := if e.id in s.open then s.order else s.order + [e.id],
       launched := if e.background then s.launched + 1 else s.launched,
       pendingStops := if e.stops.Some? then s.pendingStops[e.id := e.stops.value] else s.pendingStops)
  }

  predicate IsBackground(s: Tools, id: string) {
    id in s.open && s.open[id].background
  }

  function NoteLaunch(s: Tools, id: string, launched: Option<string>): Tools {
    if IsBackground(s, id) && launched.Some? then s.(byTask := s.byTask[launched.value := id]) else s
  }

  function CloseStopped(s: Tools, call: string, stopped: Option<string>): Tools {
    if call !in s.pendingStops then s
    else
      var task := s.pendingStops[call];
      var s' := s.(pendingStops := s.pendingStops - {call});
      if stopped == Some(task) && task in s.byTask
      then s'.(open := s.open - {s.byTask[task]})
      else s'
  }

  function Answer(s: Tools, id: string, launched: Option<string>, stopped: Option<string>): Tools {
    var s' := CloseStopped(NoteLaunch(s, id, launched), id, stopped);
    if IsBackground(s', id) then s' else s'.(open := s'.open - {id})
  }

  function Notify(s: Tools, id: string): Tools {
    if IsBackground(s, id) then s.(open := s.open - {id}) else s
  }

  function KeptOrder(s: Tools, order: seq<string>): (kept: seq<string>)
    ensures forall id :: id in kept <==> id in order && IsBackground(s, id)
  {
    if order == [] then []
    else
      var id := order[|order| - 1];
      KeptOrder(s, order[..|order| - 1]) + if IsBackground(s, id) then [id] else []
  }

  function KeptOpen(s: Tools, order: seq<string>): map<string, Tool> {
    map id | id in order && IsBackground(s, id) :: s.open[id]
  }

  lemma KeptStep(s: Tools, order: seq<string>, i: nat)
    requires i < |order|
    ensures var id := order[i];
            && KeptOpen(s, order[..i + 1]) ==
               (if IsBackground(s, id) then KeptOpen(s, order[..i])[id := s.open[id]] else KeptOpen(s, order[..i]))
            && KeptOrder(s, order[..i + 1]) == KeptOrder(s, order[..i]) + if IsBackground(s, id) then [id] else []
  {
    assert order[..i + 1] == order[..i] + [order[i]];
    assert order[..i + 1][..i] == order[..i];
  }

  function CloseTurn(s: Tools): Tools {
    if |s.open| == 0 then s else s.(open := KeptOpen(s, s.order), order := KeptOrder(s, s.order))
  }

  function Step(s: Tools, e: Event): Tools {
    match e
    case Declared(_, _, _, _, _) => Declare(s, e)
    case Answered(id, launched, stopped) => Answer(s, id, launched, stopped)
    case Notified(id) => Notify(s, id)
    case Prompted => CloseTurn(s)
  }

  function StepAll(s: Tools, es: seq<Event>): Tools {
    if es == [] then s else Step(StepAll(s, es[..|es| - 1]), es[|es| - 1])
  }

  lemma StepAllOne(s: Tools, es: seq<Event>, e: Event)
    ensures StepAll(s, es + [e]) == Step(StepAll(s, es), e)
  {
    assert (es + [e])[..|es|] == es;
  }

  lemma StepAllBlocks(s: Tools, bs: seq<Block>, i: nat)
    requires i < |bs|
    ensures StepAll(s, Declarations(bs[..i + 1])) ==
            var s' := StepAll(s, Declarations(bs[..i]));
            if BlockDeclarations(bs[i]) == [] then s' else Step(s', BlockDeclarations(bs[i])[0])
    ensures StepAll(s, Answers(bs[..i + 1])) ==
            var s' := StepAll(s, Answers(bs[..i]));
            if BlockAnswers(bs[i]) == [] then s' else Step(s', BlockAnswers(bs[i])[0])
    ensures Answers(bs[..i + 1]) == [] <==> Answers(bs[..i]) == [] && BlockAnswers(bs[i]) == []
  {
    assert bs[..i + 1][..i] == bs[..i];
    var ds, rs := Declarations(bs[..i]), Answers(bs[..i]);
    assert ds + [] == ds && rs + [] == rs;
    if BlockDeclarations(bs[i]) != [] {
      StepAllOne(s, ds, BlockDeclarations(bs[i])[0]);
    }
    if BlockAnswers(bs[i]) != [] {
      StepAllOne(s, rs, BlockAnswers(bs[i])[0]);
    }
  }

  lemma StepAllClosings(s: Tools, ns: seq<Notification>, i: nat)
    requires i < |ns|
    ensures StepAll(s, Closings(ns[..i + 1])) ==
            var s' := StepAll(s, Closings(ns[..i]));
            if ns[i].terminal && ns[i].toolUseId.Some? then Notify(s', ns[i].toolUseId.value) else s'
  {
    assert ns[..i + 1][..i] == ns[..i];
    var cs := Closings(ns[..i]);
    assert cs + [] == cs;
    if ns[i].terminal && ns[i].toolUseId.Some? {
      StepAllOne(s, cs, Notified(ns[i].toolUseId.value));
    }
  }

  lemma {:induction false} StepAllConcat(s: Tools, a: seq<Event>, b: seq<Event>)
    ensures StepAll(s, a + b) == StepAll(StepAll(s, a), b)
  {
    if b == [] {
      assert a + b == a;
    } else {
      var n := |b| - 1;
      assert (a + b)[..|a + b| - 1] == a + b[..n];
      StepAllConcat(s, a, b[..n]);
    }
  }

  // ---------------------------------------------------------------------------------------------
  // What the history says, with no bookkeeping at all.

  ghost predicate Declares(e: Event, id: string) {
    e.Declared? && e.id == id
  }

  /** `h[i]` is the last declaration of `id` among the first `n` events. */
  ghost predicate LastDeclared(h: seq<Event>, n: nat, id: string, i: nat)
    requires n <= |h|
  {
    i < n && Declares(h[i], id) && forall j | i < j < n :: !Declares(h[j], id)
  }

  /** `id` is open after the first `n` events: nothing has closed it since its last declaration. */
  ghost predicate OpenAt(h: seq<Event>, n: nat, id: string)
    requires n <= |h|
    decreases n, 9
  {
    exists i: nat :: LastDeclared(h, n, id, i) && forall j | i < j < n :: !Closes(h, j, id, h[i].background)
  }

  ghost predicate OpenBackgroundAt(h: seq<Event>, n: nat, id: string)
    requires n <= |h|
    decreases n, 10
  {
    OpenAt(h, n, id) && exists i: nat :: LastDeclared(h, n, id, i) && h[i].background
  }

  /** What closes each kind of work. A background launch: its terminal notification, or a declared
      stop that succeeded. A foreground call: its result, a prompt, or such a stop. */
  ghost predicate Closes(h: seq<Event>, j: nat, id: string, background: bool)
    requires j < |h|
    decreases j + 1, 8
  {
    match h[j]
    case Notified(x) => background && x == id
    case Prompted => !background
    case Answered(x, _, stopped) =>
      || (!background && x == id)
      || (stopped.Some? && StopPending(h, j, x, stopped.value) && TaskNames(h, j + 1, stopped.value, id))
    case Declared(_, _, _, _, _) => false
  }

  /** `call` declared that it would stop `task`, and has not been answered since. */
  ghost predicate StopPending(h: seq<Event>, n: nat, call: string, task: string)
    requires n <= |h|
  {
    exists k: nat :: StopDeclaredAt(h, n, call, task, k)
  }

  ghost predicate StopDeclaredAt(h: seq<Event>, n: nat, call: string, task: string, k: nat)
    requires n <= |h|
  {
    && k < n && Declares(h[k], call) && h[k].stops == Some(task)
    && forall m | k < m < n :: !TouchesStop(h[m], call)
  }

  ghost predicate TouchesStop(e: Event, call: string) {
    (e.Answered? && e.id == call) || (Declares(e, call) && e.stops.Some?)
  }

  /** Among the first `n` events, `launch` is the one whose result last announced `task`. */
  ghost predicate TaskNames(h: seq<Event>, n: nat, task: string, launch: string)
    requires n <= |h|
    decreases n, 7
  {
    exists m: nat :: m < n && Announces(h, m, task) && h[m].id == launch &&
                     forall k | m < k < n :: !Announces(h, k, task)
  }

  /** The result at `m` gives a task id to a background launch that is open at that moment. */
  ghost predicate Announces(h: seq<Event>, m: nat, task: string)
    requires m < |h|
    decreases m, 11
  {
    h[m].Answered? && h[m].launched == Some(task) && OpenBackgroundAt(h, m, h[m].id)
  }

  // ---------------------------------------------------------------------------------------------
  // How each of those readings changes when one more event is read.

  lemma LastDeclaredUnique(h: seq<Event>, n: nat, id: string, i: nat, j: nat)
    requires n <= |h| && LastDeclared(h, n, id, i) && LastDeclared(h, n, id, j)
    ensures i == j
  {
  }

  lemma LastDeclaredStep(h: seq<Event>, n: nat, id: string, i: nat)
    requires n < |h|
    ensures LastDeclared(h, n + 1, id, i) <==>
            if Declares(h[n], id) then i == n else LastDeclared(h, n, id, i)
  {
  }

  lemma OpenStep(h: seq<Event>, n: nat, id: string, i: nat)
    requires n < |h| && LastDeclared(h, n, id, i) && !Declares(h[n], id)
    ensures OpenAt(h, n + 1, id) <==> OpenAt(h, n, id) && !Closes(h, n, id, h[i].background)
  {
    LastDeclaredStep(h, n, id, i);
    if OpenAt(h, n + 1, id) {
      var k: nat :| LastDeclared(h, n + 1, id, k) && forall j | k < j < n + 1 :: !Closes(h, j, id, h[k].background);
      LastDeclaredUnique(h, n + 1, id, i, k);
    }
    if OpenAt(h, n, id) && !Closes(h, n, id, h[i].background) {
      var k: nat :| LastDeclared(h, n, id, k) && forall j | k < j < n :: !Closes(h, j, id, h[k].background);
      LastDeclaredUnique(h, n, id, i, k);
    }
  }

  lemma OpenDeclared(h: seq<Event>, n: nat, id: string)
    requires n < |h| && Declares(h[n], id)
    ensures OpenAt(h, n + 1, id)
  {
    assert LastDeclared(h, n + 1, id, n);
  }

  lemma NeverDeclared(h: seq<Event>, n: nat, id: string)
    requires n <= |h| && OpenAt(h, n, id)
    ensures exists i: nat :: LastDeclared(h, n, id, i)
  {
  }

  lemma StopPendingStep(h: seq<Event>, n: nat, call: string, task: string)
    requires n < |h|
    ensures StopPending(h, n + 1, call, task) <==>
            || (Declares(h[n], call) && h[n].stops == Some(task))
            || (StopPending(h, n, call, task) && !TouchesStop(h[n], call))
  {
    if Declares(h[n], call) && h[n].stops == Some(task) {
      assert StopDeclaredAt(h, n + 1, call, task, n);
    }
    if StopPending(h, n, call, task) && !TouchesStop(h[n], call) {
      var k: nat :| StopDeclaredAt(h, n, call, task, k);
      assert StopDeclaredAt(h, n + 1, call, task, k);
    }
    if StopPending(h, n + 1, call, task) {
      var k: nat :| StopDeclaredAt(h, n + 1, call, task, k);
      if k < n {
        assert StopDeclaredAt(h, n, call, task, k);
      }
    }
  }

  lemma TaskNamesStep(h: seq<Event>, n: nat, task: string, launch: string)
    requires n < |h|
    ensures TaskNames(h, n + 1, task, launch) <==>
            if Announces(h, n, task) then h[n].id == launch else TaskNames(h, n, task, launch)
  {
  }

  ghost predicate OpenAs(s: Tools, id: string, e: Event) {
    id in s.open && e.Declared? && s.open[id] == Tool(e.name, e.background)
  }

  ghost predicate NamesLaunch(s: Tools, task: string, launch: string) {
    task in s.byTask && s.byTask[task] == launch
  }

  ghost predicate AwaitsStop(s: Tools, call: string, task: string) {
    call in s.pendingStops && s.pendingStops[call] == task
  }

  /** The open ids are those the history leaves open, each with what its last declaration said. */
  ghost predicate OpenAgrees(s: Tools, h: seq<Event>, n: nat)
    requires n <= |h|
  {
    && (forall id :: id in s.open <==> OpenAt(h, n, id))
    && (forall id, i: nat :: id in s.open && LastDeclared(h, n, id, i) ==> OpenAs(s, id, h[i]))
  }

  ghost predicate TasksAgree(s: Tools, h: seq<Event>, n: nat)
    requires n <= |h|
  {
    forall t, launch :: NamesLaunch(s, t, launch) <==> TaskNames(h, n, t, launch)
  }

  ghost predicate StopsAgree(s: Tools, h: seq<Event>, n: nat)
    requires n <= |h|
  {
    forall c, t :: AwaitsStop(s, c, t) <==> StopPending(h, n, c, t)
  }

  ghost predicate Agrees(s: Tools, h: seq<Event>, n: nat)
    requires n <= |h|
  {
    OpenAgrees(s, h, n) && TasksAgree(s, h, n) && StopsAgree(s, h, n)
  }

  /** Every open id is still in the order list, and no more launches are open than were counted. */
  ghost predicate Ordered(s: Tools) {
    && (forall id :: id in s.open ==> id in s.order)
    && |BackgroundIds(s)| <= s.launched
  }

  function BackgroundIds(s: Tools): set<string> {
    set id | id in s.open && s.open[id].background
  }

  lemma OpenHasDeclaration(s: Tools, h: seq<Event>, n: nat, id: string) returns (i: nat)
    requires n <= |h| && OpenAgrees(s, h, n) && id in s.open
    ensures LastDeclared(h, n, id, i) && OpenAs(s, id, h[i])
  {
    NeverDeclared(h, n, id);
    i :| LastDeclared(h, n, id, i);
  }

  lemma BackgroundAgrees(s: Tools, h: seq<Event>, n: nat, id: string)
    requires n <= |h| && OpenAgrees(s, h, n)
    ensures IsBackground(s, id) <==> OpenBackgroundAt(h, n, id)
  {
    if id in s.open {
      var i := OpenHasDeclaration(s, h, n, id);
      if OpenBackgroundAt(h, n, id) {
        var k: nat :| LastDeclared(h, n, id, k) && h[k].background;
        LastDeclaredUnique(h, n, id, i, k);
      }
    }
  }

  /** `s'` is `s` without the ids that the event at `n` closes. */
  ghost predicate Closed(s: Tools, s': Tools, h: seq<Event>, n: nat)
    requires n < |h|
  {
    && (forall id :: id in s'.open <==> id in s.open && !Closes(h, n, id, s.open[id].background))
    && (forall id :: id in s'.open ==> s'.open[id] == s.open[id])
  }

  lemma OpenAgreesStep(s: Tools, s': Tools, h: seq<Event>, n: nat)
    requires n < |h| && OpenAgrees(s, h, n) && !h[n].Declared? && Closed(s, s', h, n)
    ensures OpenAgrees(s', h, n + 1)
  {
    forall id
      ensures id in s'.open <==> OpenAt(h, n + 1, id)
    {
      if id in s.open {
        var i := OpenHasDeclaration(s, h, n, id);
        OpenStep(h, n, id, i);
      } else if OpenAt(h, n + 1, id) {
        var i: nat :| LastDeclared(h, n + 1, id, i);
        LastDeclaredStep(h, n, id, i);
        OpenStep(h, n, id, i);
      }
    }
    forall id, i: nat | id in s'.open && LastDeclared(h, n + 1, id, i)
      ensures OpenAs(s', id, h[i])
    {
      LastDeclaredStep(h, n, id, i);
    }
  }

  lemma OpenAgreesDeclared(s: Tools, h: seq<Event>, n: nat)
    requires n < |h| && OpenAgrees(s, h, n) && h[n].Declared?
    ensures OpenAgrees(Declare(s, h[n]), h, n + 1)
  {
    var s' := Declare(s, h[n]);
    forall id
      ensures id in s'.open <==> OpenAt(h, n + 1, id)
    {
      if Declares(h[n], id) {
        OpenDeclared(h, n, id);
      } else if exists i: nat :: LastDeclared(h, n, id, i) {
        var i: nat :| LastDeclared(h, n, id, i);
        OpenStep(h, n, id, i);
      } else if OpenAt(h, n + 1, id) {
        var i: nat :| LastDeclared(h, n + 1, id, i);
        LastDeclaredStep(h, n, id, i);
        assert false;
      }
    }
    forall id, i: nat | id in s'.open && LastDeclared(h, n + 1, id, i)
      ensures OpenAs(s', id, h[i])
    {
      LastDeclaredStep(h, n, id, i);
    }
  }

  /** A declaration that stops nothing, a notification or a prompt leave the declared stops alone;
      a stop's own declaration and its result are what move them. */
  lemma StopsAgreeStep(s: Tools, s': Tools, h: seq<Event>, n: nat)
    requires n < |h| && StopsAgree(s, h, n)
    requires s'.pendingStops == StopsAfter(s, h[n])
    ensures StopsAgree(s', h, n + 1)
  {
    var m := n + 1;
    forall c, t
      ensures AwaitsStop(s', c, t) <==> StopPending(h, m, c, t)
    {
      StopPendingStep(h, n, c, t);
      assert AwaitsStop(s, c, t) <==> StopPending(h, n, c, t);
    }
  }

  lemma TasksAgreeStep(s: Tools, s': Tools, h: seq<Event>, n: nat)
    requires n < |h| && OpenAgrees(s, h, n) && TasksAgree(s, h, n)
    requires s'.byTask == TasksAfter(s, h[n])
    ensures TasksAgree(s', h, n + 1)
  {
    var m := n + 1;
    if h[n].Answered? {
      BackgroundAgrees(s, h, n, h[n].id);
    }
    forall t, launch
      ensures NamesLaunch(s', t, launch) <==> TaskNames(h, m, t, launch)
    {
      TaskNamesStep(h, n, t, launch);
      assert NamesLaunch(s, t, launch) <==> TaskNames(h, n, t, launch);
    }
  }

  function StopsAfter(s: Tools, e: Event): map<string, string> {
    match e
    case Declared(id, _, _, stops, _) => if stops.Some? then s.pendingStops[id := stops.value] else s.pendingStops
    case Answered(id, _, _) => s.pendingStops - {id}
    case _ => s.pendingStops
  }

  function TasksAfter(s: Tools, e: Event): map<string, string> {
    if e.Answered? then NoteLaunch(s, e.id, e.launched).byTask else s.byTask
  }

  lemma AnswerParts(s: Tools, id: string, launched: Option<string>, stopped: Option<string>)
    ensures Answer(s, id, launched, stopped).pendingStops == s.pendingStops - {id}
    ensures Answer(s, id, launched, stopped).byTask == NoteLaunch(s, id, launched).byTask
  {
    assert s.pendingStops - {id} == if id in s.pendingStops then s.pendingStops - {id} else s.pendingStops;
  }

  lemma StepParts(s: Tools, e: Event)
    ensures Step(s, e).pendingStops == StopsAfter(s, e)
    ensures Step(s, e).byTask == TasksAfter(s, e)
  {
    match e {
      case Answered(id, launched, stopped) => AnswerParts(s, id, launched, stopped);
      case Declared(_, _, _, _, _) =>
      case Notified(_) =>
      case Prompted =>
    }
  }

  lemma AnsweredCloses(s: Tools, h: seq<Event>, n: nat)
    requires n < |h| && Agrees(s, h, n) && h[n].Answered?
    ensures Closed(s, Step(s, h[n]), h, n)
  {
    var e, s' := h[n], Step(s, h[n]);
    var noted := NoteLaunch(s, e.id, e.launched);
    TasksAgreeStep(s, noted, h, n);
    var m := n + 1;
    forall id
      ensures id in s'.open <==> id in s.open && !Closes(h, n, id, s.open[id].background)
    {
      if e.stopped.Some? {
        var t := e.stopped.value;
        assert AwaitsStop(s, e.id, t) <==> StopPending(h, n, e.id, t);
        assert NamesLaunch(noted, t, id) <==> TaskNames(h, m, t, id);
      }
    }
  }

  lemma PromptCloses(s: Tools, h: seq<Event>, n: nat)
    requires n < |h| && Ordered(s) && h[n].Prompted?
    ensures Closed(s, Step(s, h[n]), h, n)
  {
    var s' := CloseTurn(s);
    if |s.open| == 0 {
      assert s.open == map[];
    } else {
      assert forall id :: id in s'.open <==> id in s.order && IsBackground(s, id);
    }
  }

  lemma OpenStepAgrees(s: Tools, h: seq<Event>, n: nat)
    requires n < |h| && Agrees(s, h, n) && Ordered(s)
    ensures OpenAgrees(Step(s, h[n]), h, n + 1)
  {
    match h[n] {
      case Declared(_, _, _, _, _) => OpenAgreesDeclared(s, h, n);
      case Answered(_, _, _) =>
        AnsweredCloses(s, h, n);
        OpenAgreesStep(s, Step(s, h[n]), h, n);
      case Notified(_) => OpenAgreesStep(s, Step(s, h[n]), h, n);
      case Prompted =>
        PromptCloses(s, h, n);
        OpenAgreesStep(s, Step(s, h[n]), h, n);
    }
  }

  lemma AgreesStep(s: Tools, h: seq<Event>, n: nat)
    requires n < |h| && Agrees(s, h, n) && Ordered(s)
    ensures Agrees(Step(s, h[n]), h, n + 1)
  {
    StepParts(s, h[n]);
    OpenStepAgrees(s, h, n);
    StopsAgreeStep(s, Step(s, h[n]), h, n);
    TasksAgreeStep(s, Step(s, h[n]), h, n);
  }

  lemma AnswerOnlyCloses(s: Tools, call: string, launched: Option<string>, stopped: Option<string>, id: string)
    ensures var s' := Answer(s, call, launched, stopped);
            && (id in s'.open ==> id in s.open && s'.open[id] == s.open[id])
            && s'.order == s.order && s'.launched == s.launched
  {
    var noted := NoteLaunch(s, call, launched);
    assert noted.open == s.open && noted.order == s.order && noted.launched == s.launched;
    var closed := CloseStopped(noted, call, stopped);
    assert id in closed.open ==> id in s.open && closed.open[id] == s.open[id];
  }

  /** Only a declaration opens a call, or changes what an open one is. */
  lemma OnlyDeclarationsOpen(s: Tools, e: Event, id: string)
    requires !e.Declared?
    ensures id in Step(s, e).open ==> id in s.open && Step(s, e).open[id] == s.open[id]
    ensures Step(s, e).launched == s.launched
    ensures (id in s.open ==> id in s.order) ==> (id in Step(s, e).open ==> id in Step(s, e).order)
  {
    match e {
      case Answered(call, launched, stopped) => AnswerOnlyCloses(s, call, launched, stopped, id);
      case Notified(_) =>
      case Prompted =>
    }
  }

  lemma OrderedStep(s: Tools, e: Event)
    requires Ordered(s)
    ensures Ordered(Step(s, e))
  {
    var s' := Step(s, e);
    if e.Declared? {
      SubsetSize(BackgroundIds(s'), BackgroundIds(s) + if e.background then {e.id} else {});
    } else {
      forall id
        ensures id in BackgroundIds(s') ==> id in BackgroundIds(s)
        ensures id in s'.open ==> id in s'.order
      {
        OnlyDeclarationsOpen(s, e, id);
      }
      OnlyDeclarationsOpen(s, e, "");
      SubsetSize(BackgroundIds(s'), BackgroundIds(s));
    }
  }

  lemma {:induction false} PrefixAgrees(h: seq<Event>, n: nat)
    requires n <= |h|
    ensures Ordered(StepAll(NO_TOOLS, h[..n]))
    ensures Agrees(StepAll(NO_TOOLS, h[..n]), h, n)
  {
    if n > 0 {
      PrefixAgrees(h, n - 1);
      assert h[..n][..n - 1] == h[..n - 1];
      var s := StepAll(NO_TOOLS, h[..n - 1]);
      OrderedStep(s, h[n - 1]);
      AgreesStep(s, h, n - 1);
    }
  }

  /** The bookkeeping, run over any history, holds exactly the work the history leaves open, names
      each piece by its last declaration, and never counts more launches open than were made. */
  lemma BookkeepingIsTheHistory(h: seq<Event>)
    ensures Ordered(StepAll(NO_TOOLS, h))
    ensures Agrees(StepAll(NO_TOOLS, h), h, |h|)
  {
    PrefixAgrees(h, |h|);
    assert h[..|h|] == h;
  }

  // ---------------------------------------------------------------------------------------------
  // "The most recent pending tool" is the one opened last.

  /** The last open foreground id in the order list: what the resolution reports. */
  function LatestForeground(s: Tools, order: seq<string>): (r: Option<string>)
    ensures r.Some? ==> r.value in s.open && !s.open[r.value].background
  {
    if order == [] then None
    else
      var id := order[|order| - 1];
      if id in s.open && !s.open[id].background then Some(id)
      else LatestForeground(s, order[..|order| - 1])
  }

  /** `id` was opened by the declaration at `i` and has been open ever since. */
  ghost predicate OpenedAt(h: seq<Event>, n: nat, id: string, i: nat)
    requires n <= |h|
  {
    i < n && Declares(h[i], id) && !OpenAt(h, i, id) && forall k | i < k <= n :: OpenAt(h, k, id)
  }

  /** Reading the order list from its end, `y` comes before `x`. */
  predicate After(order: seq<string>, x: string, y: string) {
    if order == [] then false
    else
      var last := order[|order| - 1];
      last == y || (last != x && After(order[..|order| - 1], x, y))
  }

  lemma {:induction false} KeptOrderAfter(s: Tools, order: seq<string>, x: string, y: string)
    requires x != y && IsBackground(s, y) && After(order, x, y)
    ensures After(KeptOrder(s, order), x, y)
  {
    var n := |order| - 1;
    if order[n] != y {
      KeptOrderAfter(s, order[..n], x, y);
      var kept := KeptOrder(s, order[..n]);
      if IsBackground(s, order[n]) {
        assert (kept + [order[n]])[..|kept|] == kept;
      } else {
        assert KeptOrder(s, order) == kept;
      }
    }
  }

  lemma {:induction false} AfterOneWay(order: seq<string>, x: string, y: string)
    requires x != y && After(order, x, y)
    ensures !After(order, y, x)
  {
    var n := |order| - 1;
    if order[n] != y {
      AfterOneWay(order[..n], x, y);
    }
  }

  ghost predicate OpenedInOrder(s: Tools, h: seq<Event>, n: nat)
    requires n <= |h|
  {
    forall x, y, i: nat, j: nat ::
      x in s.open && y in s.open && OpenedAt(h, n, x, i) && OpenedAt(h, n, y, j) && i < j ==> After(s.order, x, y)
  }

  lemma OpenedBefore(h: seq<Event>, n: nat, id: string, i: nat)
    requires n < |h| && OpenedAt(h, n + 1, id, i) && OpenAt(h, n, id)
    ensures OpenedAt(h, n, id, i)
  {
  }

  /** A step keeps the relative order of two ids that stay open, and puts a newly opened one last. */
  lemma AfterStep(s: Tools, e: Event, x: string, y: string)
    requires x != y && x in Step(s, e).open && y in Step(s, e).open
    requires y in s.open ==> x in s.open && After(s.order, x, y)
    ensures After(Step(s, e).order, x, y)
  {
    var s' := Step(s, e);
    match e {
      case Declared(id, _, _, _, _) =>
        assert s'.order != s.order ==> s'.order == s.order + [id] && s'.order[..|s.order|] == s.order;
      case Prompted =>
        if |s.open| != 0 {
          KeptOrderAfter(s, s.order, x, y);
        }
      case _ =>
    }
  }

  lemma OpenedPairStep(s: Tools, h: seq<Event>, n: nat, x: string, y: string, i: nat, j: nat)
    requires n < |h| && OpenAgrees(s, h, n) && OpenedInOrder(s, h, n)
    requires x in Step(s, h[n]).open && y in Step(s, h[n]).open
    requires OpenedAt(h, n + 1, x, i) && OpenedAt(h, n + 1, y, j) && i < j
    ensures After(Step(s, h[n]).order, x, y)
  {
    assert OpenAt(h, n, x);
    OpenedBefore(h, n, x, i);
    if j < n {
      assert OpenAt(h, n, y);
      OpenedBefore(h, n, y, j);
    }
    AfterStep(s, h[n], x, y);
  }

  lemma OpenedStep(s: Tools, h: seq<Event>, n: nat)
    requires n < |h| && OpenAgrees(s, h, n) && OpenedInOrder(s, h, n)
    ensures OpenedInOrder(Step(s, h[n]), h, n + 1)
  {
    var s', m := Step(s, h[n]), n + 1;
    forall x, y, i: nat, j: nat
      | x in s'.open && y in s'.open && OpenedAt(h, m, x, i) && OpenedAt(h, m, y, j) && i < j
      ensures After(s'.order, x, y)
    {
      OpenedPairStep(s, h, n, x, y, i, j);
    }
  }

  lemma {:induction false} PrefixOpenedInOrder(h: seq<Event>, n: nat)
    requires n <= |h|
    ensures OpenedInOrder(StepAll(NO_TOOLS, h[..n]), h, n)
  {
    if n > 0 {
      PrefixOpenedInOrder(h, n - 1);
      PrefixAgrees(h, n - 1);
      assert h[..n][..n - 1] == h[..n - 1];
      OpenedStep(StepAll(NO_TOOLS, h[..n - 1]), h, n - 1);
    }
  }

  lemma {:induction false} OpeningExists(h: seq<Event>, n: nat, id: string) returns (i: nat)
    requires n <= |h| && OpenAt(h, n, id)
    ensures OpenedAt(h, n, id, i)
  {
    var d: nat :| LastDeclared(h, n, id, d);
    if n - 1 == d {
      if OpenAt(h, d, id) {
        i := OpeningExists(h, d, id);
      } else {
        i := d;
      }
    } else {
      assert LastDeclared(h, n - 1, id, d);
      OpenStep(h, n - 1, id, d);
      i := OpeningExists(h, n - 1, id);
    }
  }

  lemma {:induction false} LatestComesLast(s: Tools, order: seq<string>, id: string)
    requires id in order && id in s.open && !s.open[id].background
    ensures LatestForeground(s, order).Some?
    ensures LatestForeground(s, order).value != id ==> After(order, id, LatestForeground(s, order).value)
  {
    var n := |order| - 1;
    if order[n] != id && !(order[n] in s.open && !s.open[order[n]].background) {
      LatestComesLast(s, order[..n], id);
    }
  }

  ghost predicate OpenForegroundAt(h: seq<Event>, n: nat, id: string)
    requires n <= |h|
  {
    OpenAt(h, n, id) && !OpenBackgroundAt(h, n, id)
  }

  lemma ForegroundAgrees(s: Tools, h: seq<Event>, n: nat, id: string)
    requires n <= |h| && OpenAgrees(s, h, n)
    ensures OpenForegroundAt(h, n, id) <==> id in s.open && !s.open[id].background
  {
    BackgroundAgrees(s, h, n, id);
  }

  lemma LatestOpenedLast(s: Tools, h: seq<Event>, n: nat, id: string, i: nat, j: nat)
    requires n <= |h| && OpenAgrees(s, h, n) && OpenedInOrder(s, h, n) && Ordered(s)
    requires OpenForegroundAt(h, n, id) && OpenedAt(h, n, id, i)
    requires LatestForeground(s, s.order).Some? && OpenedAt(h, n, LatestForeground(s, s.order).value, j)
    ensures i <= j
  {
    var r := LatestForeground(s, s.order).value;
    ForegroundAgrees(s, h, n, id);
    LatestComesLast(s, s.order, id);
    if r != id {
      AfterOneWay(s.order, id, r);
    }
  }

  /** After any history, a foreground tool is reported exactly when one is open, and it is the one
      whose opening declaration came last. */
  lemma PendingToolIsTheLastOpened(h: seq<Event>)
    ensures var s := StepAll(NO_TOOLS, h);
            var r := LatestForeground(s, s.order);
            && (r.Some? <==> exists id :: OpenForegroundAt(h, |h|, id))
            && (r.Some? ==> OpenForegroundAt(h, |h|, r.value))
            && (r.Some? ==> forall id, i: nat, j: nat ::
                  OpenForegroundAt(h, |h|, id) && OpenedAt(h, |h|, id, i) && OpenedAt(h, |h|, r.value, j) ==> i <= j)
  {
    BookkeepingIsTheHistory(h);
    PrefixOpenedInOrder(h, |h|);
    assert h[..|h|] == h;
    var s := StepAll(NO_TOOLS, h);
    var r := LatestForeground(s, s.order);
    if r.Some? {
      ForegroundAgrees(s, h, |h|, r.value);
    }
    forall id | OpenForegroundAt(h, |h|, id)
      ensures r.Some?
    {
      ForegroundAgrees(s, h, |h|, id);
      LatestComesLast(s, s.order, id);
    }
    forall id, i: nat, j: nat
      | r.Some? && OpenForegroundAt(h, |h|, id) && OpenedAt(h, |h|, id, i) && OpenedAt(h, |h|, r.value, j)
      ensures i <= j
    {
      LatestOpenedLast(s, h, |h|, id, i, j);
    }
  }
}
