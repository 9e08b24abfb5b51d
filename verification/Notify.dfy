/** Change notification, from the handler that writes a row to the screen that shows it: every party is
    a process of its own, and a run is any interleaving of their steps. */
module Notify {
  import opened Basics

  /** What the dashboards show of a stored row, its age apart. Looks are only ever compared, so a number
      stands for each. */
  type Look = int

  type Board = map<string, Look>

  /** What a fetch was served: the board, the number of changes it had seen, and the step that served it. */
  datatype Answer = Answer(board: Board, version: nat, at: nat)

  /** A dashboard's fetch in flight: not yet served, served, or failed. */
  datatype Fetch = Requested | Answered(answer: Answer) | Failed

  /** The dashboard's model: fetches carry a generation, and an answer older than the one applied last is
      dropped. */
  datatype Model = Model(fetchSeq: nat, appliedSeq: nat, fetches: map<nat, Fetch>, shown: Option<Answer>, failed: bool)

  /** A dashboard opens with its first fetch under way. */
  const OPENED := Model(1, 0, map[1 := Requested], None, false)

  function RefreshSessions(m: Model): Model {
    m.(fetchSeq := m.fetchSeq + 1, fetches := m.fetches[m.fetchSeq + 1 := Requested])
  }

  function ApplySessions(m: Model, gen: nat, f: Fetch): Model {
    if gen <= m.appliedSeq then m
    else if f.Answered? then m.(appliedSeq := gen, failed := false, shown := Some(f.answer))
    else m.(appliedSeq := gen, failed := true)
  }

  /** A dashboard: the one-slot channel its reader fills, and its model. */
  datatype Screen = Screen(slot: bool, model: Model)

  /** The goroutine that streams to one subscriber. */
  datatype Phase = Greeting | Listening | Sending | Over

  /** One subscription: the dashboard it serves, its channel in the hub, the stream it feeds, and the
      events on the wire. `nudged` is the step of the last event sent. */
  datatype Stream = Stream(screen: nat, token: bool, closed: bool, phase: Phase, nudged: nat, wire: nat)

  /** A report's handler: it has read its row, at a step, and not yet written it; or it has written a row
      that looks different from what it read, and owes a publish; or it is sending to the channels it
      found. */
  datatype Handler = HasRead(id: string, seen: Option<Look>, at: nat) | Owes | Publishing(rest: set<nat>)

  /** `version` counts the changes of the board and `time` the steps taken. `announced` is the time after
      the last write that owed a publish. `applying` holds the mutex of the reports, `mutex` the hub's.
      `panicked` records a send on a closed channel, or a second close. */
  datatype State = State(
    rows: Board, version: nat, time: nat, announced: nat, applying: Option<nat>,
    handlers: map<nat, Handler>, mutex: Option<nat>, subs: set<nat>,
    streams: map<nat, Stream>, screens: map<nat, Screen>, panicked: bool)

  const START := State(map[], 0, 0, 0, None, map[], None, {}, map[], map[], false)

  datatype Step =
    | Read(h: nat, id: string) | Write(h: nat, look: Look, ok: bool) | Prune(gone: set<string>)
    | StartPublish(h: nat) | Deliver(h: nat, c: nat) | EndPublish(h: nat)
    | Subscribe(c: nat, d: nat) | Unsubscribe(c: nat)
    | Greet(c: nat, ok: bool) | Receive(c: nat) | Send(c: nat, ok: bool) | Hangup(c: nat) | ReadLine(c: nat)
    | Open(d: nat) | TakeEvent(d: nat) | Refresh(d: nat) | Serve(d: nat, gen: nat, ok: bool) | Apply(d: nat, gen: nat)

  function Lookup(rows: Board, id: string): Option<Look> {
    if id in rows then Some(rows[id]) else None
  }

  predicate InPhase(s: State, c: nat, p: Phase) {
    c in s.streams && s.streams[c].phase == p
  }

  predicate InFlight(s: State, d: nat, gen: nat) {
    d in s.screens && gen in s.screens[d].model.fetches
  }

  predicate Enabled(s: State, st: Step) {
    match st
    case Read(h, _) => h !in s.handlers && s.applying.None?
    case Write(h, _, _) => h in s.handlers && s.handlers[h].HasRead?
    case Prune(_) => true
    case StartPublish(h) => h in s.handlers && s.handlers[h].Owes? && s.mutex.None?
    case Deliver(h, c) => h in s.handlers && s.handlers[h].Publishing? && c in s.handlers[h].rest && c in s.streams
    case EndPublish(h) => h in s.handlers && s.handlers[h] == Publishing({})
    case Subscribe(c, d) => c !in s.streams && d in s.screens && s.mutex.None?
    case Unsubscribe(c) => InPhase(s, c, Over) && s.mutex.None?
    case Greet(c, _) => InPhase(s, c, Greeting)
    case Receive(c) => InPhase(s, c, Listening) && s.streams[c].token
    case Send(c, _) => InPhase(s, c, Sending)
    case Hangup(c) => InPhase(s, c, Listening)
    case ReadLine(c) => c in s.streams && s.streams[c].wire > 0 && s.streams[c].screen in s.screens
    case Open(d) => d !in s.screens
    case TakeEvent(d) => d in s.screens && s.screens[d].slot
    case Refresh(d) => d in s.screens
    case Serve(d, gen, _) => InFlight(s, d, gen) && s.screens[d].model.fetches[gen].Requested?
    case Apply(d, gen) => InFlight(s, d, gen) && !s.screens[d].model.fetches[gen].Requested?
  }

  /** The board after a step. */
  function RowsAfter(s: State, st: Step): Board
    requires Enabled(s, st)
  {
    match st
    case Write(h, look, ok) => if ok then s.rows[s.handlers[h].id := look] else s.rows
    case Prune(gone) => s.rows - gone
    case _ => s.rows
  }

  /** Whether a step owes the dashboards a publish: a written row that is new, or looks different, to the
      handler that read it. */
  predicate Announces(s: State, st: Step)
    requires Enabled(s, st)
  {
    st.Write? && st.ok && s.handlers[st.h].seen != Some(st.look)
  }

  function HandlersAfter(s: State, st: Step): map<nat, Handler>
    requires Enabled(s, st)
  {
    match st
    case Read(h, id) => s.handlers[h := HasRead(id, Lookup(s.rows, id), s.time)]
    case Write(h, _, _) => if Announces(s, st) then s.handlers[h := Owes] else s.handlers - {h}
    case StartPublish(h) => s.handlers[h := Publishing(s.subs)]
    case Deliver(h, c) => s.handlers[h := Publishing(s.handlers[h].rest - {c})]
    case EndPublish(h) => s.handlers - {h}
    case _ => s.handlers
  }

  /** What a step makes of the stream it belongs to. */
  function Streamed(s: State, x: Stream, st: Step): Stream {
    match st
    case Deliver(_, _) => x.(token := true)
    case Unsubscribe(_) => x.(closed := true)
    case Greet(_, ok) => Sent(s, x, ok)
    case Receive(_) => x.(token := false, phase := Sending)
    case Send(_, ok) => Sent(s, x, ok)
    case Hangup(_) => x.(phase := Over)
    case ReadLine(_) => if x.wire > 0 then x.(wire := x.wire - 1) else x
    case _ => x
  }

  function Sent(s: State, x: Stream, ok: bool): Stream {
    if ok then x.(phase := Listening, nudged := s.time, wire := x.wire + 1) else x.(phase := Over)
  }

  function StreamsAfter(s: State, st: Step): map<nat, Stream>
    requires Enabled(s, st)
  {
    match st
    case Subscribe(c, d) => s.streams[c := Stream(d, false, false, Greeting, 0, 0)]
    case Unsubscribe(c) => if c in s.subs then s.streams[c := Streamed(s, s.streams[c], st)] else s.streams
    case Deliver(_, c) => s.streams[c := Streamed(s, s.streams[c], st)]
    case Greet(c, _) => s.streams[c := Streamed(s, s.streams[c], st)]
    case Receive(c) => s.streams[c := Streamed(s, s.streams[c], st)]
    case Send(c, _) => s.streams[c := Streamed(s, s.streams[c], st)]
    case Hangup(c) => s.streams[c := Streamed(s, s.streams[c], st)]
    case ReadLine(c) => s.streams[c := Streamed(s, s.streams[c], st)]
    case _ => s.streams
  }

  /** What a step makes of the model it belongs to. */
  function Fetched(s: State, m: Model, st: Step): Model {
    match st
    case TakeEvent(_) => RefreshSessions(m)
    case Refresh(_) => RefreshSessions(m)
    case Serve(_, gen, ok) =>
      m.(fetches := m.fetches[gen := if ok then Answered(Answer(s.rows, s.version, s.time)) else Failed])
    case Apply(_, gen) =>
      if gen in m.fetches then ApplySessions(m.(fetches := m.fetches - {gen}), gen, m.fetches[gen]) else m
    case _ => m
  }

  function ScreensAfter(s: State, st: Step): map<nat, Screen>
    requires Enabled(s, st)
  {
    match st
    case ReadLine(c) => var d := s.streams[c].screen; s.screens[d := s.screens[d].(slot := true)]
    case Open(d) => s.screens[d := Screen(false, OPENED)]
    case TakeEvent(d) => s.screens[d := Screen(false, Fetched(s, s.screens[d].model, st))]
    case Refresh(d) => s.screens[d := s.screens[d].(model := Fetched(s, s.screens[d].model, st))]
    case Serve(d, _, _) => s.screens[d := s.screens[d].(model := Fetched(s, s.screens[d].model, st))]
    case Apply(d, _) => s.screens[d := s.screens[d].(model := Fetched(s, s.screens[d].model, st))]
    case _ => s.screens
  }

  function Next(s: State, st: Step): State
    requires Enabled(s, st)
  {
    var rows := RowsAfter(s, st);
    State(
      rows,
      if rows != s.rows then s.version + 1 else s.version,
      s.time + 1,
      if Announces(s, st) then s.time + 1 else s.announced,
      if st.Read? then Some(st.h) else if st.Write? then None else s.applying,
      HandlersAfter(s, st),
      if st.StartPublish? then Some(st.h) else if st.EndPublish? then None else s.mutex,
      if st.Subscribe? then s.subs + {st.c} else if st.Unsubscribe? then s.subs - {st.c} else s.subs,
      StreamsAfter(s, st),
      ScreensAfter(s, st),
      s.panicked || ((st.Deliver? || (st.Unsubscribe? && st.c in s.subs)) && s.streams[st.c].closed))
  }

  ghost predicate IsRun(ss: seq<State>, steps: seq<Step>) {
    && |ss| == |steps| + 1
    && ss[0] == START
    && forall i :: 0 <= i < |steps| ==> Follows(ss[i], steps[i], ss[i + 1])
  }

  ghost predicate Follows(s: State, st: Step, s': State) {
    Enabled(s, st) && s' == Next(s, st)
  }

  // ---------------------------------------------------------------------------------------------
  // The hub keeps its channels, and the reports their mutex.

  ghost predicate HandlersOk(s: State) {
    && (forall h :: h in s.handlers && s.handlers[h].HasRead? ==> s.applying == Some(h))
    && (forall h :: h in s.handlers && s.handlers[h].Publishing? ==>
          s.mutex == Some(h) && s.handlers[h].rest <= s.subs)
  }

  /** A subscribed channel is open, and the stream of an open subscription is subscribed. */
  ghost predicate HubOk(s: State) {
    && !s.panicked && s.announced <= s.time
    && (forall c :: c in s.subs ==> c in s.streams && !s.streams[c].closed)
    && (forall c :: c in s.streams ==> s.streams[c].screen in s.screens)
    && (forall c :: c in s.streams && !s.streams[c].phase.Over? ==> c in s.subs)
  }

  lemma HandlersStep(s: State, st: Step)
    requires HandlersOk(s) && Enabled(s, st)
    ensures HandlersOk(Next(s, st))
  {
  }

  lemma HubStep(s: State, st: Step)
    requires HandlersOk(s) && HubOk(s) && Enabled(s, st)
    ensures HubOk(Next(s, st))
  {
  }

  // ---------------------------------------------------------------------------------------------
  // No wake-up is lost.

  /** Some handler still owes a publish, or is about to send to `c`. */
  ghost predicate IsOwed(s: State, c: nat) {
    exists h :: h in s.handlers && (s.handlers[h].Owes? || (s.handlers[h].Publishing? && c in s.handlers[h].rest))
  }

  /** A nudge for `c` is on its way inside the daemon. */
  ghost predicate NudgeComes(s: State, c: nat, x: Stream) {
    IsOwed(s, c) || x.token || x.phase.Sending? || x.phase.Greeting?
  }

  /** Generations are issued in order, and the newest is in flight until it is applied. */
  ghost predicate IsModel(m: Model) {
    && m.appliedSeq <= m.fetchSeq
    && (m.fetchSeq in m.fetches <==> m.appliedSeq < m.fetchSeq)
    && (forall g :: g in m.fetches ==> g <= m.fetchSeq)
  }

  /** The newest fetch was served, or is still to be, after the last announced change. */
  predicate NewestCovers(s: State, m: Model) {
    if m.fetchSeq in m.fetches then
      m.fetches[m.fetchSeq].Answered? ==> m.fetches[m.fetchSeq].answer.at >= s.announced
    else m.failed || (m.shown.Some? && m.shown.value.at >= s.announced)
  }

  ghost predicate StreamOk(s: State, c: nat, x: Stream, y: Screen) {
    !x.phase.Over? ==>
      && (x.nudged >= s.announced || NudgeComes(s, c, x))
      && (NudgeComes(s, c, x) || x.wire > 0 || y.slot || NewestCovers(s, y.model))
  }

  ghost predicate StreamsOk(s: State) {
    forall c :: c in s.streams && s.streams[c].screen in s.screens ==>
      StreamOk(s, c, s.streams[c], s.screens[s.streams[c].screen])
  }

  ghost predicate ModelsOk(s: State) {
    forall d :: d in s.screens ==> IsModel(s.screens[d].model)
  }

  /** A step on a model keeps its generations, and never loses what its newest fetch covers. */
  lemma ModelStep(s: State, m: Model, st: Step)
    requires IsModel(m)
    requires st.Serve? ==> st.gen in m.fetches && m.fetches[st.gen].Requested?
    requires st.Apply? ==> st.gen in m.fetches && !m.fetches[st.gen].Requested?
    requires s.announced <= s.time
    ensures IsModel(Fetched(s, m, st))
    ensures NewestCovers(s, m) || st.TakeEvent? || st.Refresh? ==> NewestCovers(s, Fetched(s, m, st))
  {
  }

  lemma ModelsStep(s: State, st: Step)
    requires HubOk(s) && ModelsOk(s) && Enabled(s, st)
    ensures ModelsOk(Next(s, st))
  {
    var s' := Next(s, st);
    forall d | d in s'.screens
      ensures IsModel(s'.screens[d].model)
    {
      if d in s.screens {
        ScreenStep(s, st, d);
      }
    }
  }

  /** What a step may do to a dashboard: set or take its event, or move its model. */
  lemma ScreenStep(s: State, st: Step, d: nat)
    requires HubOk(s) && Enabled(s, st) && d in s.screens && IsModel(s.screens[d].model)
    ensures var y, y' := s.screens[d], Next(s, st).screens[d];
            && IsModel(y'.model)
            && (y.slot && !(st.TakeEvent? && st.d == d) ==> y'.slot)
            && (NewestCovers(s, y.model) || (st.TakeEvent? && st.d == d) ==> NewestCovers(s, y'.model))
  {
    ModelStep(s, s.screens[d].model, if TouchesModel(st) && st.d == d then st else Prune({}));
  }

  predicate TouchesModel(st: Step) {
    st.TakeEvent? || st.Refresh? || st.Serve? || st.Apply?
  }

  lemma OwedStep(s: State, st: Step, c: nat)
    requires HandlersOk(s) && HubOk(s) && Enabled(s, st) && IsOwed(s, c) && c in s.subs
    ensures IsOwed(Next(s, st), c) || (st.Deliver? && st.c == c)
  {
    var h :| h in s.handlers && (s.handlers[h].Owes? || (s.handlers[h].Publishing? && c in s.handlers[h].rest));
    var s' := Next(s, st);
    if !(st.Deliver? && st.c == c) {
      assert h in s'.handlers && (s'.handlers[h].Owes? || (s'.handlers[h].Publishing? && c in s'.handlers[h].rest));
    }
  }

  lemma AnnouncedIsOwed(s: State, st: Step, c: nat)
    requires Enabled(s, st) && Announces(s, st)
    ensures IsOwed(Next(s, st), c)
  {
    assert Next(s, st).handlers[st.h].Owes?;
  }

  /** A nudge on its way stays on its way until it is sent. */
  lemma NudgeStep(s: State, st: Step, c: nat)
    requires HandlersOk(s) && HubOk(s) && Enabled(s, st) && c in s.streams && !s.streams[c].phase.Over?
    requires NudgeComes(s, c, s.streams[c])
    ensures var x' := Next(s, st).streams[c];
            NudgeComes(Next(s, st), c, x') || x'.phase.Over? || (x'.nudged == s.time && x'.wire > 0)
  {
    if IsOwed(s, c) {
      OwedStep(s, st, c);
    }
  }

  lemma StreamStep(s: State, st: Step, c: nat)
    requires HandlersOk(s) && HubOk(s) && ModelsOk(s) && Enabled(s, st) && c in s.streams
    requires StreamOk(s, c, s.streams[c], s.screens[s.streams[c].screen])
    ensures var s' := Next(s, st); StreamOk(s', c, s'.streams[c], s'.screens[s.streams[c].screen])
  {
    var x, d := s.streams[c], s.streams[c].screen;
    ScreenStep(s, st, d);
    if Announces(s, st) {
      AnnouncedIsOwed(s, st, c);
    } else if !x.phase.Over? && NudgeComes(s, c, x) {
      NudgeStep(s, st, c);
    }
  }

  lemma StreamsStep(s: State, st: Step)
    requires HandlersOk(s) && HubOk(s) && ModelsOk(s) && StreamsOk(s) && Enabled(s, st)
    ensures StreamsOk(Next(s, st))
  {
    var s' := Next(s, st);
    forall c | c in s'.streams && s'.streams[c].screen in s'.screens
      ensures StreamOk(s', c, s'.streams[c], s'.screens[s'.streams[c].screen])
    {
      if c in s.streams {
        StreamStep(s, st, c);
      }
    }
  }

  ghost predicate AllOk(s: State) {
    HandlersOk(s) && HubOk(s) && ModelsOk(s) && StreamsOk(s)
  }

  lemma AllStep(s: State, st: Step)
    requires AllOk(s) && Enabled(s, st)
    ensures AllOk(Next(s, st))
  {
    HandlersStep(s, st);
    HubStep(s, st);
    ModelsStep(s, st);
    StreamsStep(s, st);
  }

  lemma {:induction false} RunsAreOk(ss: seq<State>, steps: seq<Step>)
    requires IsRun(ss, steps)
    ensures AllOk(ss[|steps|]) && ss[|steps|].time == |steps|
  {
    if steps != [] {
      var n := |steps| - 1;
      RunsAreOk(ss[..n + 1], steps[..n]);
      assert Follows(ss[n], steps[n], ss[n + 1]);
      AllStep(ss[n], steps[n]);
    }
  }

  /** In every state of every run, no channel has been sent on after it was closed, or closed twice; and
      a live subscriber whose last event predates the last announced change has a token waiting, an event
      being sent, or a handler that still owes it a publish. */
  lemma NoLostWakeUp(ss: seq<State>, steps: seq<Step>, c: nat)
    requires IsRun(ss, steps) && c in ss[|steps|].streams && !ss[|steps|].streams[c].phase.Over?
    ensures var s := ss[|steps|];
            && !s.panicked
            && (s.streams[c].nudged < s.announced ==> NudgeComes(s, c, s.streams[c]))
  {
    RunsAreOk(ss, steps);
  }
}
