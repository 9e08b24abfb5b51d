/** What a run of the notification protocol leaves on the screens, told over the steps that led there. */
module NotifyHistory {
  import opened Basics
  import opened Notify

  /** The step changes what the dashboards would be served. */
  ghost predicate Changes(ss: seq<State>, k: nat)
    requires k + 1 < |ss|
  {
    ss[k + 1].rows != ss[k].rows
  }

  ghost predicate IsAnnounced(ss: seq<State>, steps: seq<Step>, k: nat)
    requires IsRun(ss, steps) && k < |steps|
  {
    Follows(ss[k], steps[k], ss[k + 1]) && Announces(ss[k], steps[k])
  }

  /** The step changes the board and owes nobody a publish. */
  ghost predicate IsSilent(ss: seq<State>, steps: seq<Step>, k: nat)
    requires IsRun(ss, steps) && k < |steps|
  {
    Changes(ss, k) && !IsAnnounced(ss, steps, k)
  }

  predicate Prunes(st: Step, id: string) {
    st.Prune? && id in st.gone
  }

  lemma {:induction false} TimeIsTold(ss: seq<State>, steps: seq<Step>, n: nat)
    requires IsRun(ss, steps) && n <= |steps|
    ensures AllOk(ss[n]) && ss[n].time == n
  {
    assert IsRun(ss[..n + 1], steps[..n]);
    RunsAreOk(ss[..n + 1], steps[..n]);
  }

  // ---------------------------------------------------------------------------------------------
  // The board over a run.

  /** The version moves with the board, and only forward. */
  lemma {:induction false} VersionIsTold(ss: seq<State>, steps: seq<Step>, i: nat, j: nat)
    requires IsRun(ss, steps) && i <= j <= |steps|
    ensures ss[i].version <= ss[j].version
    ensures ss[i].version == ss[j].version <==> forall k :: i <= k < j ==> !Changes(ss, k)
    ensures ss[i].version == ss[j].version ==> ss[i].rows == ss[j].rows
    decreases j - i
  {
    if i < j {
      var n := j - 1;
      VersionIsTold(ss, steps, i, n);
      assert Follows(ss[n], steps[n], ss[n + 1]);
      assert Changes(ss, n) <==> ss[n].version != ss[j].version;
    }
  }

  /** `announced` is the time after the last announced change. */
  lemma {:induction false} AnnouncedIsTold(ss: seq<State>, steps: seq<Step>, n: nat)
    requires IsRun(ss, steps) && n <= |steps|
    ensures forall k :: 0 <= k < n && IsAnnounced(ss, steps, k) ==> k < ss[n].announced
    ensures ss[n].announced <= n
  {
    if n > 0 {
      var m := n - 1;
      AnnouncedIsTold(ss, steps, m);
      TimeIsTold(ss, steps, m);
      assert Follows(ss[m], steps[m], ss[m + 1]);
    }
  }

  /** A handler read its row where it says it did; no report has written since; and the row is as it was
      read, unless it has been pruned. */
  ghost predicate ReadsAreTrue(ss: seq<State>, steps: seq<Step>, n: nat)
    requires IsRun(ss, steps) && n <= |steps|
  {
    forall h :: h in ss[n].handlers && ss[n].handlers[h].HasRead? ==> ReadIsTrue(ss, steps, n, h)
  }

  ghost predicate ReadIsTrue(ss: seq<State>, steps: seq<Step>, n: nat, h: nat)
    requires IsRun(ss, steps) && n <= |steps| && h in ss[n].handlers && ss[n].handlers[h].HasRead?
  {
    var x := ss[n].handlers[h];
    && x.at < n && steps[x.at] == Read(h, x.id) && x.seen == Lookup(ss[x.at].rows, x.id)
    && Lookup(ss[n].rows, x.id) == if PrunedBetween(steps, x.at, n, x.id) then None else x.seen
  }

  ghost predicate PrunedBetween(steps: seq<Step>, i: nat, j: nat, id: string)
    requires j <= |steps|
  {
    exists k :: i < k < j && Prunes(steps[k], id)
  }

  lemma ReadStep(ss: seq<State>, steps: seq<Step>, n: nat, h: nat)
    requires IsRun(ss, steps) && n < |steps| && AllOk(ss[n]) && ss[n].time == n
    requires h in ss[n + 1].handlers && ss[n + 1].handlers[h].HasRead?
    requires ReadsAreTrue(ss, steps, n)
    ensures ReadIsTrue(ss, steps, n + 1, h)
  {
    assert Follows(ss[n], steps[n], ss[n + 1]);
    var x := ss[n + 1].handlers[h];
    if x.at < n {
      assert h in ss[n].handlers && ss[n].handlers[h] == x && ReadIsTrue(ss, steps, n, h);
      PrunedStep(steps, x.at, n, x.id);
    }
  }

  lemma PrunedStep(steps: seq<Step>, i: nat, n: nat, id: string)
    requires i < n < |steps|
    ensures PrunedBetween(steps, i, n + 1, id) <==> PrunedBetween(steps, i, n, id) || Prunes(steps[n], id)
  {
  }

  lemma {:induction false} ReadsAreTold(ss: seq<State>, steps: seq<Step>, n: nat)
    requires IsRun(ss, steps) && n <= |steps|
    ensures ReadsAreTrue(ss, steps, n)
  {
    if n > 0 {
      ReadsAreTold(ss, steps, n - 1);
      TimeIsTold(ss, steps, n - 1);
      forall h | h in ss[n].handlers && ss[n].handlers[h].HasRead?
        ensures ReadIsTrue(ss, steps, n, h)
      {
        ReadStep(ss, steps, n - 1, h);
      }
    }
  }

  /** The write puts a row back as it was read, after the row was pruned. */
  ghost predicate Restores(ss: seq<State>, steps: seq<Step>, k: nat)
    requires IsRun(ss, steps) && k < |steps|
  {
    && steps[k].Write? && steps[k].ok
    && steps[k].h in ss[k].handlers && ss[k].handlers[steps[k].h].HasRead?
    && var x := ss[k].handlers[steps[k].h];
       x.seen == Some(steps[k].look) && PrunedBetween(steps, x.at, k, x.id)
  }

  ghost predicate PrunesSome(ss: seq<State>, steps: seq<Step>, k: nat)
    requires IsRun(ss, steps) && k < |steps|
  {
    steps[k].Prune? && exists id :: id in steps[k].gone && id in ss[k].rows
  }

  /** Exactly two things change the stored rows and tell nobody: pruning one that is there, and a report that
      puts back, unchanged, a row pruned since it read it. */
  lemma SilenceIsTold(ss: seq<State>, steps: seq<Step>, k: nat)
    requires IsRun(ss, steps) && k < |steps|
    ensures IsSilent(ss, steps, k) <==> PrunesSome(ss, steps, k) || Restores(ss, steps, k)
    ensures IsAnnounced(ss, steps, k) ==> Changes(ss, k)
  {
    ReadsAreTold(ss, steps, k);
    assert Follows(ss[k], steps[k], ss[k + 1]);
    var st := steps[k];
    if st.Write? {
      assert ReadIsTrue(ss, steps, k, st.h);
      var x := ss[k].handlers[st.h];
      if st.ok {
        assert ss[k + 1].rows[x.id] == st.look;
        assert Lookup(ss[k].rows, x.id) == Some(st.look) ==> ss[k].rows[x.id := st.look] == ss[k].rows;
      }
    } else if st.Prune? {
      assert !PrunesSome(ss, steps, k) ==> ss[k].rows - st.gone == ss[k].rows;
    }
  }

  // ---------------------------------------------------------------------------------------------
  // The answers on a screen.

  /** The answer is what its step served: the board as it stood there. */
  ghost predicate IsServed(ss: seq<State>, steps: seq<Step>, n: nat, d: nat, a: Answer)
    requires IsRun(ss, steps) && n <= |steps|
  {
    && a.at < n && steps[a.at].Serve? && steps[a.at].ok && steps[a.at].d == d
    && a.board == ss[a.at].rows && a.version == ss[a.at].version
  }

  ghost predicate AnswersAreTrue(ss: seq<State>, steps: seq<Step>, n: nat, d: nat)
    requires IsRun(ss, steps) && n <= |steps| && d in ss[n].screens
  {
    var m := ss[n].screens[d].model;
    && (m.shown.Some? ==> IsServed(ss, steps, n, d, m.shown.value))
    && (forall g :: g in m.fetches && m.fetches[g].Answered? ==>
          IsServed(ss, steps, n, d, m.fetches[g].answer) && steps[m.fetches[g].answer.at].gen == g)
  }

  lemma AnswersStep(ss: seq<State>, steps: seq<Step>, n: nat, d: nat)
    requires IsRun(ss, steps) && n < |steps| && ss[n].time == n
    requires d in ss[n].screens && d in ss[n + 1].screens && AnswersAreTrue(ss, steps, n, d)
    ensures AnswersAreTrue(ss, steps, n + 1, d)
  {
    assert Follows(ss[n], steps[n], ss[n + 1]);
    var m, m', st := ss[n].screens[d].model, ss[n + 1].screens[d].model, steps[n];
    assert m' == if TouchesModel(st) && st.d == d then Fetched(ss[n], m, st) else m;
  }

  lemma {:induction false} AnswersAreTold(ss: seq<State>, steps: seq<Step>, n: nat, d: nat)
    requires IsRun(ss, steps) && n <= |steps| && d in ss[n].screens
    ensures AnswersAreTrue(ss, steps, n, d)
  {
    if n > 0 {
      TimeIsTold(ss, steps, n - 1);
      assert Follows(ss[n - 1], steps[n - 1], ss[n]);
      if d in ss[n - 1].screens {
        AnswersAreTold(ss, steps, n - 1, d);
        AnswersStep(ss, steps, n - 1, d);
      }
    }
  }

  // ---------------------------------------------------------------------------------------------
  // What a quiet screen shows.

  /** Nothing is under way for `c`: no nudge, no event, no fetch; and its last fetch did not fail. */
  ghost predicate IsQuiet(s: State, c: nat) {
    && c in s.streams && s.streams[c].screen in s.screens
    && var x, y := s.streams[c], s.screens[s.streams[c].screen];
       && !x.phase.Over? && !NudgeComes(s, c, x) && x.wire == 0
       && !y.slot && y.model.fetches == map[] && !y.model.failed
  }

  function ShownTo(s: State, c: nat): Option<Answer> {
    if c in s.streams && s.streams[c].screen in s.screens then s.screens[s.streams[c].screen].model.shown else None
  }

  /** A quiet screen shows an answer, and no change was announced after it was served. */
  lemma QuietIsServed(ss: seq<State>, steps: seq<Step>, c: nat)
    requires IsRun(ss, steps) && IsQuiet(ss[|steps|], c)
    ensures ShownTo(ss[|steps|], c).Some?
    ensures var a := ShownTo(ss[|steps|], c).value;
            && IsServed(ss, steps, |steps|, ss[|steps|].streams[c].screen, a)
            && forall k :: a.at <= k < |steps| ==> !IsAnnounced(ss, steps, k)
  {
    var s := ss[|steps|];
    RunsAreOk(ss, steps);
    assert StreamOk(s, c, s.streams[c], s.screens[s.streams[c].screen]);
    AnswersAreTold(ss, steps, |steps|, s.streams[c].screen);
    AnnouncedIsTold(ss, steps, |steps|);
  }

  /** A quiet screen is current exactly when nothing changed silently after it was served: no row was
      pruned, and no report put a pruned row back. */
  lemma QuietIsCurrent(ss: seq<State>, steps: seq<Step>, c: nat)
    requires IsRun(ss, steps) && IsQuiet(ss[|steps|], c)
    ensures ShownTo(ss[|steps|], c).Some?
    ensures var s, a := ss[|steps|], ShownTo(ss[|steps|], c).value;
            && (a.version == s.version <==>
                forall k :: a.at <= k < |steps| ==> !PrunesSome(ss, steps, k) && !Restores(ss, steps, k))
            && (a.version == s.version ==> a.board == s.rows)
  {
    QuietIsServed(ss, steps, c);
    var a := ShownTo(ss[|steps|], c).value;
    VersionIsTold(ss, steps, a.at, |steps|);
    forall k | a.at <= k < |steps|
      ensures Changes(ss, k) <==> PrunesSome(ss, steps, k) || Restores(ss, steps, k)
    {
      SilenceIsTold(ss, steps, k);
    }
  }

  /** A quiet screen was served after every change a report made exactly when no report, since it was
      served, put back a row that had been pruned under it. */
  lemma QuietShowsReports(ss: seq<State>, steps: seq<Step>, c: nat)
    requires IsRun(ss, steps) && IsQuiet(ss[|steps|], c)
    ensures ShownTo(ss[|steps|], c).Some?
    ensures var a := ShownTo(ss[|steps|], c).value;
            (forall k :: 0 <= k < |steps| && steps[k].Write? && Changes(ss, k) ==> k < a.at) <==>
            (forall k :: a.at <= k < |steps| ==> !Restores(ss, steps, k))
  {
    QuietIsServed(ss, steps, c);
    var at := ShownTo(ss[|steps|], c).value.at;
    forall k | at <= k < |steps|
      ensures steps[k].Write? && Changes(ss, k) <==> Restores(ss, steps, k)
    {
      SilenceIsTold(ss, steps, k);
      assert !IsAnnounced(ss, steps, k);
      assert IsSilent(ss, steps, k) <==> Changes(ss, k);
    }
  }

  /** Since it was served, every row that is still or again on the board looks as it did in the answer,
      and so does every row a handler holds. */
  ghost predicate LooksAgree(ss: seq<State>, n: nat, board: Board)
    requires n < |ss|
  {
    && (forall id :: id in board && id in ss[n].rows ==> ss[n].rows[id] == board[id])
    && (forall h :: h in ss[n].handlers && ss[n].handlers[h].HasRead? ==>
          var x := ss[n].handlers[h]; x.id in board && x.seen.Some? ==> x.seen == Some(board[x.id]))
  }

  lemma {:induction false} LooksStayAgreed(ss: seq<State>, steps: seq<Step>, at: nat, n: nat)
    requires IsRun(ss, steps) && at <= n <= |steps|
    requires forall k :: at <= k < n ==> !IsAnnounced(ss, steps, k)
    ensures LooksAgree(ss, n, ss[at].rows)
    decreases n - at
  {
    if n == at {
      ReadsAreTold(ss, steps, n);
      forall h | h in ss[n].handlers && ss[n].handlers[h].HasRead?
        ensures var x := ss[n].handlers[h];
                x.id in ss[n].rows && x.seen.Some? ==> x.seen == Some(ss[n].rows[x.id])
      {
        assert ReadIsTrue(ss, steps, n, h);
      }
    } else {
      var m := n - 1;
      LooksStayAgreed(ss, steps, at, m);
      assert Follows(ss[m], steps[m], ss[m + 1]) && !IsAnnounced(ss, steps, m);
    }
  }

  /** A quiet screen never shows a session other than as it is: whatever is both on the screen and on the
      board looks the same there, so the two are equal as soon as they hold the same sessions. */
  lemma QuietLooksRight(ss: seq<State>, steps: seq<Step>, c: nat)
    requires IsRun(ss, steps) && IsQuiet(ss[|steps|], c)
    ensures ShownTo(ss[|steps|], c).Some?
    ensures var rows, board := ss[|steps|].rows, ShownTo(ss[|steps|], c).value.board;
            && (forall id :: id in rows && id in board ==> rows[id] == board[id])
            && (board == rows <==> board.Keys == rows.Keys)
  {
    QuietIsServed(ss, steps, c);
    var a := ShownTo(ss[|steps|], c).value;
    LooksStayAgreed(ss, steps, a.at, |steps|);
    var rows, board := ss[|steps|].rows, a.board;
    if board.Keys == rows.Keys {
      forall id | id in board
        ensures rows[id] == board[id]
      {
        assert id in rows.Keys;
      }
    }
  }

  // ---------------------------------------------------------------------------------------------
  // Stepping back.

  /** Generations order the issue of fetches, not their service. Applying an answer puts an older board on
      the screen exactly when it is not dropped, was served before the one it replaces, and the board
      changed between the two. */
  lemma StepsBackIff(ss: seq<State>, steps: seq<Step>, n: nat, d: nat, gen: nat)
    requires IsRun(ss, steps) && n < |steps| && steps[n] == Apply(d, gen)
    requires InFlight(ss[n], d, gen) && ss[n].screens[d].model.shown.Some?
    ensures d in ss[n + 1].screens
    ensures var m, m' := ss[n].screens[d].model, ss[n + 1].screens[d].model;
            var f, was := m.fetches[gen], m.shown.value;
            (m'.shown.Some? && m'.shown.value.version < was.version) <==>
            && gen > m.appliedSeq && f.Answered? && f.answer.at < was.at
            && exists k :: 0 <= k < n && f.answer.at <= k < was.at && Changes(ss, k)
  {
    assert Follows(ss[n], steps[n], ss[n + 1]);
    AnswersAreTold(ss, steps, n, d);
    var m := ss[n].screens[d].model;
    var f, was := m.fetches[gen], m.shown.value;
    if f.Answered? {
      if f.answer.at <= was.at {
        VersionIsTold(ss, steps, f.answer.at, was.at);
      } else {
        VersionIsTold(ss, steps, was.at, f.answer.at);
      }
    }
  }

  // ---------------------------------------------------------------------------------------------
  // Runs in which the promises fail.

  lemma Take(ss: seq<State>, steps: seq<Step>, st: Step) returns (ss': seq<State>, steps': seq<Step>, s': State)
    requires IsRun(ss, steps) && Enabled(ss[|steps|], st)
    ensures ss' == ss + [s'] && steps' == steps + [st] && s' == Next(ss[|steps|], st)
    ensures IsRun(ss', steps') && |steps'| == |steps| + 1 && ss'[|steps'|] == s'
  {
    s' := Next(ss[|steps|], st);
    ss', steps' := ss + [s'], steps + [st];
    forall i | 0 <= i < |steps'|
      ensures Follows(ss'[i], steps'[i], ss'[i + 1])
    {
      if i < |steps| {
        assert Follows(ss[i], steps[i], ss[i + 1]);
      }
    }
  }

  const A_ROW: Board := map["a" := 1]
  const NO_ROWS: Board := map[]

  /** What the runs below leave behind: the one dashboard's stream once it listens, a report that has read
      the row, and the dashboard with the board from before the first report on its way. */
  const LISTENING: map<nat, Stream> := map[0 := Stream(0, false, false, Listening, 6, 0)]
  const READING: map<nat, Handler> := map[1 := HasRead("a", Some(1), 13)]
  const EMPTY_COMES := Model(2, 0, map[1 := Requested, 2 := Answered(Answer(NO_ROWS, 0, 2))], None, false)

  /** A state in which nobody is inside the hub. */
  function Between(rows: Board, version: nat, time: nat, announced: nat, applying: Option<nat>,
                   handlers: map<nat, Handler>, streams: map<nat, Stream>, model: Model, slot: bool): State
  {
    State(rows, version, time, announced, applying, handlers, None, streams.Keys, streams,
          map[0 := Screen(slot, model)], false)
  }

  lemma ARefreshedScreen() returns (ss: seq<State>, steps: seq<Step>)
    ensures IsRun(ss, steps) && |steps| == 3
    ensures ss[3] == Between(NO_ROWS, 0, 3, 0, None, map[], map[], EMPTY_COMES, false)
  {
    var s;
    ss, steps := [START], [];
    ss, steps, s := Take(ss, steps, Open(0));
    ss, steps, s := Take(ss, steps, Refresh(0));
    assert s.screens[0].model.fetches == map[1 := Requested, 2 := Requested];
    ss, steps, s := Take(ss, steps, Serve(0, 2, true));
    assert s.screens[0].model.fetches == map[1 := Requested, 2 := Answered(Answer(NO_ROWS, 0, 2))];
  }

  lemma AReportLater() returns (ss: seq<State>, steps: seq<Step>)
    ensures IsRun(ss, steps) && |steps| == 5
    ensures ss[5] == Between(A_ROW, 1, 5, 5, None, map[0 := Owes], map[], EMPTY_COMES, false)
  {
    var s;
    ss, steps := ARefreshedScreen();
    ss, steps, s := Take(ss, steps, Read(0, "a"));
    assert s.handlers == map[0 := HasRead("a", None, 3)];
    ss, steps, s := Take(ss, steps, Write(0, 1, true));
  }

  /** A dashboard refreshed twice, with a report in between: the first fetch is served last, its answer is
      shown, and then the second takes its place with the board from before the report. */
  lemma AScreenStepsBack() returns (ss: seq<State>, steps: seq<Step>)
    ensures IsRun(ss, steps) && |steps| == 8 && steps[7] == Apply(0, 2)
    ensures 0 in ss[7].screens && ss[7].screens[0].model.shown == Some(Answer(A_ROW, 1, 5))
    ensures 0 in ss[8].screens && ss[8].screens[0].model.shown == Some(Answer(NO_ROWS, 0, 2))
    ensures ss[8].rows == A_ROW
  {
    var s;
    ss, steps := AReportLater();
    ss, steps, s := Take(ss, steps, Serve(0, 1, true));
    ss, steps, s := Take(ss, steps, Apply(0, 1));
    assert s.screens[0].model.fetches == map[2 := Answered(Answer(NO_ROWS, 0, 2))];
    ss, steps, s := Take(ss, steps, Apply(0, 2));
  }

  lemma AReportedRow() returns (ss: seq<State>, steps: seq<Step>)
    ensures IsRun(ss, steps) && |steps| == 3
    ensures ss[3] == Between(A_ROW, 1, 3, 3, None, map[0 := Owes], map[], OPENED, false)
  {
    var s;
    ss, steps := [START], [];
    ss, steps, s := Take(ss, steps, Open(0));
    ss, steps, s := Take(ss, steps, Read(0, "a"));
    assert s.handlers == map[0 := HasRead("a", None, 1)];
    ss, steps, s := Take(ss, steps, Write(0, 1, true));
  }

  lemma ASubscribedScreen() returns (ss: seq<State>, steps: seq<Step>)
    ensures IsRun(ss, steps) && |steps| == 6
    ensures ss[6] == Between(A_ROW, 1, 6, 3, None, map[],
                             map[0 := Stream(0, false, false, Greeting, 0, 0)], OPENED, false)
  {
    var s;
    ss, steps := AReportedRow();
    ss, steps, s := Take(ss, steps, StartPublish(0));
    ss, steps, s := Take(ss, steps, EndPublish(0));
    assert s.handlers == map[];
    ss, steps, s := Take(ss, steps, Subscribe(0, 0));
  }

  lemma ANudgedScreen() returns (ss: seq<State>, steps: seq<Step>)
    ensures IsRun(ss, steps) && |steps| == 9
    ensures ss[9] == Between(A_ROW, 1, 9, 3, None, map[], LISTENING,
                             Model(2, 0, map[1 := Requested, 2 := Requested], None, false), false)
  {
    var s;
    ss, steps := ASubscribedScreen();
    ss, steps, s := Take(ss, steps, Greet(0, true));
    ss, steps, s := Take(ss, steps, ReadLine(0));
    assert s.streams == LISTENING && s.screens == map[0 := Screen(true, OPENED)];
    ss, steps, s := Take(ss, steps, TakeEvent(0));
  }

  lemma AServedScreen() returns (ss: seq<State>, steps: seq<Step>)
    ensures IsRun(ss, steps) && |steps| == 11
    ensures ss[11] == Between(A_ROW, 1, 11, 3, None, map[], LISTENING,
                             Model(2, 2, map[1 := Requested], Some(Answer(A_ROW, 1, 9)), false), false)
  {
    var s;
    ss, steps := ANudgedScreen();
    ss, steps, s := Take(ss, steps, Serve(0, 2, true));
    assert s.screens[0].model.fetches == map[1 := Requested, 2 := Answered(Answer(A_ROW, 1, 9))];
    ss, steps, s := Take(ss, steps, Apply(0, 2));
    assert s.screens[0].model.fetches == map[1 := Requested];
  }

  lemma AQuietScreen() returns (ss: seq<State>, steps: seq<Step>)
    ensures IsRun(ss, steps) && |steps| == 13
    ensures ss[13] == Between(A_ROW, 1, 13, 3, None, map[], LISTENING,
                             Model(2, 2, map[], Some(Answer(A_ROW, 1, 9)), false), false)
  {
    var s;
    ss, steps := AServedScreen();
    ss, steps, s := Take(ss, steps, Serve(0, 1, false));
    ss, steps, s := Take(ss, steps, Apply(0, 1));
  }

  /** A quiet screen shows a row that is gone: it was pruned, while a report that had read it was still on its
      way to write. */
  lemma APruneIsSilent() returns (ss: seq<State>, steps: seq<Step>)
    ensures IsRun(ss, steps) && |steps| == 15
    ensures ss[15] == Between(NO_ROWS, 2, 15, 3, Some(1), READING, LISTENING,
                             Model(2, 2, map[], Some(Answer(A_ROW, 1, 9)), false), false)
    ensures IsQuiet(ss[15], 0) && ShownTo(ss[15], 0).value.board != ss[15].rows
  {
    var s;
    ss, steps := AQuietScreen();
    ss, steps, s := Take(ss, steps, Read(1, "a"));
    assert s.handlers == map[1 := HasRead("a", Some(1), 13)];
    ss, steps, s := Take(ss, steps, Prune({"a"}));
  }

  lemma AScreenRefreshed() returns (ss: seq<State>, steps: seq<Step>)
    ensures IsRun(ss, steps) && |steps| == 18
    ensures ss[18] == Between(NO_ROWS, 2, 18, 3, Some(1), READING, LISTENING,
                             Model(3, 3, map[], Some(Answer(NO_ROWS, 2, 16)), false), false)
  {
    var s;
    ss, steps := APruneIsSilent();
    ss, steps, s := Take(ss, steps, Refresh(0));
    ss, steps, s := Take(ss, steps, Serve(0, 3, true));
    ss, steps, s := Take(ss, steps, Apply(0, 3));
  }

  /** And then a quiet screen lacks a row that is there: the report put it back as it had read it, saw nothing
      change, and told nobody. */
  lemma ARestoreIsSilent() returns (ss: seq<State>, steps: seq<Step>)
    ensures IsRun(ss, steps) && |steps| == 19
    ensures ss[19] == Between(A_ROW, 3, 19, 3, None, map[], LISTENING,
                             Model(3, 3, map[], Some(Answer(NO_ROWS, 2, 16)), false), false)
    ensures IsQuiet(ss[19], 0) && ShownTo(ss[19], 0).value.board != ss[19].rows
    ensures steps[18].Write? && Restores(ss, steps, 18)
  {
    var s;
    ss, steps := AScreenRefreshed();
    ss, steps, s := Take(ss, steps, Write(1, 1, true));
    assert s.rows == A_ROW && "a" in s.rows && "a" !in ss[18].rows && s.handlers == map[];
    SilenceIsTold(ss, steps, 18);
  }
}
