/** Which bucket everything is counted in: the daily table, told bucket by bucket over a run. */
module LedgerBuckets {
  import opened Basics
  import opened Tallies
  import opened StringOrder
  import opened LedgerRules

  /** The instant falls on that UTC day. */
  predicate IsOn(at: Option<Instant>, d: Day) {
    at.Some? && d * DAY_LENGTH <= at.value < (d + 1) * DAY_LENGTH
  }

  lemma DayIsOn(at: Option<Instant>, d: Day)
    ensures DayOf(at) == Some(d) <==> IsOn(at, d)
  {
  }

  /** The status whose time a column holds. */
  function TimedStatus(f: Figure): Option<string> {
    match f
    case Output => None
    case WorkingSeconds => Some("working")
    case WaitingSeconds => Some("waiting")
    case IdleSeconds => Some("idle")
  }

  /** What a call counts in one column of one bucket: a rollup, what its session's mark grows by, on the
      report's own day and model; an event, the whole seconds since the session's previous one, on the day
      of that previous one, in the column of its status and under the report's model. */
  function CountedBy(t: Tables, c: Call, k: Key, f: Figure): int {
    if !Commits(t, c) then 0
    else
      match c
      case RollUp(session, _, at, model, _) =>
        if f.Output? && IsOn(at, k.day) && model == k.model
        then Held(Apply(t, c).marks, session) - Held(t.marks, session)
        else 0
      case Close(session, _, at, model, _) =>
        var last := LastLogged(t.log, session);
        if last.Some? && TimedStatus(f) == Some(last.value.status) && IsOn(last.value.at, k.day) && model == k.model &&
           at.Some? && at.value > last.value.at.value
        then (at.value - last.value.at.value) / SECOND
        else 0
      case _ => 0
  }

  /** What an operator shifts: a move empties one bucket into another of the same day, a correction writes
      over a token figure, a deletion takes a bucket away. */
  function ShiftedBy(t: Tables, c: Call, k: Key, f: Figure): int {
    var held := Of(Figures(t.daily, k), f);
    if !Commits(t, c) then 0
    else
      match c
      case Move(day, from, to, _) =>
        if from == to || k.day != day then 0
        else if k.model == from then -held
        else if k.model == to then Of(Figures(t.daily, Key(day, from)), f)
        else 0
      case SetTokens(key, tokens, _) => if key == k && f.Output? then tokens - held else 0
      case Delete(key, _) => if key == k then -held else 0
      case _ => 0
  }

  function CountedIn(cs: seq<Call>, k: Key, f: Figure): int {
    if cs == [] then 0
    else CountedIn(cs[..|cs| - 1], k, f) + CountedBy(Run(cs[..|cs| - 1]), cs[|cs| - 1], k, f)
  }

  function ShiftedIn(cs: seq<Call>, k: Key, f: Figure): int {
    if cs == [] then 0
    else ShiftedIn(cs[..|cs| - 1], k, f) + ShiftedBy(Run(cs[..|cs| - 1]), cs[|cs| - 1], k, f)
  }

  lemma RollUpIsCounted(t: Tables, c: Call, k: Key, f: Figure)
    requires c.RollUp?
    ensures Of(Figures(Apply(t, c).daily, k), f) == Of(Figures(t.daily, k), f) + CountedBy(t, c, k, f)
  {
    DayIsOn(c.at, k.day);
  }

  lemma CloseIsCounted(t: Tables, c: Call, k: Key, f: Figure)
    requires c.Close?
    ensures Of(Figures(Apply(t, c).daily, k), f) == Of(Figures(t.daily, k), f) + CountedBy(t, c, k, f)
  {
    var last := LastLogged(t.log, c.session);
    if last.Some? {
      DayIsOn(last.value.at, k.day);
      var iv := IntervalSince(last, c.at, c.model);
      SecondsAreAdded(t.daily, iv, k, f);
    }
  }

  lemma SecondsAreAdded(daily: map<Key, Bucket>, iv: Interval, k: Key, f: Figure)
    ensures Of(Figures(AddSeconds(daily, iv.key, iv.status, iv.secs), k), f) ==
            Of(Figures(daily, k), f) +
            if k == iv.key && TimedStatus(f) == Some(iv.status) && iv.secs > 0 then iv.secs else 0
  {
  }

  lemma CallIsCounted(t: Tables, c: Call, k: Key, f: Figure)
    ensures Of(Figures(Apply(t, c).daily, k), f) ==
            Of(Figures(t.daily, k), f) + CountedBy(t, c, k, f) + ShiftedBy(t, c, k, f)
  {
    if c.RollUp? {
      RollUpIsCounted(t, c, k, f);
    } else if c.Close? {
      CloseIsCounted(t, c, k, f);
    }
  }

  /** Over any run, every figure of every bucket is exactly what was counted in it, and what operators
      shifted. */
  lemma {:induction false} BucketsAreConserved(cs: seq<Call>, k: Key, f: Figure)
    ensures Of(Figures(Run(cs).daily, k), f) == CountedIn(cs, k, f) + ShiftedIn(cs, k, f)
  {
    if cs != [] {
      var n := |cs| - 1;
      BucketsAreConserved(cs[..n], k, f);
      CallIsCounted(Run(cs[..n]), cs[n], k, f);
    }
  }

  /** Without operators nothing is shifted, and a bucket is what was counted in it. */
  lemma {:induction false} NothingShifts(cs: seq<Call>, k: Key, f: Figure)
    requires forall i :: 0 <= i < |cs| ==> !cs[i].Move? && !cs[i].SetTokens? && !cs[i].Delete?
    ensures ShiftedIn(cs, k, f) == 0
  {
    if cs != [] {
      NothingShifts(cs[..|cs| - 1], k, f);
    }
  }

  // ---------------------------------------------------------------------------------------------
  // The previous event of a session, told over the run.

  /** Call `i` logged an event of the session. */
  predicate LogsAt(cs: seq<Call>, session: string, i: nat)
    requires i < |cs|
  {
    Logs(Run(cs[..i]), cs[i], session)
  }

  /** Call `i` pruned the session: its last report, or without one its last activity, is before the cutoff. */
  predicate PrunesAt(cs: seq<Call>, session: string, i: nat)
    requires i < |cs|
  {
    var t := Run(cs[..i]);
    && cs[i].Prune? && cs[i].commits && session in t.sessions
    && var seen := t.sessions[session];
       Less(if seen.lastReport == "" then seen.lastSeen else seen.lastReport, cs[i].cutoff)
  }

  predicate TouchesLog(cs: seq<Call>, session: string, i: nat)
    requires i < |cs|
  {
    LogsAt(cs, session, i) || PrunesAt(cs, session, i)
  }

  ghost predicate IsLastTouch(cs: seq<Call>, session: string, i: nat) {
    i < |cs| && TouchesLog(cs, session, i) && forall j :: i < j < |cs| ==> !TouchesLog(cs, session, j)
  }

  lemma TouchStep(cs: seq<Call>, session: string)
    requires cs != []
    ensures var n := |cs| - 1;
            LastLogged(Run(cs).log, session) ==
            if LogsAt(cs, session, n) then Some(Logged(session, cs[n].status, cs[n].at))
            else if PrunesAt(cs, session, n) then None
            else LastLogged(Run(cs[..n]).log, session)
  {
    var t, c := Run(cs[..|cs| - 1]), cs[|cs| - 1];
    LogIsAfter(t, c);
    if Commits(t, c) {
      if c.Prune? {
        LastLoggedKept(t.log, Stale(t, c.cutoff), session);
      } else if c.Close? {
        var e := Logged(c.session, c.status, c.at);
        assert (t.log + [e])[..|t.log|] == t.log;
      }
    }
  }

  lemma {:induction false} TouchesBefore(cs: seq<Call>, session: string, i: nat)
    requires i < |cs| - 1
    ensures TouchesLog(cs[..|cs| - 1], session, i) <==> TouchesLog(cs, session, i)
    ensures LogsAt(cs[..|cs| - 1], session, i) <==> LogsAt(cs, session, i)
  {
    assert cs[..|cs| - 1][..i] == cs[..i];
  }

  /** Pruning takes the sessions last heard of before the cutoff, with their events, and nothing else. */
  lemma PruneIsTold(t: Tables, cutoff: string)
    ensures var t' := Pruned(t, cutoff);
            && t'.marks == t.marks && t'.daily == t.daily
            && (forall id :: id in t'.sessions <==>
                  && id in t.sessions
                  && !Less(if t.sessions[id].lastReport == "" then t.sessions[id].lastSeen
                           else t.sessions[id].lastReport, cutoff))
            && (forall e :: e in t'.log <==> e in t.log && (e.session in t.sessions ==> e.session in t'.sessions))
            && Stale(t, cutoff) == t.sessions.Keys - t'.sessions.Keys
  {
    LogWithoutHolds(t.log, Stale(t, cutoff));
  }

  lemma {:induction false} LogWithoutHolds(log: seq<Logged>, gone: set<string>)
    ensures forall e :: e in LogWithout(log, gone) <==> e in log && e.session !in gone
  {
    if log != [] {
      var n := |log| - 1;
      LogWithoutHolds(log[..n], gone);
      assert log == log[..n] + [log[n]];
    }
  }

  /** The event the next interval is measured from is the last one the run logged for the session, if no
      prune has taken the session since. */
  lemma {:induction false} PreviousEventIsTold(cs: seq<Call>, session: string, i: nat)
    ensures IsLastTouch(cs, session, i) ==>
              LastLogged(Run(cs).log, session) ==
              if LogsAt(cs, session, i) then Some(Logged(session, cs[i].status, cs[i].at)) else None
    ensures (forall j :: 0 <= j < |cs| ==> !TouchesLog(cs, session, j)) ==> LastLogged(Run(cs).log, session) == None
  {
    if cs != [] {
      var n := |cs| - 1;
      PreviousEventIsTold(cs[..n], session, i);
      TouchStep(cs, session);
      forall j | 0 <= j < n
        ensures TouchesLog(cs[..n], session, j) <==> TouchesLog(cs, session, j)
      {
        TouchesBefore(cs, session, j);
      }
      if IsLastTouch(cs, session, i) && i < n {
        TouchesBefore(cs, session, i);
        assert !TouchesLog(cs, session, n) && IsLastTouch(cs[..n], session, i);
      }
      if forall j :: 0 <= j < |cs| ==> !TouchesLog(cs, session, j) {
        assert !TouchesLog(cs, session, n);
      }
    }
  }
}
