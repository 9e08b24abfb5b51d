/** The daily ledgers: token marks, daily buckets and the event log, as tables that transactions
    rewrite. What a run of transactions counts is proved against what the run reported. */
module LedgerRules {
  import opened Basics
  import opened StringOrder
  import opened Tallies

  /** A UTC calendar day, counted from the epoch. */
  type Day = int

  const DAY_LENGTH: int := 86_400 * SECOND

  datatype Bucket = Bucket(output: int, working: int, waiting: int, idle: int)

  const EMPTY_BUCKET := Bucket(0, 0, 0, 0)

  datatype Key = Key(day: Day, model: string)

  /** One row of the event log. `at` is None when the report carried no timestamp. */
  datatype Logged = Logged(session: string, status: string, at: Option<Instant>)

  /** What pruning reads of a session row. */
  datatype Seen = Seen(lastReport: string, lastSeen: string)

  datatype Tables = Tables(
    marks: map<string, int>, daily: map<Key, Bucket>, log: seq<Logged>, sessions: map<string, Seen>)

  const NO_ROWS := Tables(map[], map[], [], map[])

  function DayOf(at: Option<Instant>): Option<Day> {
    if at.None? then None else Some(at.value / DAY_LENGTH)
  }

  /** Whole seconds from one instant to a later one; 0 when either is missing or time does not advance. */
  function SecondsBetween(from: Option<Instant>, to: Option<Instant>): nat {
    if from.None? || to.None? || to.value <= from.value then 0 else (to.value - from.value) / SECOND
  }

  function Figures(daily: map<Key, Bucket>, key: Key): Bucket {
    if key in daily then daily[key] else EMPTY_BUCKET
  }

  function AddTokens(daily: map<Key, Bucket>, key: Key, delta: int): map<Key, Bucket> {
    if delta <= 0 then daily
    else var b := Figures(daily, key); daily[key := b.(output := b.output + delta)]
  }

  /** A column of the daily table. */
  datatype Figure = Output | WorkingSeconds | WaitingSeconds | IdleSeconds

  /** The column a status is timed in, if any: time spent otherwise is not kept. */
  function FigureOf(status: string): Option<Figure> {
    match status
    case "working" => Some(WorkingSeconds)
    case "waiting" => Some(WaitingSeconds)
    case "idle" => Some(IdleSeconds)
    case _ => None
  }

  function AddSeconds(daily: map<Key, Bucket>, key: Key, status: string, secs: int): map<Key, Bucket> {
    var b := Figures(daily, key);
    if secs <= 0 then daily
    else if status == "working" then daily[key := b.(working := b.working + secs)]
    else if status == "waiting" then daily[key := b.(waiting := b.waiting + secs)]
    else if status == "idle" then daily[key := b.(idle := b.idle + secs)]
    else daily
  }

  function LastLogged(log: seq<Logged>, session: string): Option<Logged> {
    if log == [] then None
    else if log[|log| - 1].session == session then Some(log[|log| - 1])
    else LastLogged(log[..|log| - 1], session)
  }

  /** The closed interval, ready for its bucket. */
  datatype Interval = Interval(key: Key, status: string, secs: int)

  const NO_INTERVAL := Interval(Key(0, ""), "", 0)

  /** The whole interval goes to the day it started on. */
  function IntervalSince(last: Option<Logged>, at: Option<Instant>, model: string): Interval {
    if last.None? then NO_INTERVAL
    else
      var day := DayOf(last.value.at);
      if day.None? then NO_INTERVAL
      else Interval(Key(day.value, model), last.value.status, SecondsBetween(last.value.at, at))
  }

  // ---------------------------------------------------------------------------------------------
  // The transactions, when they commit.

  function RolledUp(t: Tables, session: string, total: int, key: Key): Tables {
    var counted := Held(t.marks, session);
    if session == "" || total <= 0 || total <= counted then t
    else t.(marks := t.marks[session := total], daily := AddTokens(t.daily, key, total - counted))
  }

  function Closed(t: Tables, e: Logged, model: string): Tables {
    var iv := IntervalSince(LastLogged(t.log, e.session), e.at, model);
    t.(daily := AddSeconds(t.daily, iv.key, iv.status, iv.secs), log := t.log + [e])
  }

  predicate IsStale(s: Seen, cutoff: string) {
    Less(if s.lastReport != "" then s.lastReport else s.lastSeen, cutoff)
  }

  function Stale(t: Tables, cutoff: string): set<string> {
    set id | id in t.sessions && IsStale(t.sessions[id], cutoff)
  }

  function LogWithout(log: seq<Logged>, gone: set<string>): seq<Logged> {
    if log == [] then []
    else LogWithout(log[..|log| - 1], gone) + if log[|log| - 1].session in gone then [] else [log[|log| - 1]]
  }

  function Pruned(t: Tables, cutoff: string): Tables {
    var gone := Stale(t, cutoff);
    t.(log := LogWithout(t.log, gone), sessions := t.sessions - gone)
  }

  function Sum(a: Bucket, b: Bucket): Bucket {
    Bucket(a.output + b.output, a.working + b.working, a.waiting + b.waiting, a.idle + b.idle)
  }

  function Moved(t: Tables, day: Day, from: string, to: string): Tables {
    var source, target := Key(day, from), Key(day, to);
    if from == to || source !in t.daily then t
    else t.(daily := t.daily[target := Sum(Figures(t.daily, target), t.daily[source])] - {source})
  }

  function TokensSet(t: Tables, key: Key, tokens: int): Tables {
    t.(daily := t.daily[key := Figures(t.daily, key).(output := tokens)])
  }

  function Deleted(t: Tables, key: Key): Tables {
    t.(daily := t.daily - {key})
  }

  // ---------------------------------------------------------------------------------------------
  // Runs.

  /** One call on the store. `commits` is false when its transaction failed. A rollup or an event of a
      report without a timestamp carries no instant. */
  datatype Call =
    | RollUp(session: string, total: int, at: Option<Instant>, model: string, commits: bool)
    | Close(session: string, status: string, at: Option<Instant>, model: string, commits: bool)
    | Write(session: string, seen: Seen, commits: bool)
    | Prune(cutoff: string, commits: bool)
    | Move(day: Day, from: string, to: string, commits: bool)
    | SetTokens(key: Key, tokens: int, commits: bool)
    | Delete(key: Key, commits: bool)

  /** The log refers to the session row: without one, the transaction that appends fails. */
  predicate Commits(t: Tables, c: Call) {
    c.commits && (c.Close? ==> c.session in t.sessions)
  }

  function Apply(t: Tables, c: Call): Tables {
    if !Commits(t, c) then t
    else
      match c
      case RollUp(session, total, at, model, _) =>
        var day := DayOf(at);
        if day.None? then t else RolledUp(t, session, total, Key(day.value, model))
      case Close(session, status, at, model, _) => Closed(t, Logged(session, status, at), model)
      case Write(session, seen, _) => t.(sessions := t.sessions[session := seen])
      case Prune(cutoff, _) => Pruned(t, cutoff)
      case Move(day, from, to, _) => Moved(t, day, from, to)
      case SetTokens(key, tokens, _) => TokensSet(t, key, tokens)
      case Delete(key, _) => Deleted(t, key)
  }

  function RunFrom(t: Tables, cs: seq<Call>): Tables {
    if cs == [] then t else Apply(RunFrom(t, cs[..|cs| - 1]), cs[|cs| - 1])
  }

  function Run(cs: seq<Call>): Tables {
    RunFrom(NO_ROWS, cs)
  }

  // ---------------------------------------------------------------------------------------------
  // Tokens.

  function Of(b: Bucket, f: Figure): int {
    match f
    case Output => b.output
    case WorkingSeconds => b.working
    case WaitingSeconds => b.waiting
    case IdleSeconds => b.idle
  }

  function Column(daily: map<Key, Bucket>, f: Figure): map<Key, int> {
    map k | k in daily :: Of(daily[k], f)
  }

  /** What a column adds up to, over all days and models. */
  ghost function Counted(t: Tables, f: Figure): int {
    Total(Column(t.daily, f))
  }

  lemma BucketSet(daily: map<Key, Bucket>, key: Key, b: Bucket, f: Figure)
    ensures Total(Column(daily[key := b], f)) == Total(Column(daily, f)) + Of(b, f) - Of(Figures(daily, key), f)
    ensures Total(Column(daily - {key}, f)) == Total(Column(daily, f)) - Of(Figures(daily, key), f)
  {
    assert Column(daily[key := b], f) == Column(daily, f)[key := Of(b, f)];
    assert Column(daily - {key}, f) == Column(daily, f) - {key};
    TotalSet(Column(daily, f), key, Of(b, f));
    TotalRemoved(Column(daily, f), key);
  }

  lemma MoveKeepsSums(t: Tables, day: Day, from: string, to: string, f: Figure)
    ensures Counted(Moved(t, day, from, to), f) == Counted(t, f)
  {
    var source, target := Key(day, from), Key(day, to);
    if from != to && source in t.daily {
      var sum := Sum(Figures(t.daily, target), t.daily[source]);
      BucketSet(t.daily, target, sum, f);
      BucketSet(t.daily[target := sum], source, sum, f);
    }
  }

  /** What an operator's repair does to a column, beyond all counting. */
  function Repair(t: Tables, c: Call, f: Figure): int {
    if !Commits(t, c) then 0
    else
      match c
      case SetTokens(key, tokens, _) => if f.Output? then tokens - Figures(t.daily, key).output else 0
      case Delete(key, _) => -Of(Figures(t.daily, key), f)
      case _ => 0
  }

  function Repairs(cs: seq<Call>, f: Figure): int {
    if cs == [] then 0 else Repairs(cs[..|cs| - 1], f) + Repair(Run(cs[..|cs| - 1]), cs[|cs| - 1], f)
  }

  /** The seconds a call counts in a column. */
  function Timed(t: Tables, c: Call, f: Figure): nat {
    if !Commits(t, c) || !c.Close? then 0
    else
      var iv := IntervalSince(LastLogged(t.log, c.session), c.at, c.model);
      if FigureOf(iv.status) == Some(f) && iv.secs > 0 then iv.secs else 0
  }

  function TimedIn(cs: seq<Call>, f: Figure): nat {
    if cs == [] then 0 else TimedIn(cs[..|cs| - 1], f) + Timed(Run(cs[..|cs| - 1]), cs[|cs| - 1], f)
  }

  lemma AddSecondsAdds(daily: map<Key, Bucket>, key: Key, status: string, secs: int, f: Figure)
    ensures Total(Column(AddSeconds(daily, key, status, secs), f)) ==
            Total(Column(daily, f)) + if FigureOf(status) == Some(f) && secs > 0 then secs else 0
  {
    var after := AddSeconds(daily, key, status, secs);
    if after != daily {
      BucketSet(daily, key, after[key], f);
      assert after == daily[key := after[key]];
    }
  }

  lemma AddTokensAdds(daily: map<Key, Bucket>, key: Key, delta: int, f: Figure)
    ensures Total(Column(AddTokens(daily, key, delta), f)) ==
            Total(Column(daily, f)) + if f.Output? && delta > 0 then delta else 0
  {
    if delta > 0 {
      var after := AddTokens(daily, key, delta);
      BucketSet(daily, key, after[key], f);
      assert after == daily[key := after[key]];
    }
  }

  lemma RollUpKeeps(t: Tables, session: string, total: int, key: Key, f: Figure)
    ensures var t' := RolledUp(t, session, total, key);
            Counted(t', f) == Counted(t, f) + if f.Output? then Total(t'.marks) - Total(t.marks) else 0
  {
    AddTokensAdds(t.daily, key, total - Held(t.marks, session), f);
    TotalSet(t.marks, session, total);
  }

  lemma CallCounts(t: Tables, c: Call, f: Figure)
    ensures Counted(Apply(t, c), f) ==
            Counted(t, f) + Timed(t, c, f) + Repair(t, c, f) +
            if f.Output? then Total(Apply(t, c).marks) - Total(t.marks) else 0
  {
    if Commits(t, c) {
      match c {
        case RollUp(session, total, at, model, _) =>
          if at.Some? {
            RollUpKeeps(t, session, total, Key(DayOf(at).value, model), f);
          }
        case Close(session, status, at, model, _) =>
          var iv := IntervalSince(LastLogged(t.log, session), at, model);
          AddSecondsAdds(t.daily, iv.key, iv.status, iv.secs, f);
        case Move(day, from, to, _) => MoveKeepsSums(t, day, from, to, f);
        case SetTokens(key, tokens, _) => BucketSet(t.daily, key, Figures(t.daily, key).(output := tokens), f);
        case Delete(key, _) => BucketSet(t.daily, key, EMPTY_BUCKET, f);
        case Write(_, _, _) =>
        case Prune(_, _) =>
      }
    }
  }

  /** Over any run, with regressions, failures, undated reports, pruning and moved buckets in any order,
      the output column adds up to exactly the tokens the marks say were counted, and each column of
      seconds to exactly the intervals closed in its status; an operator's repair shifts a column by the
      figure it writes over or takes away, and nothing else does. */
  lemma {:induction false} CountsAreConserved(cs: seq<Call>, f: Figure)
    ensures Counted(Run(cs), f) == (if f.Output? then Total(Run(cs).marks) else TimedIn(cs, f)) + Repairs(cs, f)
  {
    if cs != [] {
      CountsAreConserved(cs[..|cs| - 1], f);
      CallCounts(Run(cs[..|cs| - 1]), cs[|cs| - 1], f);
    }
  }

  lemma {:induction false} NoRepairs(cs: seq<Call>, f: Figure)
    requires forall i :: 0 <= i < |cs| ==> !cs[i].SetTokens? && !cs[i].Delete?
    ensures Repairs(cs, f) == 0
  {
    if cs != [] {
      NoRepairs(cs[..|cs| - 1], f);
    }
  }

  /** A rollup that counts: committed, dated, of a named session. */
  predicate Counts(c: Call, session: string) {
    c.RollUp? && c.commits && c.session == session && session != "" && c.at.Some?
  }

  /** A mark is the largest total ever committed for its session, whatever was pruned since. */
  lemma {:induction false} MarkIsTheMaximum(cs: seq<Call>, session: string)
    ensures var mark := Held(Run(cs).marks, session);
            && mark >= 0
            && (forall i :: 0 <= i < |cs| && Counts(cs[i], session) ==> cs[i].total <= mark)
            && (mark > 0 ==> exists i :: 0 <= i < |cs| && Counts(cs[i], session) && cs[i].total == mark)
  {
    if cs != [] {
      var n := |cs| - 1;
      MarkIsTheMaximum(cs[..n], session);
      var before, mark := Held(Run(cs[..n]).marks, session), Held(Run(cs).marks, session);
      if mark != before {
        assert Counts(cs[n], session) && cs[n].total == mark;
      } else if mark > 0 {
        var i :| 0 <= i < n && Counts(cs[..n][i], session) && cs[..n][i].total == mark;
        assert Counts(cs[i], session) && cs[i].total == mark;
      }
      forall i | 0 <= i < |cs| && Counts(cs[i], session)
        ensures cs[i].total <= mark
      {
        assert i < n ==> cs[..n][i] == cs[i];
      }
    }
  }

  // ---------------------------------------------------------------------------------------------
  // Seconds.

  predicate Logs(t: Tables, c: Call, session: string) {
    Commits(t, c) && c.Close? && c.session == session
  }

  /** The seconds a call adds to the buckets on behalf of a session. */
  function Added(t: Tables, c: Call, session: string): nat {
    if !Logs(t, c, session) then 0
    else
      var iv := IntervalSince(LastLogged(t.log, session), c.at, c.model);
      if FigureOf(iv.status).Some? && iv.secs > 0 then iv.secs else 0
  }

  function AddedFor(cs: seq<Call>, session: string): nat {
    if cs == [] then 0
    else AddedFor(cs[..|cs| - 1], session) + Added(Run(cs[..|cs| - 1]), cs[|cs| - 1], session)
  }

  /** The instants of a session's committed events, undated ones left out. */
  function Dates(cs: seq<Call>, session: string): seq<Instant> {
    if cs == [] then []
    else
      var c := cs[|cs| - 1];
      Dates(cs[..|cs| - 1], session) +
      if Logs(Run(cs[..|cs| - 1]), c, session) && c.at.Some? then [c.at.value] else []
  }

  function Span(ds: seq<Instant>): int {
    if ds == [] then 0 else ds[|ds| - 1] - ds[0]
  }

  predicate NonDecreasing(ds: seq<Instant>) {
    forall i, j :: 0 <= i < j < |ds| ==> ds[i] <= ds[j]
  }

  /** How far a session's dates step back, in all. */
  function Backward(ds: seq<Instant>): nat {
    if |ds| <= 1 then 0
    else
      var n := |ds| - 1;
      Backward(ds[..n]) + if ds[n] < ds[n - 1] then ds[n - 1] - ds[n] else 0
  }

  lemma {:induction false} BackwardIsADrop(ds: seq<Instant>)
    ensures Backward(ds) == 0 <==> NonDecreasing(ds)
  {
    if |ds| > 1 {
      var n := |ds| - 1;
      BackwardIsADrop(ds[..n]);
      if NonDecreasing(ds) {
        assert NonDecreasing(ds[..n]);
      } else if NonDecreasing(ds[..n]) {
        var i, j :| 0 <= i < j < |ds| && ds[i] > ds[j];
        assert i < n - 1 ==> ds[..n][i] <= ds[..n][n - 1];
      }
    }
  }

  /** The time a call fails to count: the time its session moved forward, less what it added. */
  function Missed(t: Tables, c: Call, session: string, ds: seq<Instant>): int {
    if !Logs(t, c, session) || c.at.None? || ds == [] then 0
    else
      var last := ds[|ds| - 1];
      (if c.at.value > last then c.at.value - last else 0) - Added(t, c, session) * SECOND
  }

  function MissedFor(cs: seq<Call>, session: string): int {
    if cs == [] then 0
    else
      var before := cs[..|cs| - 1];
      MissedFor(before, session) + Missed(Run(before), cs[|cs| - 1], session, Dates(before, session))
  }

  /** The row the next interval is measured from is the session's last dated event, if it has a date. */
  ghost predicate MarkIsLast(t: Tables, session: string, ds: seq<Instant>) {
    var last := LastLogged(t.log, session);
    last.Some? && last.value.at.Some? ==> ds != [] && ds[|ds| - 1] == last.value.at.value
  }

  lemma {:induction false} LastLoggedKept(log: seq<Logged>, gone: set<string>, session: string)
    ensures LastLogged(LogWithout(log, gone), session) == if session in gone then None else LastLogged(log, session)
  {
    if log != [] {
      var n := |log| - 1;
      LastLoggedKept(log[..n], gone, session);
      var kept := LogWithout(log[..n], gone);
      assert (kept + [log[n]])[..|kept|] == kept;
      assert kept + [] == kept;
    }
  }

  function LogAfter(t: Tables, c: Call): seq<Logged> {
    if c.Close? then t.log + [Logged(c.session, c.status, c.at)]
    else if c.Prune? then LogWithout(t.log, Stale(t, c.cutoff))
    else t.log
  }

  lemma LogIsAfter(t: Tables, c: Call)
    ensures Apply(t, c).log == if Commits(t, c) then LogAfter(t, c) else t.log
  {
  }

  lemma MarkIsLastStep(t: Tables, c: Call, session: string, ds: seq<Instant>)
    requires MarkIsLast(t, session, ds)
    ensures MarkIsLast(Apply(t, c), session, ds + if Logs(t, c, session) && c.at.Some? then [c.at.value] else [])
  {
    LogIsAfter(t, c);
    assert ds + [] == ds;
    if Commits(t, c) {
      if c.Prune? {
        LastLoggedKept(t.log, Stale(t, c.cutoff), session);
      } else if c.Close? {
        var e := Logged(c.session, c.status, c.at);
        assert (t.log + [e])[..|t.log|] == t.log;
      }
    }
  }

  lemma {:induction false} MarksAreLast(cs: seq<Call>, session: string)
    ensures MarkIsLast(Run(cs), session, Dates(cs, session))
  {
    if cs != [] {
      var n := |cs| - 1;
      MarksAreLast(cs[..n], session);
      MarkIsLastStep(Run(cs[..n]), cs[n], session, Dates(cs[..n], session));
    }
  }

  lemma FloorTime(d: int)
    requires d > 0
    ensures 0 <= d / SECOND * SECOND <= d
    ensures d / SECOND * SECOND == d <==> d % SECOND == 0
  {
  }

  /** A call counts no more than the time its session moved forward. */
  lemma MissesNoLess(t: Tables, c: Call, session: string, ds: seq<Instant>)
    requires MarkIsLast(t, session, ds)
    ensures Missed(t, c, session, ds) >= 0
    ensures Logs(t, c, session) && (ds == [] || c.at == None) ==> Added(t, c, session) == 0
  {
    if Logs(t, c, session) {
      var last := LastLogged(t.log, session);
      if last.Some? && last.value.at.Some? && c.at.Some? && c.at.value > last.value.at.value {
        FloorTime(c.at.value - last.value.at.value);
      }
    }
  }

  lemma SpanStep(ds: seq<Instant>, d: Instant)
    ensures Span(ds + [d]) + Backward(ds + [d]) ==
            Span(ds) + Backward(ds) + if ds != [] && d > ds[|ds| - 1] then d - ds[|ds| - 1] else 0
  {
    assert (ds + [d])[..|ds|] == ds;
  }

  lemma SecondsStep(cs: seq<Call>, session: string)
    requires cs != []
    ensures var before, c := cs[..|cs| - 1], cs[|cs| - 1];
            var added := Added(Run(before), c, session);
            var missed := Missed(Run(before), c, session, Dates(before, session));
            && missed >= 0
            && Span(Dates(cs, session)) + Backward(Dates(cs, session)) ==
               Span(Dates(before, session)) + Backward(Dates(before, session)) + added * SECOND + missed
  {
    var before, c := cs[..|cs| - 1], cs[|cs| - 1];
    var t, ds := Run(before), Dates(before, session);
    MarksAreLast(before, session);
    MissesNoLess(t, c, session, ds);
    if Logs(t, c, session) && c.at.Some? {
      SpanStep(ds, c.at.value);
    } else {
      assert ds + [] == ds;
    }
  }

  /** Exactly how the seconds counted for a session relate to its dates: their span, plus whatever the
      dates stepped back, less whatever was missed. */
  lemma {:induction false} SecondsAreTheSpan(cs: seq<Call>, session: string)
    ensures MissedFor(cs, session) >= 0
    ensures AddedFor(cs, session) * SECOND ==
            Span(Dates(cs, session)) + Backward(Dates(cs, session)) - MissedFor(cs, session)
  {
    if cs != [] {
      SecondsAreTheSpan(cs[..|cs| - 1], session);
      SecondsStep(cs, session);
    }
  }

  lemma MissedExactly(t: Tables, c: Call, session: string, ds: seq<Instant>)
    requires MarkIsLast(t, session, ds) && Logs(t, c, session) && c.at.Some?
    requires ds != [] && c.at.value > ds[|ds| - 1]
    ensures var last := LastLogged(t.log, session);
            var secs := (c.at.value - ds[|ds| - 1]) / SECOND;
            var isTimed := last.Some? && last.value.at.Some? && FigureOf(last.value.status).Some?;
            Added(t, c, session) == if isTimed then secs else 0
  {
    FloorTime(c.at.value - ds[|ds| - 1]);
  }

  /** The call times all of its session's move forward: the session's last row is still in the log and
      dated, that row's status has a column, and the interval is a whole number of seconds. */
  predicate IsComplete(t: Tables, c: Call, session: string, ds: seq<Instant>) {
    Logs(t, c, session) && c.at.Some? && ds != [] && c.at.value > ds[|ds| - 1] ==>
      var last := LastLogged(t.log, session);
      && last.Some? && last.value.at.Some? && FigureOf(last.value.status).Some?
      && (c.at.value - ds[|ds| - 1]) % SECOND == 0
  }

  /** A call misses nothing exactly when it is complete. */
  lemma MissesNothing(t: Tables, c: Call, session: string, ds: seq<Instant>)
    requires MarkIsLast(t, session, ds)
    ensures Missed(t, c, session, ds) == 0 <==> IsComplete(t, c, session, ds)
  {
    MissesNoLess(t, c, session, ds);
    if Logs(t, c, session) && c.at.Some? && ds != [] && c.at.value > ds[|ds| - 1] {
      var d := c.at.value - ds[|ds| - 1];
      MissedExactly(t, c, session, ds);
      FloorTime(d);
      assert Missed(t, c, session, ds) == d - Added(t, c, session) * SECOND;
    }
  }

  predicate IsCompleteAt(cs: seq<Call>, session: string, k: nat)
    requires k < |cs|
  {
    IsComplete(Run(cs[..k]), cs[k], session, Dates(cs[..k], session))
  }

  /** Every event of the session closes its interval completely. */
  ghost predicate IsTimedThroughout(cs: seq<Call>, session: string) {
    forall k :: 0 <= k < |cs| ==> IsCompleteAt(cs, session, k)
  }

  lemma TimedPrefix(cs: seq<Call>, session: string)
    requires cs != []
    ensures var n := |cs| - 1;
            IsTimedThroughout(cs, session) <==> IsTimedThroughout(cs[..n], session) && IsCompleteAt(cs, session, n)
  {
    var n := |cs| - 1;
    forall k | 0 <= k < n
      ensures IsCompleteAt(cs[..n], session, k) <==> IsCompleteAt(cs, session, k)
    {
      assert cs[..n][..k] == cs[..k];
    }
  }

  /** Over a run nothing is missed exactly when every interval was closed completely. */
  lemma {:induction false} MissesNothingThroughout(cs: seq<Call>, session: string)
    ensures MissedFor(cs, session) == 0 <==> IsTimedThroughout(cs, session)
  {
    if cs != [] {
      var n := |cs| - 1;
      MissesNothingThroughout(cs[..n], session);
      SecondsAreTheSpan(cs[..n], session);
      MarksAreLast(cs[..n], session);
      MissesNoLess(Run(cs[..n]), cs[n], session, Dates(cs[..n], session));
      MissesNothing(Run(cs[..n]), cs[n], session, Dates(cs[..n], session));
      TimedPrefix(cs, session);
    }
  }

  /** No second is counted twice: while a session's dated events never step back, the seconds counted
      for it fit between the first and the last, and they fill it exactly when every interval was closed
      completely. When every one was, the bound fails if and only if the dates do step back. */
  lemma NoSecondTwice(cs: seq<Call>, session: string)
    ensures var ds, counted := Dates(cs, session), AddedFor(cs, session) * SECOND;
            && (NonDecreasing(ds) ==> counted <= Span(ds))
            && (NonDecreasing(ds) ==> (counted == Span(ds) <==> IsTimedThroughout(cs, session)))
            && (IsTimedThroughout(cs, session) ==> (counted <= Span(ds) <==> NonDecreasing(ds)))
  {
    SecondsAreTheSpan(cs, session);
    BackwardIsADrop(Dates(cs, session));
    MissesNothingThroughout(cs, session);
  }

  /** What a caller can see to: the session's committed events are dated, on whole seconds and in timed
      statuses, and no committed prune takes the session. */
  predicate IsSteadyAt(cs: seq<Call>, session: string, k: nat)
    requires k < |cs|
  {
    var t, c := Run(cs[..k]), cs[k];
    && (Logs(t, c, session) ==> c.at.Some? && c.at.value % SECOND == 0 && FigureOf(c.status).Some?)
    && (c.Prune? && Commits(t, c) ==> session !in Stale(t, c.cutoff))
  }

  ghost predicate IsSteady(cs: seq<Call>, session: string) {
    forall k :: 0 <= k < |cs| ==> IsSteadyAt(cs, session, k)
  }

  lemma SteadyPrefix(cs: seq<Call>, session: string)
    requires cs != [] && IsSteady(cs, session)
    ensures IsSteady(cs[..|cs| - 1], session)
  {
    var n := |cs| - 1;
    forall k | 0 <= k < n
      ensures IsSteadyAt(cs[..n], session, k)
    {
      assert cs[..n][..k] == cs[..k];
      assert IsSteadyAt(cs, session, k);
    }
  }

  /** The next interval starts from the last date, in a status that is timed. */
  ghost predicate IsAnchored(t: Tables, session: string, ds: seq<Instant>) {
    ds != [] ==>
      var last := LastLogged(t.log, session);
      && last.Some? && last.value.at == Some(ds[|ds| - 1])
      && ds[|ds| - 1] % SECOND == 0 && FigureOf(last.value.status).Some?
  }

  lemma AnchoredStep(t: Tables, c: Call, session: string, ds: seq<Instant>)
    requires IsAnchored(t, session, ds)
    requires Logs(t, c, session) ==> c.at.Some? && c.at.value % SECOND == 0 && FigureOf(c.status).Some?
    requires c.Prune? && Commits(t, c) ==> session !in Stale(t, c.cutoff)
    ensures IsAnchored(Apply(t, c), session, ds + if Logs(t, c, session) && c.at.Some? then [c.at.value] else [])
  {
    LogIsAfter(t, c);
    assert ds + [] == ds;
    if Commits(t, c) {
      if c.Prune? {
        LastLoggedKept(t.log, Stale(t, c.cutoff), session);
      } else if c.Close? {
        var e := Logged(c.session, c.status, c.at);
        assert (t.log + [e])[..|t.log|] == t.log;
      }
    }
  }

  lemma WholeSeconds(a: int, b: int)
    requires a % SECOND == 0 && b % SECOND == 0
    ensures (a - b) % SECOND == 0
  {
  }

  lemma {:induction false} SteadyIsAnchored(cs: seq<Call>, session: string)
    requires IsSteady(cs, session)
    ensures IsAnchored(Run(cs), session, Dates(cs, session)) && IsTimedThroughout(cs, session)
  {
    if cs != [] {
      var n := |cs| - 1;
      SteadyPrefix(cs, session);
      SteadyIsAnchored(cs[..n], session);
      TimedPrefix(cs, session);
      assert IsSteadyAt(cs, session, n);
      var t, ds := Run(cs[..n]), Dates(cs[..n], session);
      AnchoredStep(t, cs[n], session, ds);
      if Logs(t, cs[n], session) && ds != [] {
        WholeSeconds(cs[n].at.value, ds[|ds| - 1]);
      }
    }
  }

  /** Of such a run every second is counted, once, exactly when its dates never step back. */
  lemma EverySecondOnce(cs: seq<Call>, session: string)
    requires IsSteady(cs, session)
    ensures AddedFor(cs, session) * SECOND == Span(Dates(cs, session)) <==> NonDecreasing(Dates(cs, session))
  {
    SteadyIsAnchored(cs, session);
    NoSecondTwice(cs, session);
  }

  /** Whatever is counted for a session is counted in one of the three columns. */
  lemma AddedIsTimed(t: Tables, c: Call)
    requires c.Close?
    ensures Added(t, c, c.session) ==
            Timed(t, c, WorkingSeconds) + Timed(t, c, WaitingSeconds) + Timed(t, c, IdleSeconds)
    ensures Timed(t, c, Output) == 0
  {
  }
}
