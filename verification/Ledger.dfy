/** The store's ledger transactions. Each rewrites the tables in its own working copy, statement by
    statement, and publishes the copy only at the commit: a statement that fails leaves no trace. */
module Ledger {
  import opened Basics
  import opened Tallies
  import opened LedgerRules

  class Ledger {
    var marks: map<string, int>
    var daily: map<Key, Bucket>
    var log: seq<Logged>
    var sessions: map<string, Seen>

    constructor ()
      ensures State() == NO_ROWS
    {
      marks, daily, log, sessions := map[], map[], [], map[];
    }

    ghost function State(): Tables
      reads this
    {
      Tables(marks, daily, log, sessions)
    }

    /** Counts, in the bucket, by how much the total exceeds the mark, and moves the mark up to it. `fault`
        numbers the statement that the database fails, if it fails one. Returns what was counted. */
    method RollUpTokens(session: string, total: int, key: Key, fault: Option<nat>) returns (r: Result<int>)
      modifies this`marks, this`daily
      ensures r.Ok? ==> State() == RolledUp(old(State()), session, total, key)
      ensures r.Ok? ==> r.value == Held(marks, session) - old(Held(marks, session))
      ensures r.Err? ==> State() == old(State())
      ensures fault.None? ==> r.Ok?
    {
      if session == "" || total <= 0 {
        return Ok(0);
      }
      if fault == Some(0) {
        return Err;
      }
      var counted := Held(marks, session);
      if total <= counted {
        return Ok(0);
      }
      var delta := total - counted;
      if fault == Some(1) {
        return Err;
      }
      var newMarks := marks[session := total];
      if fault == Some(2) {
        return Err;
      }
      var newDaily := AddTokens(daily, key, delta);
      if fault == Some(3) {
        return Err;
      }
      marks, daily := newMarks, newDaily;
      r := Ok(delta);
    }

    /** The session row, as far as pruning and the log's reference to it are concerned. */
    method NoteSession(session: string, seen: Seen)
      modifies this`sessions
      ensures State() == Apply(old(State()), Write(session, seen, true))
    {
      sessions := sessions[session := seen];
    }

    /** A report's rollup. A report that names no instant has no day to count on, and counts nothing. */
    method RollUpReport(session: string, total: int, at: Option<Instant>, model: string, fault: Option<nat>)
      returns (ok: bool)
      modifies this`marks, this`daily
      ensures State() == Apply(old(State()), RollUp(session, total, at, model, ok))
      ensures fault.None? ==> ok
    {
      var day := DayOf(at);
      if day.None? {
        return true;
      }
      var r := RollUpTokens(session, total, Key(day.value, model), fault);
      ok := r.Ok?;
    }

    /** The last row of the log for a session. */
    method LastEvent(session: string) returns (last: Option<Logged>)
      ensures last == LastLogged(log, session)
    {
      var i := |log|;
      assert log[..i] == log;
      while i > 0
        invariant 0 <= i <= |log|
        invariant LastLogged(log, session) == LastLogged(log[..i], session)
      {
        assert log[..i][..i - 1] == log[..i - 1];
        i := i - 1;
        if log[i].session == session {
          return Some(log[i]);
        }
      }
      last := None;
    }

    /** Appends an event and counts the interval it closes, or does neither. */
    method AppendEventClosingInterval(e: Logged, model: string, fault: Option<nat>) returns (ok: bool)
      modifies this`daily, this`log
      ensures State() == Apply(old(State()), Close(e.session, e.status, e.at, model, ok))
      ensures ok <==> e.session in sessions && fault !in {Some(0), Some(1), Some(2), Some(3)}
    {
      if fault == Some(0) {
        return false;
      }
      var last := LastEvent(e.session);
      var iv := IntervalSince(last, e.at, model);
      var newDaily := daily;
      if fault == Some(1) {
        return false;
      }
      if iv.secs > 0 {
        newDaily := AddSeconds(newDaily, iv.key, iv.status, iv.secs);
      }
      if fault == Some(2) || e.session !in sessions {
        return false;
      }
      var newLog := log + [e];
      if fault == Some(3) {
        return false;
      }
      daily, log := newDaily, newLog;
      ok := true;
    }

    /** Deletes the sessions last heard of before the cutoff, and their events. Marks and buckets are never
        pruned. */
    method PruneSessions(cutoff: string, fault: Option<nat>) returns (pruned: Result<nat>)
      modifies this`log, this`sessions
      ensures State() == Apply(old(State()), Prune(cutoff, pruned.Ok?))
      ensures pruned.Ok? ==> pruned.value == |Stale(old(State()), cutoff)|
      ensures fault.None? ==> pruned.Ok?
    {
      var gone := Stale(Tables(marks, daily, log, sessions), cutoff);
      if fault == Some(0) {
        return Err;
      }
      var kept := [];
      for i := 0 to |log|
        invariant kept == LogWithout(log[..i], gone)
      {
        assert log[..i + 1][..i] == log[..i];
        if log[i].session !in gone {
          kept := kept + [log[i]];
        }
      }
      assert log[..|log|] == log;
      if fault == Some(1) {
        return Err;
      }
      var left := sessions - gone;
      if fault == Some(2) {
        return Err;
      }
      log, sessions := kept, left;
      pruned := Ok(|gone|);
    }

    /** Folds one model's bucket into another's for the same day. Folding a bucket into itself is an
        error: it would double its figures. */
    method MoveDailyBucket(day: Day, from: string, to: string, fault: Option<nat>) returns (moved: Result<bool>)
      modifies this`daily
      ensures State() == Apply(old(State()), Move(day, from, to, moved.Ok?))
      ensures from == to ==> moved.Err?
      ensures moved.Ok? ==> (moved.value <==> Key(day, from) in old(daily))
      ensures moved.Ok? ==> Key(day, from) !in daily
    {
      if from == to || fault == Some(0) {
        return Err;
      }
      var source, target := Key(day, from), Key(day, to);
      if source !in daily {
        return Ok(false);
      }
      var before := daily[source];
      var newDaily := daily[target := Sum(Figures(daily, target), before)];
      if fault == Some(1) {
        return Err;
      }
      newDaily := newDaily - {source};
      if fault == Some(2) {
        return Err;
      }
      daily := newDaily;
      moved := Ok(true);
    }

    /** Replaces one bucket's token figure, and returns what it held before. */
    method SetDailyTokens(key: Key, tokens: int, fault: Option<nat>) returns (before: Result<Option<int>>)
      modifies this`daily
      ensures State() == Apply(old(State()), SetTokens(key, tokens, before.Ok?))
      ensures before.Ok? ==> before.value == if key in old(daily) then Some(old(daily)[key].output) else None
    {
      if fault.Some? {
        return Err;
      }
      before := Ok(if key in daily then Some(daily[key].output) else None);
      daily := daily[key := Figures(daily, key).(output := tokens)];
    }

    /** Removes one bucket, and returns what it held. */
    method DeleteDailyBucket(key: Key, fault: Option<nat>) returns (before: Result<Option<Bucket>>)
      modifies this`daily
      ensures State() == Apply(old(State()), Delete(key, before.Ok?))
      ensures before.Ok? ==> before.value == if key in old(daily) then Some(old(daily)[key]) else None
    {
      if fault == Some(0) {
        return Err;
      }
      if key !in daily {
        return Ok(None);
      }
      var held := daily[key];
      if fault == Some(1) {
        return Err;
      }
      daily := daily - {key};
      before := Ok(Some(held));
    }
  }
}
