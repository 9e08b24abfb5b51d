/** The hub itself, and the handler that feeds it: one-slot channels that coalesce, closed exactly once
    and never sent on afterwards. */
module Hub {
  import opened Basics
  import opened Report
  import A = Apply
  import L = Ledger
  import LR = LedgerRules
  import LB = LedgerBuckets
  import RH = ReportHistory
  import T = Tallies

  /** A channel with one slot for a nudge. */
  class Chan {
    var pending: bool
    var closed: bool

    constructor ()
      ensures !pending && !closed
    {
      pending, closed := false, false;
    }

    /** Leaves a nudge, unless one is pending already. Sending on a closed channel would panic. */
    method TrySend()
      requires !closed
      modifies this`pending
      ensures pending
    {
      if !pending {
        pending := true;
      }
    }

    /** Closing twice would panic. */
    method Close()
      requires !closed
      modifies this`closed
      ensures closed
    {
      closed := true;
    }
  }

  class Hub {
    var subs: set<Chan>

    constructor ()
      ensures Valid() && subs == {}
    {
      subs := {};
    }

    ghost predicate Valid()
      reads this, subs
    {
      forall ch :: ch in subs ==> !ch.closed
    }

    method Subscribe() returns (ch: Chan)
      requires Valid()
      modifies this
      ensures Valid() && fresh(ch) && subs == old(subs) + {ch} && !ch.pending
    {
      ch := new Chan();
      subs := subs + {ch};
    }

    /** Takes a channel out and closes it; a channel that is already out is left alone. */
    method Unsubscribe(ch: Chan)
      requires Valid()
      modifies this, ch`closed
      ensures Valid() && subs == old(subs) - {ch}
      ensures ch.closed <==> ch in old(subs) || old(ch.closed)
    {
      if ch in subs {
        subs := subs - {ch};
        ch.Close();
      }
    }

    /** Every subscriber ends up with a nudge pending, however many it had missed. */
    method Publish()
      requires Valid()
      modifies subs`pending
      ensures Valid() && forall ch :: ch in subs ==> ch.pending
    {
      var rest := subs;
      while rest != {}
        invariant rest <= subs
        invariant forall ch :: ch in subs && ch !in rest ==> ch.pending
        decreases rest
      {
        var ch :| ch in rest;
        ch.TrySend();
        rest := rest - {ch};
      }
    }
  }

  /** What the dashboards show of a row: all of it, but for who owns its status and when it was seen. */
  function Visible(s: Session): (Profile, Phase, Calling, string, int, int, int, int) {
    (s.profile, s.phase.(source := NoSource), s.call, s.lastTool,
     s.usage.input, s.usage.output, s.usage.cacheCreation, s.usage.cacheRead)
  }

  function Board(rows: map<string, Session>): map<string, (Profile, Phase, Calling, string, int, int, int, int)> {
    map id | id in rows :: Visible(rows[id])
  }

  /** A report is worth a publish when its row is new to the handler that read it, or looks different. */
  predicate IsVisible(read: Option<Session>, after: Session) {
    read.None? || Visible(read.value) != Visible(after)
  }

  /** The same row again, but for its heartbeats: when it was seen and started, and who owns its status. */
  predicate OnlyBeats(a: Session, b: Session) {
    b == a.(phase := a.phase.(source := b.phase.source), lastSeenAt := b.lastSeenAt, startedAt := b.startedAt)
  }

  predicate Redraws(before: Option<Session>, after: Session) {
    before.None? || !OnlyBeats(before.value, after)
  }

  /** A report is worth a publish exactly when more than the heartbeats of its row has changed. */
  lemma VisibleExactly(a: Session, b: Session)
    ensures IsVisible(Some(a), b) <==> Redraws(Some(a), b)
    ensures Visible(a) == Visible(b) <==> OnlyBeats(a, b)
  {
  }

  /** The write puts back, looking as it was read, a row that has been pruned since. */
  predicate Restores(rows: map<string, Session>, id: string, read: Option<Session>, after: Session) {
    id !in rows && read.Some? && Visible(read.value) == Visible(after)
  }

  /** Every publish stands for a change of the board; and every change gets one, but for a row that the
      write restores. (While a handler holds the mutex its row is as it was read, or has been pruned.) */
  lemma VisibleIsTheBoard(rows: map<string, Session>, id: string, read: Option<Session>, after: Session)
    requires A.Lookup(rows, id) == read || id !in rows
    ensures IsVisible(read, after) ==> Board(rows[id := after]) != Board(rows)
    ensures (IsVisible(read, after) <==> Board(rows[id := after]) != Board(rows)) <==> !Restores(rows, id, read, after)
  {
    var was, now := Board(rows), Board(rows[id := after]);
    assert now == was[id := Visible(after)];
    assert id in rows ==> was[id] == Visible(rows[id]);
    assert id !in rows ==> id !in was && id in now;
  }

  /** The calls a report makes on the ledgers: its row is written, its tokens are rolled up, and a hook's
      event closes the previous interval. */
  function Calls(r: Request, row: Session, seen: LR.Seen, rolled: bool, closed: bool): seq<LR.Call> {
    [LR.Write(r.sessionId, seen, true),
     LR.RollUp(r.sessionId, row.usage.output, r.at, row.profile.model, rolled)] +
    if r.event.WatchEvent? then []
    else [LR.Close(r.sessionId, RH.StatusName(row.phase.status), r.at, row.profile.model, closed)]
  }

  predicate ClosesInterval(r: Request, closed: bool) {
    closed && !r.event.WatchEvent?
  }

  /** What the calls of a report leave in the tables: its row, a mark that follows the row's output, and a
      hook's event in the log. */
  lemma ReportIsLogged(t: LR.Tables, r: Request, row: Session, seen: LR.Seen, rolled: bool, closed: bool)
    ensures var t', id, output := LR.RunFrom(t, Calls(r, row, seen, rolled, closed)), r.sessionId, row.usage.output;
            && t'.sessions == t.sessions[id := seen]
            && T.Held(t'.marks, id) ==
               (if rolled && id != "" && r.at.Some? && output > 0 && output > T.Held(t.marks, id) then output
                else T.Held(t.marks, id))
            && (forall other :: other != id ==> T.Held(t'.marks, other) == T.Held(t.marks, other))
            && t'.log == t.log + if ClosesInterval(r, closed)
                                 then [LR.Logged(id, RH.StatusName(row.phase.status), r.at)] else []
  {
    AllThree(t, Calls(r, row, seen, rolled, closed));
  }

  /** And in the buckets: tokens on the day of the report, by what the mark grew; seconds on the day of the
      session's previous event, in the column of that event's status; both under the row's model, and nothing
      anywhere else. */
  lemma ReportIsCounted(t: LR.Tables, r: Request, row: Session, seen: LR.Seen, rolled: bool, closed: bool, k: LR.Key,
                        f: LR.Figure)
    ensures var t', id := LR.RunFrom(t, Calls(r, row, seen, rolled, closed)), r.sessionId;
            var last := LR.LastLogged(t.log, id);
            LR.Of(LR.Figures(t'.daily, k), f) ==
            LR.Of(LR.Figures(t.daily, k), f) +
            (if f.Output? && k.model == row.profile.model && LB.IsOn(r.at, k.day)
             then T.Held(t'.marks, id) - T.Held(t.marks, id) else 0) +
            (if ClosesInterval(r, closed) && last.Some? && LB.TimedStatus(f) == Some(last.value.status) &&
                k.model == row.profile.model && LB.IsOn(last.value.at, k.day) &&
                r.at.Some? && r.at.value > last.value.at.value
             then (r.at.value - last.value.at.value) / SECOND else 0)
  {
    var cs := Calls(r, row, seen, rolled, closed);
    var t1 := LR.Apply(t, cs[0]);
    var t2 := LR.Apply(t1, cs[1]);
    AllThree(t, cs);
    LB.CallIsCounted(t1, cs[1], k, f);
    assert t1.daily == t.daily && t1.marks == t.marks && t1.log == t.log && t2.log == t.log;
    if !r.event.WatchEvent? {
      LB.CallIsCounted(t2, cs[2], k, f);
    }
  }

  /** The ledger half of a report. A failed transaction is only logged. */
  method Account(ledger: L.Ledger, r: Request, row: Session, seen: LR.Seen,
                 rollUpFault: Option<nat>, closeFault: Option<nat>)
    returns (rolled: bool, closed: bool)
    modifies ledger
    ensures ledger.State() == LR.RunFrom(old(ledger.State()), Calls(r, row, seen, rolled, closed))
  {
    ghost var t := ledger.State();
    ledger.NoteSession(r.sessionId, seen);
    ghost var t1 := ledger.State();
    rolled := ledger.RollUpReport(r.sessionId, row.usage.output, r.at, row.profile.model, rollUpFault);
    ghost var t2 := ledger.State();
    closed := false;
    if !r.event.WatchEvent? {
      closed := ledger.AppendEventClosingInterval(
        LR.Logged(r.sessionId, RH.StatusName(row.phase.status), r.at), row.profile.model, closeFault);
    }
    AllThree(t, Calls(r, row, seen, rolled, closed));
  }

  lemma AllThree(t: LR.Tables, cs: seq<LR.Call>)
    requires 2 <= |cs| <= 3
    ensures LR.RunFrom(t, cs) ==
            var t2 := LR.Apply(LR.Apply(t, cs[0]), cs[1]);
            if |cs| == 3 then LR.Apply(t2, cs[2]) else t2
  {
    var two, one := cs[..2], cs[..1];
    assert two[..1] == one && one[..0] == [];
    assert LR.RunFrom(t, one) == LR.Apply(t, cs[0]);
    assert LR.RunFrom(t, two) == LR.Apply(LR.RunFrom(t, one), cs[1]);
    if |cs| == 2 {
      assert cs == two;
    } else {
      assert cs[..|cs| - 1] == two;
    }
  }

  /** One accepted report, from the row to the nudge. A failed write answers with an error and leaves
      everything as it was; otherwise every subscriber has a nudge pending if the board changed. */
  method HandleReport(r: Request, seen: LR.Seen, sessions: A.Sessions, ledger: L.Ledger, hub: Hub,
                      readFails: bool, writeFails: bool, rollUpFault: Option<nat>, closeFault: Option<nat>)
    returns (ok: bool, rolled: bool, closed: bool)
    requires hub.Valid() && Accepted(r)
    modifies sessions, ledger, hub.subs`pending
    ensures hub.Valid() && hub.subs == old(hub.subs)
    ensures ok <==> !readFails && !writeFails
    ensures !ok ==> sessions.rows == old(sessions.rows) && ledger.State() == old(ledger.State())
    ensures ok ==>
              sessions.rows == old(sessions.rows)[r.sessionId := A.Merged(A.Lookup(old(sessions.rows), r.sessionId), r)]
    ensures ok ==>
              var calls := Calls(r, sessions.rows[r.sessionId], seen, rolled, closed);
              ledger.State() == LR.RunFrom(old(ledger.State()), calls)
    ensures forall ch :: ch in hub.subs ==>
              (ch.pending <==>
               || old(ch.pending)
               || (ok && Redraws(A.Lookup(old(sessions.rows), r.sessionId), sessions.rows[r.sessionId])))
    ensures forall ch :: ch in hub.subs ==>
              (ch.pending <==> old(ch.pending) || Board(sessions.rows) != old(Board(sessions.rows)))
  {
    rolled, closed := false, false;
    var result := sessions.ApplySession(r, readFails, writeFails);
    if result.Err? {
      return false, rolled, closed;
    }
    var (existing, row) := result.value;
    VisibleIsTheBoard(old(sessions.rows), r.sessionId, existing, row);
    if existing.Some? {
      VisibleExactly(existing.value, row);
    }
    rolled, closed := Account(ledger, r, row, seen, rollUpFault, closeFault);
    if IsVisible(existing, row) {
      hub.Publish();
    }
    ok := true;
  }
}
