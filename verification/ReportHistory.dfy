/** What any run of reports, from hooks and watchers in any order, leaves in a row: whose word its status
    is, who owns it, and what stands beside it. */
module ReportHistory {
  import opened Basics
  import opened Report
  import opened StatusRules

  // ---------------------------------------------------------------------------------------------
  // One report.

  /** A hook has asked the operator something, and what the report says was only inferred, from a
      transcript that has not moved since. */
  predicate KeepsQuestion(p: Phase, r: Request) {
    && p.status.Waiting? && p.source.Hook? && p.changedAt.Some?
    && !r.declared && !r.status.Error? && !r.status.Ended?
    && (r.at.None? || r.at.value <= p.changedAt.value)
  }

  /** A hook has opened a turn, and the report only infers that the session rests. */
  predicate KeepsTurn(p: Phase, r: Request) {
    && p.source.Hook? && (p.status.Waiting? || p.status.Working? || p.status.Thinking?)
    && r.status.Idle? && !r.declared
  }

  /** A status that is reported takes effect unless one of the two holds it; the watcher owns exactly the
      statuses it has changed. */
  lemma WatchMoves(p: Phase, r: Request)
    requires !r.event.Call? && !r.status.NoStatus?
    ensures var q := NextPhase(p, r);
            && q.status == (if KeepsQuestion(p, r) || KeepsTurn(p, r) then p.status else r.status)
            && q.source == (if q.status != p.status then Watch else p.source)
            && q.apiErrorStatus == r.apiErrorStatus
  {
  }

  /** A hook's status is its own, always; a call leaves status and owner alone. */
  lemma HookMoves(p: Phase, r: Request)
    requires r.event.Call? || r.status.NoStatus?
    ensures var q := NextPhase(p, r);
            && q.source == (if r.event.Call? then p.source else Hook)
            && q.apiErrorStatus == p.apiErrorStatus
            && (r.event.Call? ==> q.status == p.status && q.detail == p.detail)
  {
  }

  // ---------------------------------------------------------------------------------------------
  // The status of a run.

  /** The report settles the status: one that is reported and not held, or a hook that says what the
      session does, or finds it over or without a status. */
  predicate Settles(p: Phase, r: Request) {
    && !r.event.Call?
    && if !r.status.NoStatus? then !KeepsQuestion(p, r) && !KeepsTurn(p, r)
       else
         match r.event
         case UserPromptSubmit => true
         case Notification => true
         case Stop => true
         case SessionEnd => true
         case SessionStart => p.status.NoStatus? || p.status.Ended?
         case _ => p.status.NoStatus?
  }

  /** What it settles it to. */
  function Settled(r: Request): Status {
    if !r.status.NoStatus? then r.status
    else
      match r.event
      case SessionStart => Idle
      case Notification => if r.notificationType == "idle_prompt" then Idle else Waiting
      case Stop => Idle
      case SessionEnd => Ended
      case _ => Working
  }

  lemma SettlesStep(p: Phase, r: Request)
    ensures NextPhase(p, r).status == if Settles(p, r) then Settled(r) else p.status
  {
    if !r.event.Call? && !r.status.NoStatus? {
      WatchMoves(p, r);
    } else if !r.event.Call? {
      HookStep(p, r);
    }
  }

  ghost predicate IsLastSettling(ps: seq<Phase>, rs: seq<Request>, i: nat)
    requires |ps| == |rs| + 1
  {
    i < |rs| && Settles(ps[i], rs[i]) && forall j :: i < j < |rs| ==> !Settles(ps[j], rs[j])
  }

  lemma {:induction false} PhasesStep(rs: seq<Request>)
    requires rs != []
    ensures var n := |rs| - 1;
            && Phases(rs)[..n + 1] == Phases(rs[..n])
            && Phases(rs)[n] == Row(rs[..n]).phase
            && Phases(rs)[n + 1] == Row(rs).phase == NextPhase(Row(rs[..n]).phase, rs[n])
  {
    RowsAreRuns(rs[..|rs| - 1]);
  }

  /** Over any run of reports the status is what the last of them to settle it said, whoever sent it. */
  lemma {:induction false} StatusIsTold(rs: seq<Request>, i: nat)
    ensures IsLastSettling(Phases(rs), rs, i) ==> Row(rs).phase.status == Settled(rs[i])
    ensures (forall j :: 0 <= j < |rs| ==> !Settles(Phases(rs)[j], rs[j])) ==> Row(rs).phase.status.NoStatus?
  {
    if rs != [] {
      var n := |rs| - 1;
      var ps, before := Phases(rs), Phases(rs[..n]);
      PhasesStep(rs);
      StatusIsTold(rs[..n], i);
      SettlesStep(ps[n], rs[n]);
      assert forall j :: 0 <= j < n ==> before[j] == ps[j] && rs[..n][j] == rs[j];
    }
  }

  /** The report makes its sender the owner of the status: a hook, or a watcher that changes it. */
  predicate Claims(p: Phase, q: Phase, r: Request) {
    !r.event.Call? && (r.status.NoStatus? || q.status != p.status)
  }

  ghost predicate IsLastClaim(ps: seq<Phase>, rs: seq<Request>, i: nat)
    requires |ps| == |rs| + 1
  {
    && i < |rs| && Claims(ps[i], ps[i + 1], rs[i])
    && forall j :: i < j < |rs| ==> !Claims(ps[j], ps[j + 1], rs[j])
  }

  /** Over any run the owner is the sender of the last hook, or of the last watch report to change the
      status, whichever came later. */
  lemma {:induction false} OwnerIsTold(rs: seq<Request>, i: nat)
    ensures IsLastClaim(Phases(rs), rs, i) ==>
              Row(rs).phase.source == if rs[i].status.NoStatus? then Hook else Watch
    ensures (forall j :: 0 <= j < |rs| ==> !Claims(Phases(rs)[j], Phases(rs)[j + 1], rs[j])) ==>
              Row(rs).phase.source.NoSource?
  {
    if rs != [] {
      var n := |rs| - 1;
      var ps, before := Phases(rs), Phases(rs[..n]);
      PhasesStep(rs);
      OwnerIsTold(rs[..n], i);
      if !rs[n].event.Call? && !rs[n].status.NoStatus? {
        WatchMoves(ps[n], rs[n]);
      } else {
        HookMoves(ps[n], rs[n]);
      }
      assert forall j :: 0 <= j <= n ==> before[j] == ps[j];
      assert forall j :: 0 <= j < n ==> rs[..n][j] == rs[j];
    }
  }

  // ---------------------------------------------------------------------------------------------
  // What stands beside the status.

  predicate CarriesStatus(r: Request) {
    !r.event.Call? && !r.status.NoStatus?
  }

  /** The API error is that of the last report to carry a status. */
  lemma {:induction false} ApiErrorIsTold(rs: seq<Request>, i: nat)
    ensures i < |rs| && CarriesStatus(rs[i]) && (forall j :: i < j < |rs| ==> !CarriesStatus(rs[j])) ==>
              Row(rs).phase.apiErrorStatus == rs[i].apiErrorStatus
    ensures (forall j :: 0 <= j < |rs| ==> !CarriesStatus(rs[j])) ==> Row(rs).phase.apiErrorStatus == 0
  {
    if rs != [] {
      var n := |rs| - 1;
      PhasesStep(rs);
      ApiErrorIsTold(rs[..n], i);
      assert forall j :: 0 <= j < n ==> rs[..n][j] == rs[j];
      if CarriesStatus(rs[n]) {
        WatchMoves(Row(rs[..n]).phase, rs[n]);
      } else {
        HookMoves(Row(rs[..n]).phase, rs[n]);
      }
    }
  }

  /** What a report says of the activity, under its present or its former name. */
  function Told(r: Request): string {
    if r.detail != "" then r.detail else r.activity
  }

  predicate TellsActivity(r: Request) {
    !r.event.Call? && Told(r) != ""
  }

  predicate IsActive(s: Status) {
    !s.Idle? && !s.Ended?
  }

  lemma DetailStep(p: Phase, r: Request)
    ensures var q := NextPhase(p, r);
            && (r.event.Call? ==> q.detail == p.detail && q.status == p.status)
            && (!r.event.Call? && IsActive(q.status) ==>
                  q.detail == if Told(r) != "" then Told(r) else if q.status != p.status then "" else p.detail)
            && (!r.event.Call? && q.status.Idle? ==>
                  q.detail == if Told(r) in {"shell", "interrupted"} then Told(r) else "")
            && (!r.event.Call? && q.status.Ended? ==> q.detail == "")
  {
  }

  lemma {:induction false} LastChangeBefore(rs: seq<Request>, i: nat)
    requires IsLastChange(Phases(rs), i) && i < |rs| - 1
    ensures IsLastChange(Phases(rs[..|rs| - 1]), i)
    ensures Row(rs).phase.status == Row(rs[..|rs| - 1]).phase.status
  {
    PhasesStep(rs);
    var ps, before := Phases(rs), Phases(rs[..|rs| - 1]);
    assert forall k :: 0 <= k < |rs| ==> before[k] == ps[k];
  }

  lemma {:induction false} LastChangeIsNow(rs: seq<Request>)
    requires rs != [] && IsLastChange(Phases(rs), |rs| - 1)
    ensures Row(rs).phase.status != Row(rs[..|rs| - 1]).phase.status
  {
    PhasesStep(rs);
  }

  /** While a session is active its detail is the last activity told since the status last changed, and none
      told for an earlier status outlives it. */
  lemma {:induction false} ActivityIsTold(rs: seq<Request>, i: nat, j: nat)
    requires IsLastChange(Phases(rs), i) && IsActive(Row(rs).phase.status)
    ensures i <= j < |rs| && TellsActivity(rs[j]) && (forall k :: j < k < |rs| ==> !TellsActivity(rs[k])) ==>
              Row(rs).phase.detail == Told(rs[j])
    ensures (forall k :: i <= k < |rs| ==> !TellsActivity(rs[k])) ==> Row(rs).phase.detail == ""
  {
    var n := |rs| - 1;
    var was := Row(rs[..n]).phase;
    assert Row(rs).phase == NextPhase(was, rs[n]);
    DetailStep(was, rs[n]);
    if i < n {
      LastChangeBefore(rs, i);
      ActivityIsTold(rs[..n], i, j);
      assert forall k :: 0 <= k < n ==> rs[..n][k] == rs[k];
    } else {
      LastChangeIsNow(rs);
    }
  }

  /** At rest, only what describes the rest itself is shown, and only while the last report still says it. */
  lemma {:induction false} RestIsTold(rs: seq<Request>, i: nat)
    requires i < |rs| && !rs[i].event.Call? && forall j :: i < j < |rs| ==> rs[j].event.Call?
    ensures Row(rs).phase.status.Idle? ==>
              Row(rs).phase.detail == if Told(rs[i]) in {"shell", "interrupted"} then Told(rs[i]) else ""
    ensures Row(rs).phase.status.Ended? ==> Row(rs).phase.detail == ""
  {
    var n := |rs| - 1;
    assert Row(rs).phase == NextPhase(Row(rs[..n]).phase, rs[n]);
    DetailStep(Row(rs[..n]).phase, rs[n]);
    if i < n {
      assert forall k :: 0 <= k < n ==> rs[..n][k] == rs[k];
      RestIsTold(rs[..n], i);
    }
  }

  /** The call shown is the one the last report to touch it left. */
  lemma {:induction false} CallingIsTold(rs: seq<Request>, i: nat)
    ensures i < |rs| && TouchesCall(rs[i]) && (forall j :: i < j < |rs| ==> !TouchesCall(rs[j])) ==>
              Row(rs).call == if rs[i].event.Call? then Calling(rs[i].callMessage, rs[i].at) else Calling("", None)
    ensures (forall j :: 0 <= j < |rs| ==> !TouchesCall(rs[j])) ==> Row(rs).call == Calling("", None)
  {
    if rs != [] {
      var n := |rs| - 1;
      CallingIsTold(rs[..n], i);
      assert forall j :: 0 <= j < n ==> rs[..n][j] == rs[j];
    }
  }

  // ---------------------------------------------------------------------------------------------
  // The names reports go by.

  function EventName(e: Event): string {
    match e
    case SessionStart => "SessionStart"
    case UserPromptSubmit => "UserPromptSubmit"
    case PostToolUse => "PostToolUse"
    case Notification => "Notification"
    case Stop => "Stop"
    case PreCompact => "PreCompact"
    case SessionEnd => "SessionEnd"
    case WatchEvent => "watch"
    case Call => "call"
  }

  function StatusName(s: Status): string {
    match s
    case NoStatus => ""
    case Working => "working"
    case Thinking => "thinking"
    case Compacting => "compacting"
    case Waiting => "waiting"
    case Idle => "idle"
    case Error => "error"
    case Stale => "stale"
    case Ended => "ended"
  }

  /** Every event and status is read back from its name, and nothing else is one. */
  lemma NamesAreRead(name: string, e: Event, s: Status)
    ensures EventOf(name) == Some(e) <==> name == EventName(e)
    ensures StatusOf(name) == Some(s) <==> name == StatusName(s)
  {
  }

  /** A report is accepted exactly when its event and its status are known, a watch report carries a status,
      and its timestamp, if any, names an instant. */
  lemma AcceptedExactly(event: string, status: string, at: RawStamp)
    ensures RejectReport(event, status, at).None? <==>
            && (exists e :: event == EventName(e)) && (exists s :: status == StatusName(s))
            && !(event == "watch" && status == "") && !at.Malformed?
  {
    forall e, s
      ensures EventOf(event) == Some(e) <==> event == EventName(e)
      ensures StatusOf(status) == Some(s) <==> status == StatusName(s)
    {
      NamesAreRead(event, e, s);
      NamesAreRead(status, e, s);
    }
    if EventOf(event).Some? {
      assert event == EventName(EventOf(event).value);
    }
    if StatusOf(status).Some? {
      assert status == StatusName(StatusOf(status).value);
    }
  }
}
