/** The daemon's reconciliation: how one report, from a hook inside the session or from the watcher
    outside it, is merged into the session's row. */
module Report {
  import opened Basics
  import opened StatusRules
  import History
  import ParserRules

  datatype Source = NoSource | Hook | Watch

  datatype Event =
    | SessionStart | UserPromptSubmit | PostToolUse | Notification | Stop | PreCompact | SessionEnd
    | WatchEvent | Call

  /** The instant of an RFC 3339 timestamp; None when the report names none. */
  type Stamp = Option<Instant>

  /** A report that passed validation. `status` is NoStatus when the report carries none. */
  datatype Request = Request(
    sessionId: string, event: Event, notificationType: string, status: Status, declared: bool, at: Stamp,
    user: string, machine: string, projectDir: string, gitBranch: string, model: string, effort: string,
    contextTokens: Option<int>, permissionMode: string, title: string, lastTool: string,
    usage: Option<History.Usage>, apiErrorStatus: int, detail: string, activity: string, callMessage: string)

  /** What a session is, as last reported. */
  datatype Profile = Profile(
    user: string, machine: string, projectDir: string, gitBranch: string, model: string, effort: string,
    contextTokens: int, contextKnown: bool, permissionMode: string, title: string)

  /** What it is doing, who said so, and since when. */
  datatype Phase = Phase(
    status: Status, source: Source, changedAt: Stamp, apiErrorStatus: int, detail: string, endedAt: Stamp)

  /** The operator's attention, asked for since `at` if that is set. */
  datatype Calling = Calling(message: string, at: Stamp)

  /** A session's row. */
  datatype Session = Session(
    profile: Profile, phase: Phase, call: Calling, lastTool: string, usage: History.Usage,
    startedAt: Stamp, lastSeenAt: Stamp)

  const NEW_SESSION := Session(
    Profile("", "", "", "", "", "", 0, false, "", ""), Phase(NoStatus, NoSource, None, 0, "", None), Calling("", None),
    "", ParserRules.NO_USAGE, None, None)

  // ---------------------------------------------------------------------------------------------
  // Validation.

  datatype RawStamp = Absent | Malformed | Named(at: Instant)

  datatype Rejection = UnknownEvent | UnknownStatus | WatchWithoutStatus | InvalidTimestamp

  function EventOf(name: string): Option<Event> {
    match name
    case "SessionStart" => Some(SessionStart)
    case "UserPromptSubmit" => Some(UserPromptSubmit)
    case "PostToolUse" => Some(PostToolUse)
    case "Notification" => Some(Notification)
    case "Stop" => Some(Stop)
    case "PreCompact" => Some(PreCompact)
    case "SessionEnd" => Some(SessionEnd)
    case "watch" => Some(WatchEvent)
    case "call" => Some(Call)
    case _ => None
  }

  function StatusOf(name: string): Option<Status> {
    match name
    case "" => Some(NoStatus)
    case "working" => Some(Working)
    case "thinking" => Some(Thinking)
    case "compacting" => Some(Compacting)
    case "waiting" => Some(Waiting)
    case "idle" => Some(Idle)
    case "error" => Some(Error)
    case "stale" => Some(Stale)
    case "ended" => Some(Ended)
    case _ => None
  }

  /** Why a report is refused, if it is. */
  function RejectReport(event: string, status: string, at: RawStamp): (why: Option<Rejection>)
    ensures why.None? ==> EventOf(event).Some? && StatusOf(status).Some? && !at.Malformed?
    ensures why.None? && EventOf(event) == Some(WatchEvent) ==> StatusOf(status) != Some(NoStatus)
  {
    if EventOf(event).None? then Some(UnknownEvent)
    else if StatusOf(status).None? then Some(UnknownStatus)
    else if event == "watch" && status == "" then Some(WatchWithoutStatus)
    else if at.Malformed? then Some(InvalidTimestamp)
    else None
  }

  /** What validation leaves: a watch report always carries a status. */
  predicate Accepted(r: Request) {
    r.event.WatchEvent? ==> !r.status.NoStatus?
  }

  // ---------------------------------------------------------------------------------------------
  // The merge.

  predicate TimeAfter(a: Stamp, b: Stamp) {
    a.Some? && b.Some? && a.value > b.value
  }

  /** The statuses a watcher establishes, rather than infers from silence. */
  predicate IsObserved(s: Status) {
    s.Error? || s.Ended?
  }

  /** Whether a hook's `waiting` survives a report that carries a status. */
  predicate HoldsWaiting(s: Phase, r: Request) {
    && s.status.Waiting? && s.source.Hook? && s.changedAt.Some?
    && !r.declared && !IsObserved(r.status)
    && !TimeAfter(r.at, s.changedAt)
  }

  predicate IsHookActive(s: Status) {
    s.Waiting? || s.Working? || s.Thinking?
  }

  function ReconcileWatch(current: Status, source: Source, incoming: Status, declared: bool): (Status, Source) {
    if incoming.Idle? && !declared && source.Hook? && IsHookActive(current) then (current, Hook)
    else if incoming == current then (current, source)
    else (incoming, Watch)
  }

  function DeriveStatus(e: Event, notificationType: string, current: Status): Status {
    match e
    case SessionStart => if current.NoStatus? || current.Ended? then Idle else current
    case UserPromptSubmit => Working
    case Notification => if notificationType == "idle_prompt" then Idle else Waiting
    case Stop => Idle
    case SessionEnd => Ended
    case _ => if current.NoStatus? then Working else current
  }

  function Owned(s: Phase, r: Request): (Status, Source) {
    if r.status.NoStatus? then (DeriveStatus(r.event, r.notificationType, s.status), Hook)
    else if HoldsWaiting(s, r) then (s.status, s.source)
    else ReconcileWatch(s.status, s.source, r.status, r.declared)
  }

  predicate IsIdleDetail(detail: string) {
    detail == "shell" || detail == "interrupted"
  }

  function ReportDetail(r: Request): string {
    if r.detail != "" then r.detail else r.activity
  }

  function DetailAfter(s: Phase, status: Status, detail: string): string {
    if status.Idle? && IsIdleDetail(detail) then detail
    else if status.Idle? || status.Ended? then ""
    else if detail != "" then detail
    else if status != s.status then ""
    else s.detail
  }

  function ApplyStatus(s: Phase, r: Request): Phase {
    if r.event.Call? then s
    else
      var (status, source) := Owned(s, r);
      s.(status := status, source := source,
         changedAt := if status != s.status then r.at else s.changedAt,
         apiErrorStatus := if r.status.NoStatus? then s.apiErrorStatus else r.apiErrorStatus,
         detail := DetailAfter(s, status, ReportDetail(r)))
  }

  function ApplyEndedAt(s: Phase, r: Request): Phase {
    if !s.status.Ended? then s.(endedAt := None)
    else if s.endedAt.None? then s.(endedAt := r.at)
    else s
  }

  function NextPhase(s: Phase, r: Request): Phase {
    ApplyEndedAt(ApplyStatus(s, r), r)
  }

  function ApplyCall(c: Calling, r: Request): Calling {
    match r.event
    case Call => Calling(r.callMessage, r.at)
    case UserPromptSubmit => Calling("", None)
    case SessionEnd => Calling("", None)
    case _ => c
  }

  /** The fields a partial report leaves as they were. */
  function ApplyContext(p: Profile, r: Request): Profile {
    Profile(KeepLast(p.user, r.user), KeepLast(p.machine, r.machine), KeepLast(p.projectDir, r.projectDir),
            KeepLast(p.gitBranch, r.gitBranch), KeepLast(p.model, r.model), KeepLast(p.effort, r.effort),
            if r.contextTokens.Some? then r.contextTokens.value else p.contextTokens,
            p.contextKnown || r.contextTokens.Some?,
            KeepLast(p.permissionMode, r.permissionMode), KeepLast(p.title, r.title))
  }

  function ApplyReport(s: Session, isNew: bool, r: Request): Session {
    Session(ApplyContext(s.profile, r), NextPhase(s.phase, r), ApplyCall(s.call, r), KeepLast(s.lastTool, r.lastTool),
            if r.usage.Some? then r.usage.value else s.usage,
            if isNew then r.at else s.startedAt, r.at)
  }

  /** The row after a run of reports of one session. */
  function Row(rs: seq<Request>): Session {
    if rs == [] then NEW_SESSION else ApplyReport(Row(rs[..|rs| - 1]), |rs| == 1, rs[|rs| - 1])
  }

  // ---------------------------------------------------------------------------------------------
  // What every reachable row says about its run. A run is given as the reports and the phases between
  // them: `ps[i]` is the phase before `rs[i]`.

  ghost predicate IsRun(ps: seq<Phase>, rs: seq<Request>) {
    && |ps| == |rs| + 1
    && ps[0] == NEW_SESSION.phase
    && forall i :: 0 <= i < |rs| ==> Moves(ps[i], ps[i + 1], rs[i])
  }

  /** What one report may do to the status, and must then do to the times and the detail. */
  ghost predicate Moves(p: Phase, q: Phase, r: Request) {
    && q.changedAt == (if q.status != p.status then r.at else p.changedAt)
    && q.endedAt == (if !q.status.Ended? then None else if p.endedAt.Some? then p.endedAt else r.at)
  }

  lemma NextPhaseMoves(p: Phase, r: Request)
    ensures Moves(p, NextPhase(p, r), r)
    ensures RestsQuietly(p) ==> RestsQuietly(NextPhase(p, r))
  {
  }

  /** No detail outlives the activity it describes. */
  predicate RestsQuietly(p: Phase) {
    && (p.status.Ended? ==> p.detail == "")
    && (p.status.Idle? ==> p.detail == "" || IsIdleDetail(p.detail))
  }

  /** `rs[i]` is the last report that changed the status. */
  ghost predicate IsLastChange(ps: seq<Phase>, i: nat) {
    && i < |ps| - 1
    && ps[i].status != ps[i + 1].status
    && forall j :: i < j < |ps| ==> ps[j].status == ps[i + 1].status
  }

  /** The change time is the timestamp of the report that last changed the status, and no other's. */
  lemma {:induction false} ChangeTimeIsTold(ps: seq<Phase>, rs: seq<Request>, i: nat)
    requires IsRun(ps, rs) && IsLastChange(ps, i)
    ensures ps[|rs|].changedAt == rs[i].at
  {
    if i < |rs| - 1 {
      var n := |rs| - 1;
      assert Moves(ps[n], ps[n + 1], rs[n]);
      ChangeTimeIsTold(ps[..n + 1], rs[..n], i);
    } else {
      assert Moves(ps[i], ps[i + 1], rs[i]);
    }
  }

  /** The first timestamp, if any, that came with a report from `i` on. */
  ghost predicate IsFirstStamp(rs: seq<Request>, i: nat, at: Stamp) {
    if at.None? then forall j :: i <= j < |rs| ==> rs[j].at.None?
    else exists j :: i <= j < |rs| && rs[j].at == at && forall k :: i <= k < j ==> rs[k].at.None?
  }

  lemma FirstStampStep(rs: seq<Request>, i: nat, at: Stamp)
    requires i < |rs| - 1 && IsFirstStamp(rs[..|rs| - 1], i, at)
    ensures IsFirstStamp(rs, i, if at.Some? then at else rs[|rs| - 1].at)
  {
    var n := |rs| - 1;
    if at.Some? {
      var j :| i <= j < n && rs[..n][j].at == at && forall k :: i <= k < j ==> rs[..n][k].at.None?;
      assert rs[j].at == at;
      assert forall k :: i <= k < j ==> rs[k] == rs[..n][k];
    } else {
      assert forall k :: i <= k < n ==> rs[k] == rs[..n][k];
    }
  }

  /** While a session is over, its end time is the first one reported with or after the end, whatever is
      reported after that; while it is not over it has none. */
  lemma {:induction false} EndTimeIsTold(ps: seq<Phase>, rs: seq<Request>, i: nat)
    requires IsRun(ps, rs) && IsLastChange(ps, i)
    ensures if ps[|rs|].status.Ended? then IsFirstStamp(rs, i, ps[|rs|].endedAt) else ps[|rs|].endedAt.None?
  {
    var n := |rs| - 1;
    assert Moves(ps[n], ps[n + 1], rs[n]);
    if i < n {
      EndTimeIsTold(ps[..n + 1], rs[..n], i);
      if ps[n].status.Ended? {
        FirstStampStep(rs, i, ps[n].endedAt);
      }
    } else if ps[n + 1].status.Ended? {
      NotOverHasNoEnd(ps, rs, n);
      StampsOnItsOwn(rs, n);
    }
  }

  lemma StampsOnItsOwn(rs: seq<Request>, n: nat)
    requires n == |rs| - 1
    ensures IsFirstStamp(rs, n, rs[n].at)
  {
  }

  lemma NotOverHasNoEnd(ps: seq<Phase>, rs: seq<Request>, i: nat)
    requires IsRun(ps, rs) && i <= |rs| && !ps[i].status.Ended?
    ensures ps[i].endedAt.None?
  {
    if i > 0 {
      var k := i - 1;
      assert Moves(ps[k], ps[k + 1], rs[k]);
    }
  }

  /** The events that raise or clear a call. */
  predicate TouchesCall(r: Request) {
    r.event.Call? || r.event.UserPromptSubmit? || r.event.SessionEnd?
  }

  /** A call raised with a timestamp, and neither raised again nor cleared since. */
  ghost predicate IsRaisedAt(rs: seq<Request>, i: nat) {
    i < |rs| && rs[i].event.Call? && rs[i].at.Some? && forall j :: i < j < |rs| ==> !TouchesCall(rs[j])
  }

  lemma RaisedStep(rs: seq<Request>, i: nat)
    requires rs != []
    ensures var n := |rs| - 1;
            IsRaisedAt(rs, i) <==>
            if TouchesCall(rs[n]) then i == n && rs[n].event.Call? && rs[n].at.Some? else IsRaisedAt(rs[..n], i)
  {
    var n := |rs| - 1;
    assert forall j :: 0 <= j < n ==> rs[..n][j] == rs[j];
    if IsRaisedAt(rs, i) && i != n {
      assert !TouchesCall(rs[n]);
    }
  }

  ghost predicate IsRaised(rs: seq<Request>) {
    exists i: nat :: IsRaisedAt(rs, i)
  }

  lemma RaisedOrKept(rs: seq<Request>)
    requires rs != []
    ensures var n := |rs| - 1;
            IsRaised(rs) <==>
            if TouchesCall(rs[n]) then rs[n].event.Call? && rs[n].at.Some? else IsRaised(rs[..n])
  {
    var n := |rs| - 1;
    RaisedStep(rs, n);
    if IsRaised(rs) {
      var i: nat :| IsRaisedAt(rs, i);
      RaisedStep(rs, i);
    }
    if IsRaised(rs[..n]) {
      var i: nat :| IsRaisedAt(rs[..n], i);
      RaisedStep(rs, i);
    }
  }

  /** A call is active exactly when the last report to touch it is a dated call. */
  lemma {:induction false} CallIsTold(rs: seq<Request>)
    ensures Row(rs).call.at.Some? <==> IsRaised(rs)
  {
    if rs != [] {
      CallIsTold(rs[..|rs| - 1]);
      RaisedOrKept(rs);
    }
  }

  /** A second call that names no instant silences the first, which was still up. */
  lemma UndatedCallSilences(r: Request, at: int)
    requires r.event.Call?
    ensures Row([r.(at := Some(at))]).call.at.Some?
    ensures Row([r.(at := Some(at)), r.(at := None)]).call.at.None?
  {
    CallIsTold([r.(at := Some(at)), r.(at := None)]);
    var rs := [r.(at := Some(at))];
    assert Row(rs) == ApplyReport(Row(rs[..0]), true, rs[0]);
  }

  /** Either no report has changed the status yet, and it has no times, or one was the last to. */
  lemma {:induction false} ChangedOrNever(ps: seq<Phase>, rs: seq<Request>)
    requires IsRun(ps, rs)
    ensures var p := ps[|rs|];
            || (p.status.NoStatus? && p.changedAt.None? && p.endedAt.None?)
            || exists i: nat :: IsLastChange(ps, i)
  {
    if rs != [] {
      var n := |rs| - 1;
      var before := ps[..n + 1];
      ChangedOrNever(before, rs[..n]);
      assert Moves(ps[n], ps[n + 1], rs[n]);
      if ps[n].status != ps[n + 1].status {
        assert IsLastChange(ps, n);
      } else if exists i: nat :: IsLastChange(before, i) {
        var i: nat :| IsLastChange(before, i);
        assert IsLastChange(ps, i);
      }
    }
  }

  function Phases(rs: seq<Request>): (ps: seq<Phase>)
    ensures |ps| == |rs| + 1
  {
    if rs == [] then [NEW_SESSION.phase] else Phases(rs[..|rs| - 1]) + [Row(rs).phase]
  }

  /** The phases of any run of reports are such a run, and rest quietly; the session started when it was
      first reported. */
  lemma {:induction false} RowsAreRuns(rs: seq<Request>)
    ensures IsRun(Phases(rs), rs) && Phases(rs)[|rs|] == Row(rs).phase
    ensures RestsQuietly(Row(rs).phase)
    ensures rs != [] ==> Row(rs).startedAt == rs[0].at && Row(rs).lastSeenAt == rs[|rs| - 1].at
  {
    if rs != [] {
      var n := |rs| - 1;
      RowsAreRuns(rs[..n]);
      NextPhaseMoves(Row(rs[..n]).phase, rs[n]);
      var ps := Phases(rs);
      forall i | 0 <= i < |rs|
        ensures Moves(ps[i], ps[i + 1], rs[i])
      {
        if i < n {
          assert Moves(Phases(rs[..n])[i], Phases(rs[..n])[i + 1], rs[..n][i]);
        }
      }
    }
  }

  // ---------------------------------------------------------------------------------------------
  // What hooks alone make of a session, and what partial reports keep.

  /** The hooks that say outright what a session is doing. */
  predicate IsDecisive(e: Event) {
    e.UserPromptSubmit? || e.Notification? || e.Stop? || e.SessionEnd?
  }

  function Decided(r: Request): Status {
    match r.event
    case UserPromptSubmit => Working
    case Notification => if r.notificationType == "idle_prompt" then Idle else Waiting
    case SessionEnd => Ended
    case _ => Idle
  }

  /** `rs[i]` is the last hook to say what the session does. */
  ghost predicate IsLastDecisive(rs: seq<Request>, i: nat) {
    i < |rs| && IsDecisive(rs[i].event) && forall j :: i < j < |rs| ==> !IsDecisive(rs[j].event)
  }

  /** Neither a call nor a decisive hook: it keeps the status, or gives a session its first one. */
  predicate IsBystander(e: Event) {
    !e.Call? && !IsDecisive(e)
  }

  ghost predicate StartsAfter(rs: seq<Request>, i: nat) {
    exists j :: i < j < |rs| && rs[j].event.SessionStart?
  }

  ghost predicate IsFirstBystander(rs: seq<Request>, i: nat) {
    i < |rs| && IsBystander(rs[i].event) && forall j :: 0 <= j < i ==> !IsBystander(rs[j].event)
  }

  lemma HookStep(p: Phase, r: Request)
    requires r.status.NoStatus?
    ensures NextPhase(p, r).status ==
            if r.event.Call? then p.status
            else if IsDecisive(r.event) then Decided(r)
            else if r.event.SessionStart? then (if p.status.NoStatus? || p.status.Ended? then Idle else p.status)
            else if p.status.NoStatus? then Working
            else p.status
  {
  }

  /** Over any run of hooks the last decisive one settles the status, but for a session that was over and
      started again. */
  lemma {:induction false} HookStatusIsTold(rs: seq<Request>, i: nat)
    requires forall k :: 0 <= k < |rs| ==> rs[k].status.NoStatus?
    requires IsLastDecisive(rs, i)
    ensures Row(rs).phase.status == if rs[i].event.SessionEnd? && StartsAfter(rs, i) then Idle else Decided(rs[i])
  {
    var n := |rs| - 1;
    var before := rs[..n];
    assert forall k :: 0 <= k < n ==> before[k] == rs[k];
    HookStep(Row(before).phase, rs[n]);
    assert Row(rs).phase == NextPhase(Row(before).phase, rs[n]);
    if i < n {
      HookStatusIsTold(before, i);
      StartsAfterStep(rs, i);
    }
  }

  /** Before any decisive hook, the first hook of all does; calls alone leave a session without a status. */
  lemma {:induction false} FirstHookIsTold(rs: seq<Request>, i: nat)
    requires forall k :: 0 <= k < |rs| ==> rs[k].status.NoStatus? && !IsDecisive(rs[k].event)
    ensures IsFirstBystander(rs, i) ==> Row(rs).phase.status == if rs[i].event.SessionStart? then Idle else Working
    ensures (forall k :: 0 <= k < |rs| ==> rs[k].event.Call?) ==> Row(rs).phase.status.NoStatus?
  {
    if rs != [] {
      var n := |rs| - 1;
      var before := rs[..n];
      assert forall k :: 0 <= k < n ==> before[k] == rs[k];
      FirstHookIsTold(before, i);
      HookStep(Row(before).phase, rs[n]);
      assert Row(rs).phase == NextPhase(Row(before).phase, rs[n]);
      if IsFirstBystander(rs, i) {
        assert i < n ==> IsFirstBystander(before, i);
        assert i == n ==> forall k :: 0 <= k < n ==> before[k].event.Call?;
      }
    }
  }

  lemma StartsAfterStep(rs: seq<Request>, i: nat)
    requires i < |rs| - 1
    ensures StartsAfter(rs, i) <==> StartsAfter(rs[..|rs| - 1], i) || rs[|rs| - 1].event.SessionStart?
  {
    var before := rs[..|rs| - 1];
    if StartsAfter(before, i) {
      var j :| i < j < |before| && before[j].event.SessionStart?;
      assert rs[j].event.SessionStart?;
    }
    if StartsAfter(rs, i) {
      var j :| i < j < |rs| && rs[j].event.SessionStart?;
      assert j < |before| ==> before[j].event.SessionStart?;
    }
  }

  /** The fields that a report may leave out. */
  datatype Field = User | Machine | ProjectDir | GitBranch | Model | Effort | PermissionMode | Title | LastTool

  function Given(r: Request, f: Field): string {
    match f
    case User => r.user
    case Machine => r.machine
    case ProjectDir => r.projectDir
    case GitBranch => r.gitBranch
    case Model => r.model
    case Effort => r.effort
    case PermissionMode => r.permissionMode
    case Title => r.title
    case LastTool => r.lastTool
  }

  function Stored(s: Session, f: Field): string {
    match f
    case User => s.profile.user
    case Machine => s.profile.machine
    case ProjectDir => s.profile.projectDir
    case GitBranch => s.profile.gitBranch
    case Model => s.profile.model
    case Effort => s.profile.effort
    case PermissionMode => s.profile.permissionMode
    case Title => s.profile.title
    case LastTool => s.lastTool
  }

  /** A partial report erases nothing: each field of a row is what the last report to give it said, and is
      empty only if none ever did. */
  lemma {:induction false} FieldIsKept(rs: seq<Request>, f: Field, i: nat)
    ensures i < |rs| && Given(rs[i], f) != "" && (forall j :: i < j < |rs| ==> Given(rs[j], f) == "") ==>
              Stored(Row(rs), f) == Given(rs[i], f)
    ensures (forall j :: 0 <= j < |rs| ==> Given(rs[j], f) == "") ==> Stored(Row(rs), f) == ""
  {
    if rs != [] {
      var before := rs[..|rs| - 1];
      assert forall j :: 0 <= j < |before| ==> before[j] == rs[j];
      FieldIsKept(before, f, i);
      assert Stored(Row(rs), f) == KeepLast(Stored(Row(before), f), Given(rs[|rs| - 1], f));
    }
  }

  /** Nor does a report without figures zero them. */
  lemma {:induction false} FiguresAreKept(rs: seq<Request>, i: nat)
    requires i < |rs|
    ensures rs[i].usage.Some? && (forall j :: i < j < |rs| ==> rs[j].usage.None?) ==> Row(rs).usage == rs[i].usage.value
    ensures rs[i].contextTokens.Some? && (forall j :: i < j < |rs| ==> rs[j].contextTokens.None?) ==>
              Row(rs).profile.contextKnown && Row(rs).profile.contextTokens == rs[i].contextTokens.value
  {
    if i < |rs| - 1 {
      FiguresAreKept(rs[..|rs| - 1], i);
    }
  }

  // ---------------------------------------------------------------------------------------------
  // Who owns a status.

  /** A report by which nothing is stated: a call, or a watcher's inference. */
  predicate IsInferred(r: Request) {
    r.event.Call? || (r.event.WatchEvent? && !r.status.NoStatus? && !r.declared)
  }

  /** What takes a hook's `waiting`, posted at `c`, off the board: an error or an end, or a status other
      than idle dated strictly after it. */
  predicate Releases(r: Request, c: Stamp) {
    && !r.event.Call?
    && (IsObserved(r.status) || (!r.status.Idle? && !r.status.Waiting? && (c.None? || TimeAfter(r.at, c))))
  }

  /** The phase after further reports of a session that exists. */
  function PhaseFrom(p: Phase, rs: seq<Request>): Phase {
    if rs == [] then p else NextPhase(PhaseFrom(p, rs[..|rs| - 1]), rs[|rs| - 1])
  }

  predicate IsPosted(p: Phase, c: Stamp) {
    p.status.Waiting? && p.source.Hook? && p.changedAt == c
  }

  lemma WaitingStep(p: Phase, r: Request, c: Stamp)
    requires IsInferred(r)
    ensures IsPosted(p, c) ==> (IsPosted(NextPhase(p, r), c) <==> !Releases(r, c))
    ensures !p.source.Hook? ==> !NextPhase(p, r).source.Hook?
    ensures IsPosted(p, c) && Releases(r, c) ==> NextPhase(p, r).source.Watch?
  {
  }

  /** A hook's `waiting` is held over any run of inferences and calls, with its owner and its change
      time, exactly when none of them is a release. */
  lemma {:induction false} WaitingIsHeld(p: Phase, rs: seq<Request>, c: Stamp)
    requires IsPosted(p, c)
    requires forall i :: 0 <= i < |rs| ==> IsInferred(rs[i])
    ensures IsPosted(PhaseFrom(p, rs), c) <==> forall i :: 0 <= i < |rs| ==> !Releases(rs[i], c)
    ensures IsPosted(PhaseFrom(p, rs), c) || !PhaseFrom(p, rs).source.Hook?
  {
    if rs != [] {
      var n := |rs| - 1;
      WaitingIsHeld(p, rs[..n], c);
      WaitingStep(PhaseFrom(p, rs[..n]), rs[n], c);
    }
  }

  /** A watcher's `idle` takes effect unless it is only inferred and a hook owns the open turn: whatever
      the watcher set itself always yields. */
  lemma IdleYields(p: Phase, r: Request)
    requires r.event.WatchEvent? && r.status.Idle?
    ensures NextPhase(p, r).status.Idle? <==> r.declared || !p.source.Hook? || !IsHookActive(p.status)
    ensures p.source.Watch? ==> NextPhase(p, r).status.Idle?
  {
  }

  /** A watch report of a transcript whose history leaves background work open never puts the session
      at rest. */
  lemma OpenWorkIsNeverShownIdle(p: Phase, r: Request, lines: seq<History.Line>, id: string, age: int, now: Instant,
                                 a: Around)
    requires r.event.WatchEvent? && Accepted(r) && BackgroundOpen(lines)
    requires r.status == Resolve(id, ParserRules.Snapshot(ParserRules.Fold(lines)), age, now, a).status
    ensures !NextPhase(p, r).status.Idle?
  {
    OpenWorkNeverReadsIdle(lines, id, age, now, a);
    OnlyIdleRests(p, r);
  }

  /** A watch report puts a session at rest only by saying so. */
  lemma OnlyIdleRests(p: Phase, r: Request)
    requires r.event.WatchEvent? && Accepted(r) && !r.status.Idle?
    ensures !NextPhase(p, r).status.Idle?
  {
  }
}
