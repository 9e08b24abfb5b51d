/** Concurrent reports: every handler reads the row, merges and writes it back under one mutex, while
    pruning deletes rows without taking it. */
module Apply {
  import opened Basics
  import opened Report

  /** How far a handler has come. Failing to read or to write ends it, and releases the mutex. */
  datatype Progress = Ready | Locked | HasRead(current: Option<Session>) | Finished

  datatype State = State(rows: map<string, Session>, holder: Option<nat>, handlers: seq<Progress>)

  datatype Step = Acquire(h: nat) | Read(h: nat, ok: bool) | Write(h: nat, ok: bool) | Prune(gone: set<string>)

  function Lookup(rows: map<string, Session>, id: string): Option<Session> {
    if id in rows then Some(rows[id]) else None
  }

  function Stored(s: State, id: string): Option<Session> {
    Lookup(s.rows, id)
  }

  function Merged(current: Option<Session>, r: Request): Session {
    ApplyReport(if current.Some? then current.value else NEW_SESSION, current.None?, r)
  }

  predicate Enabled(s: State, st: Step) {
    match st
    case Acquire(h) => h < |s.handlers| && s.handlers[h].Ready? && s.holder.None?
    case Read(h, _) => h < |s.handlers| && s.handlers[h].Locked?
    case Write(h, _) => h < |s.handlers| && s.handlers[h].HasRead?
    case Prune(_) => true
  }

  /** `reqs[h]` is the report handler `h` was given. */
  function Next(s: State, reqs: seq<Request>, st: Step): State
    requires |s.handlers| == |reqs| && Enabled(s, st)
  {
    match st
    case Acquire(h) => s.(holder := Some(h), handlers := s.handlers[h := Locked])
    case Read(h, ok) =>
      if ok then s.(handlers := s.handlers[h := HasRead(Stored(s, reqs[h].sessionId))])
      else s.(holder := None, handlers := s.handlers[h := Finished])
    case Write(h, ok) =>
      var released := s.(holder := None, handlers := s.handlers[h := Finished]);
      if ok then released.(rows := s.rows[reqs[h].sessionId := Merged(s.handlers[h].current, reqs[h])]) else released
    case Prune(gone) => s.(rows := s.rows - gone)
  }

  function Start(reqs: seq<Request>): State {
    State(map[], None, seq(|reqs|, _ => Ready))
  }

  ghost predicate IsRun(ss: seq<State>, reqs: seq<Request>, steps: seq<Step>) {
    && |ss| == |steps| + 1
    && ss[0] == Start(reqs)
    && forall i :: 0 <= i < |steps| ==> Follows(ss[i], reqs, steps[i], ss[i + 1])
  }

  ghost predicate Follows(s: State, reqs: seq<Request>, st: Step, s': State) {
    |s.handlers| == |reqs| && Enabled(s, st) && s' == Next(s, reqs, st)
  }

  // ---------------------------------------------------------------------------------------------
  // The mutex.

  predicate IsInside(p: Progress) {
    p.Locked? || p.HasRead?
  }

  ghost predicate Exclusive(s: State) {
    forall h :: 0 <= h < |s.handlers| && IsInside(s.handlers[h]) ==> s.holder == Some(h)
  }

  lemma {:induction false} MutexHolds(ss: seq<State>, reqs: seq<Request>, steps: seq<Step>)
    requires IsRun(ss, reqs, steps)
    ensures |ss[|steps|].handlers| == |reqs| && Exclusive(ss[|steps|])
  {
    if steps != [] {
      var n := |steps| - 1;
      MutexHolds(ss[..n + 1], reqs, steps[..n]);
      assert Follows(ss[n], reqs, steps[n], ss[n + 1]);
    }
  }

  // ---------------------------------------------------------------------------------------------
  // What a row holds.

  /** A successful write of handler `h` for session `id`. */
  predicate Writes(reqs: seq<Request>, st: Step, id: string) {
    st.Write? && st.ok && st.h < |reqs| && reqs[st.h].sessionId == id
  }

  predicate Prunes(st: Step, id: string) {
    st.Prune? && id in st.gone
  }

  /** Where handler `h` last read its row. */
  function ReadAt(steps: seq<Step>, h: nat): (at: nat)
    ensures at <= |steps|
    ensures at < |steps| ==> steps[at] == Read(h, true)
    ensures forall i :: at < i < |steps| ==> steps[i] != Read(h, true)
  {
    if steps == [] then 0
    else
      var n := |steps| - 1;
      if steps[n] == Read(h, true) then n
      else
        var at := ReadAt(steps[..n], h);
        if at < n then at else |steps|
  }

  /** The reports the row of `id` reflects: those it reflected when the last writer read it, and the
      writer's own; or those of the step before; or none, once pruned. */
  function Reflected(reqs: seq<Request>, steps: seq<Step>, id: string): seq<Request>
    decreases |steps|
  {
    if steps == [] then []
    else
      var n := |steps| - 1;
      var st := steps[n];
      if Writes(reqs, st, id) then Reflected(reqs, steps[..ReadAt(steps[..n], st.h)], id) + [reqs[st.h]]
      else if Prunes(st, id) then []
      else Reflected(reqs, steps[..n], id)
  }

  /** The reports written for `id` since it was last pruned, in the order the mutex was taken. */
  function Linearized(reqs: seq<Request>, steps: seq<Step>, id: string): seq<Request> {
    if steps == [] then []
    else
      var n := |steps| - 1;
      var before := Linearized(reqs, steps[..n], id);
      if Writes(reqs, steps[n], id) then before + [reqs[steps[n].h]]
      else if Prunes(steps[n], id) then []
      else before
  }

  function RowOf(rs: seq<Request>): Option<Session> {
    if rs == [] then None else Some(Row(rs))
  }

  /** A handler that has read holds the row as it stood where it read it. */
  ghost predicate ReadsAgree(s: State, ss: seq<State>, reqs: seq<Request>, steps: seq<Step>) {
    |ss| == |steps| + 1 && |s.handlers| == |reqs| &&
    forall h :: 0 <= h < |s.handlers| && s.handlers[h].HasRead? ==>
      var at := ReadAt(steps, h);
      at < |steps| && s.handlers[h].current == Stored(ss[at], reqs[h].sessionId)
  }

  lemma ReadsAgreeStep(ss: seq<State>, reqs: seq<Request>, steps: seq<Step>)
    requires IsRun(ss, reqs, steps) && steps != []
    requires var n := |steps| - 1; ReadsAgree(ss[n], ss[..n + 1], reqs, steps[..n])
    ensures ReadsAgree(ss[|steps|], ss, reqs, steps)
  {
    var n := |steps| - 1;
    assert Follows(ss[n], reqs, steps[n], ss[n + 1]);
    forall h | 0 <= h < |reqs| && ss[n + 1].handlers[h].HasRead?
      ensures ReadAt(steps, h) < |steps|
      ensures ss[n + 1].handlers[h].current == Stored(ss[ReadAt(steps, h)], reqs[h].sessionId)
    {
      if steps[n] != Read(h, true) {
        assert ss[n].handlers[h] == ss[n + 1].handlers[h];
      }
    }
  }

  lemma {:induction false} AllReadsAgree(ss: seq<State>, reqs: seq<Request>, steps: seq<Step>)
    requires IsRun(ss, reqs, steps)
    ensures ReadsAgree(ss[|steps|], ss, reqs, steps)
  {
    if steps != [] {
      var n := |steps| - 1;
      AllReadsAgree(ss[..n + 1], reqs, steps[..n]);
      ReadsAgreeStep(ss, reqs, steps);
    }
  }

  lemma RowGrows(rs: seq<Request>, r: Request)
    ensures RowOf(rs + [r]) == Some(Merged(RowOf(rs), r))
  {
    assert (rs + [r])[..|rs|] == rs;
    assert Row(rs + [r]) == ApplyReport(Row(rs), rs == [], r);
    assert rs == [] ==> Row(rs) == NEW_SESSION;
  }

  lemma WritesWhatItRead(ss: seq<State>, reqs: seq<Request>, steps: seq<Step>, id: string)
    requires IsRun(ss, reqs, steps) && steps != [] && Writes(reqs, steps[|steps| - 1], id)
    ensures var n := |steps| - 1;
            var at := ReadAt(steps[..n], steps[n].h);
            at < n && Stored(ss[n + 1], id) == Some(Merged(Stored(ss[at], id), reqs[steps[n].h]))
  {
    var n := |steps| - 1;
    assert Follows(ss[n], reqs, steps[n], ss[n + 1]);
    AllReadsAgree(ss[..n + 1], reqs, steps[..n]);
  }

  /** At every moment of every interleaving, the stored row is the fold of the reports it reflects. */
  lemma {:induction false} RowIsTheFold(ss: seq<State>, reqs: seq<Request>, steps: seq<Step>, id: string)
    requires IsRun(ss, reqs, steps)
    ensures Stored(ss[|steps|], id) == RowOf(Reflected(reqs, steps, id))
    decreases |steps|
  {
    if steps != [] {
      var n := |steps| - 1;
      var st := steps[n];
      assert Follows(ss[n], reqs, st, ss[n + 1]);
      RowIsTheFold(ss[..n + 1], reqs, steps[..n], id);
      if Writes(reqs, st, id) {
        var at := ReadAt(steps[..n], st.h);
        WritesWhatItRead(ss, reqs, steps, id);
        RowIsTheFold(ss[..at + 1], reqs, steps[..at], id);
        RowGrows(Reflected(reqs, steps[..at], id), reqs[st.h]);
      }
    }
  }

  // ---------------------------------------------------------------------------------------------
  // Linearity, and the one thing that breaks it.

  /** Step `k` writes back a row that was pruned after it was read. */
  ghost predicate UndoesPrune(reqs: seq<Request>, steps: seq<Step>, id: string, k: nat) {
    && k < |steps| && Writes(reqs, steps[k], id)
    && var at := ReadAt(steps[..k], steps[k].h);
       Reflected(reqs, steps[..at], id) != [] && exists j :: at < j < k && Prunes(steps[j], id)
  }

  /** While a handler is between its read and its write, no other handler writes. */
  lemma {:induction false} NobodyElseWrites(ss: seq<State>, reqs: seq<Request>, steps: seq<Step>, h: nat, at: nat,
                                            id: string)
    requires IsRun(ss, reqs, steps) && h < |reqs|
    requires |ss[|steps|].handlers| == |reqs| && ss[|steps|].handlers[h].HasRead?
    requires at == ReadAt(steps, h) && at < |steps|
    ensures if exists j :: at < j < |steps| && Prunes(steps[j], id)
            then Reflected(reqs, steps, id) == []
            else Reflected(reqs, steps, id) == Reflected(reqs, steps[..at], id)
  {
    var n := |steps| - 1;
    if at < n {
      StillInside(ss, reqs, steps, h, id);
      assert steps[..n][..at] == steps[..at];
      assert forall j :: at < j < n ==> steps[..n][j] == steps[j];
      NobodyElseWrites(ss[..n + 1], reqs, steps[..n], h, at, id);
    }
  }

  /** A handler that has read before this step keeps the mutex through it, so the step writes nothing. */
  lemma StillInside(ss: seq<State>, reqs: seq<Request>, steps: seq<Step>, h: nat, id: string)
    requires IsRun(ss, reqs, steps) && steps != [] && h < |reqs| && |ss[|steps|].handlers| == |reqs|
    requires ss[|steps|].handlers[h].HasRead? && steps[|steps| - 1] != Read(h, true)
    ensures var n := |steps| - 1;
            |ss[n].handlers| == |reqs| && ss[n].handlers[h].HasRead? && !Writes(reqs, steps[n], id)
  {
    var n := |steps| - 1;
    assert Follows(ss[n], reqs, steps[n], ss[n + 1]);
    MutexHolds(ss[..n + 1], reqs, steps[..n]);
  }

  /** A write adds its report to what the row reflects, unless it undoes a prune; then the row comes
      back as it was before the prune. */
  lemma WriteIsLinear(ss: seq<State>, reqs: seq<Request>, steps: seq<Step>, id: string)
    requires IsRun(ss, reqs, steps) && steps != [] && Writes(reqs, steps[|steps| - 1], id)
    ensures var n := |steps| - 1;
            Reflected(reqs, steps, id) == Reflected(reqs, steps[..n], id) + [reqs[steps[n].h]]
            <==> !UndoesPrune(reqs, steps, id, n)
  {
    var n := |steps| - 1;
    assert Follows(ss[n], reqs, steps[n], ss[n + 1]);
    AllReadsAgree(ss[..n + 1], reqs, steps[..n]);
    var at := ReadAt(steps[..n], steps[n].h);
    NobodyElseWrites(ss[..n + 1], reqs, steps[..n], steps[n].h, at, id);
    assert steps[..n][..at] == steps[..at];
    assert forall j :: at < j < n ==> steps[..n][j] == steps[j];
    assert Reflected(reqs, steps, id) == Reflected(reqs, steps[..at], id) + [reqs[steps[n].h]];
    assert |Reflected(reqs, steps[..at], id) + [reqs[steps[n].h]]| == |Reflected(reqs, steps[..at], id)| + 1;
  }

  ghost predicate IsLinear(reqs: seq<Request>, steps: seq<Step>, id: string) {
    forall m :: 0 <= m <= |steps| ==> Reflected(reqs, steps[..m], id) == Linearized(reqs, steps[..m], id)
  }

  ghost predicate NothingUndone(reqs: seq<Request>, steps: seq<Step>, id: string) {
    forall k: nat :: !UndoesPrune(reqs, steps, id, k)
  }

  lemma UndoesPrefix(reqs: seq<Request>, steps: seq<Step>, id: string, m: nat, k: nat)
    requires k < m <= |steps|
    ensures UndoesPrune(reqs, steps[..m], id, k) <==> UndoesPrune(reqs, steps, id, k)
  {
    assert steps[..m][..k] == steps[..k];
    if Writes(reqs, steps[k], id) {
      var at := ReadAt(steps[..k], steps[k].h);
      assert steps[..m][..at] == steps[..at];
      assert forall j :: at < j < k ==> steps[..m][j] == steps[j];
    }
  }

  /** Over a whole run, the row of a session is always the fold, in lock order, of the reports written
      since it was last pruned, if and only if no prune ever fell between a writer's read and its write. */
  lemma {:induction false} LinearUnlessUndone(ss: seq<State>, reqs: seq<Request>, steps: seq<Step>, id: string)
    requires IsRun(ss, reqs, steps)
    ensures IsLinear(reqs, steps, id) <==> NothingUndone(reqs, steps, id)
  {
    if steps == [] {
      assert steps[..0] == [];
    } else {
      var n := |steps| - 1;
      var before := steps[..n];
      LinearUnlessUndone(ss[..n + 1], reqs, before, id);
      forall m | 0 <= m <= n
        ensures before[..m] == steps[..m]
      {
      }
      assert steps[..n + 1] == steps;
      forall k: nat | k < n
        ensures UndoesPrune(reqs, before, id, k) <==> UndoesPrune(reqs, steps, id, k)
      {
        UndoesPrefix(reqs, steps, id, n, k);
      }
      if Writes(reqs, steps[n], id) {
        WriteIsLinear(ss, reqs, steps, id);
      }
      assert IsLinear(reqs, steps, id) <==>
             IsLinear(reqs, before, id) && Reflected(reqs, steps, id) == Linearized(reqs, steps, id);
      assert NothingUndone(reqs, steps, id) <==> NothingUndone(reqs, before, id) && !UndoesPrune(reqs, steps, id, n);
    }
  }

  lemma Take(ss: seq<State>, reqs: seq<Request>, steps: seq<Step>, st: Step)
    returns (ss': seq<State>, steps': seq<Step>, s': State)
    requires IsRun(ss, reqs, steps) && |ss[|steps|].handlers| == |reqs| && Enabled(ss[|steps|], st)
    ensures s' == Next(ss[|steps|], reqs, st) && ss' == ss + [s'] && steps' == steps + [st]
    ensures IsRun(ss', reqs, steps') && |s'.handlers| == |reqs|
  {
    s' := Next(ss[|steps|], reqs, st);
    ss', steps' := ss + [s'], steps + [st];
    forall i | 0 <= i < |steps'|
      ensures Follows(ss'[i], reqs, steps'[i], ss'[i + 1])
    {
      if i < |steps| {
        assert Follows(ss[i], reqs, steps[i], ss[i + 1]);
      }
    }
  }

  /** A session reported once, and then reported again with its pruning in between. */
  function Script(id: string): seq<Step> {
    [Acquire(0), Read(0, true), Write(0, true), Acquire(1), Read(1, true), Prune({id}), Write(1, true)]
  }

  lemma {:induction false} FirstReport(reqs: seq<Request>, id: string) returns (ss: seq<State>, steps: seq<Step>)
    requires |reqs| == 2 && reqs[0].sessionId == id && reqs[1].sessionId == id
    ensures IsRun(ss, reqs, steps) && steps == Script(id)[..3]
    ensures ss[3].holder == None && ss[3].handlers == [Finished, Ready]
  {
    var s;
    ss, steps := [Start(reqs)], [];
    ss, steps, s := Take(ss, reqs, steps, Acquire(0));
    ss, steps, s := Take(ss, reqs, steps, Read(0, true));
    ss, steps, s := Take(ss, reqs, steps, Write(0, true));
  }

  lemma {:induction false} SecondReport(reqs: seq<Request>, id: string) returns (ss: seq<State>, steps: seq<Step>)
    requires |reqs| == 2 && reqs[0].sessionId == id && reqs[1].sessionId == id
    ensures IsRun(ss, reqs, steps) && steps == Script(id)
  {
    var s;
    ss, steps := FirstReport(reqs, id);
    ss, steps, s := Take(ss, reqs, steps, Acquire(1));
    ss, steps, s := Take(ss, reqs, steps, Read(1, true));
    ss, steps, s := Take(ss, reqs, steps, Prune({id}));
    ss, steps, s := Take(ss, reqs, steps, Write(1, true));
  }

  lemma {:induction false} ScriptReflects(reqs: seq<Request>, id: string)
    requires |reqs| == 2 && reqs[0].sessionId == id && reqs[1].sessionId == id
    ensures ReadAt(Script(id)[..6], 1) == 4
    ensures Reflected(reqs, Script(id)[..4], id) == [reqs[0]]
  {
    var steps := Script(id);
    var nothing: seq<Request> := [];
    assert steps[..6][..5] == steps[..5] && steps[..5][..4] == steps[..4];
    assert steps[..4][..3] == steps[..3] && steps[..3][..2] == steps[..2] && steps[..2][..1] == steps[..1];
    assert ReadAt(steps[..1], 0) == 1 && ReadAt(steps[..2], 0) == 1;
    assert steps[..3][..1] == steps[..1] && steps[..1][..0] == [];
    assert Reflected(reqs, steps[..1], id) == nothing;
    assert Reflected(reqs, steps[..3], id) == nothing + [reqs[0]];
  }

  /** It does happen: any two reports of a session can run so that a prune is undone, and the row is then
      not the fold of what was written since. */
  lemma {:induction false} APruneIsUndone(reqs: seq<Request>, id: string) returns (ss: seq<State>, steps: seq<Step>)
    requires |reqs| == 2 && reqs[0].sessionId == id && reqs[1].sessionId == id
    ensures IsRun(ss, reqs, steps) && |steps| == 7 && UndoesPrune(reqs, steps, id, 6) && !IsLinear(reqs, steps, id)
    ensures Stored(ss[7], id) == RowOf(reqs)
  {
    ss, steps := SecondReport(reqs, id);
    ScriptReflects(reqs, id);
    assert Prunes(steps[5], id);
    assert UndoesPrune(reqs, steps, id, 6);
    LinearUnlessUndone(ss, reqs, steps, id);
    RowIsTheFold(ss, reqs, steps, id);
    assert steps[..6][..4] == steps[..4] && [reqs[0]] + [reqs[1]] == reqs;
  }

  // ---------------------------------------------------------------------------------------------
  // The store's own method.

  class Sessions {
    var rows: map<string, Session>

    constructor ()
      ensures rows == map[]
    {
      rows := map[];
    }

    /** Runs the merge against the session's row and writes the result, with the mutex held throughout. */
    method ApplySession(r: Request, readFails: bool, writeFails: bool)
      returns (result: Result<(Option<Session>, Session)>)
      modifies this
      ensures result.Ok? <==> !readFails && !writeFails
      ensures result.Err? ==> rows == old(rows)
      ensures result.Ok? ==>
                var before := Lookup(old(rows), r.sessionId);
                && result.value == (before, Merged(before, r))
                && rows == old(rows)[r.sessionId := Merged(before, r)]
    {
      if readFails {
        return Err;
      }
      var current := Lookup(rows, r.sessionId);
      var merged := Merged(current, r);
      if writeFails {
        return Err;
      }
      rows := rows[r.sessionId := merged];
      result := Ok((current, merged));
    }
  }
}
