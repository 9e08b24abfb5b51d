/** One report per session: a session whose directory changed is written to two transcripts under the
    same id, and only the report with the larger output total goes out. */
module Dedupe {
  import opened Basics

  /** A scan's report, as far as this choice looks at it: `index` tells reports apart. */
  datatype Report = Report(sessionId: string, usage: Option<int>, index: nat)

  function OutputTokens(r: Report): int {
    if r.usage.None? then 0 else r.usage.value
  }

  /** The reports that open a slot of the answer: those without a session id, and the first of each id. */
  function Slots(reports: seq<Report>): (slots: seq<nat>)
    ensures forall k :: 0 <= k < |slots| ==> slots[k] < |reports|
  {
    if reports == [] then []
    else
      var n := |reports| - 1;
      var r := reports[n];
      Slots(reports[..n]) + if r.sessionId == "" || !Reported(reports[..n], r.sessionId) then [n] else []
  }

  predicate Reported(reports: seq<Report>, id: string) {
    exists i :: 0 <= i < |reports| && reports[i].sessionId == id
  }

  /** `reports[i]` carries the largest total of its session, and is the first that does. */
  ghost predicate IsBest(reports: seq<Report>, i: nat) {
    && i < |reports|
    && forall j :: 0 <= j < |reports| && reports[j].sessionId == reports[i].sessionId ==>
         && OutputTokens(reports[j]) <= OutputTokens(reports[i])
         && (j < i ==> OutputTokens(reports[j]) < OutputTokens(reports[i]))
  }

  /** What belongs in the slot that `first` opened: itself if it names no session, otherwise the best
      report of its session. */
  ghost predicate Fills(reports: seq<Report>, first: Report, r: Report) {
    if first.sessionId == "" then r == first
    else r.sessionId == first.sessionId && exists i: nat :: IsBest(reports, i) && reports[i] == r
  }

  /** The answer: every slot in order, each filled. */
  ghost predicate IsDeduped(reports: seq<Report>, out: seq<Report>) {
    && |out| == |Slots(reports)|
    && forall k :: 0 <= k < |out| ==> Fills(reports, reports[Slots(reports)[k]], out[k])
  }

  lemma BestStep(reports: seq<Report>, r: Report, i: nat)
    requires IsBest(reports, i)
    ensures reports[i].sessionId != r.sessionId || OutputTokens(r) <= OutputTokens(reports[i]) ==>
              IsBest(reports + [r], i)
    ensures reports[i].sessionId == r.sessionId && OutputTokens(r) > OutputTokens(reports[i]) ==>
              IsBest(reports + [r], |reports|)
  {
    var all := reports + [r];
    forall j | 0 <= j < |all| && all[j].sessionId == all[i].sessionId
      ensures j < |reports| ==> OutputTokens(all[j]) <= OutputTokens(reports[i])
    {
    }
  }

  lemma FillsStep(reports: seq<Report>, r: Report, first: Report, held: Report)
    requires Fills(reports, first, held)
    ensures first.sessionId == "" || first.sessionId != r.sessionId || OutputTokens(r) <= OutputTokens(held)
            ==> Fills(reports + [r], first, held)
    ensures first.sessionId != "" && first.sessionId == r.sessionId && OutputTokens(r) > OutputTokens(held)
            ==> Fills(reports + [r], first, r)
  {
    if first.sessionId != "" {
      var i: nat :| IsBest(reports, i) && reports[i] == held;
      BestStep(reports, r, i);
      assert (reports + [r])[i] == held && (reports + [r])[|reports|] == r;
    }
  }

  lemma SlotsSnoc(reports: seq<Report>, r: Report)
    ensures Slots(reports + [r]) ==
            Slots(reports) + if r.sessionId == "" || !Reported(reports, r.sessionId) then [|reports|] else []
  {
    assert (reports + [r])[..|reports|] == reports;
  }

  lemma NewFills(reports: seq<Report>, r: Report)
    requires r.sessionId == "" || !Reported(reports, r.sessionId)
    ensures Fills(reports + [r], r, r)
  {
    if r.sessionId != "" {
      assert forall j :: 0 <= j < |reports| ==> (reports + [r])[j] == reports[j];
      assert IsBest(reports + [r], |reports|) && (reports + [r])[|reports|] == r;
    }
  }

  /** A report that names no session, or a new one, adds a slot. */
  lemma AddsSlot(reports: seq<Report>, out: seq<Report>, r: Report)
    requires IsDeduped(reports, out)
    requires r.sessionId == "" || !Reported(reports, r.sessionId)
    ensures IsDeduped(reports + [r], out + [r])
  {
    SlotsSnoc(reports, r);
    NewFills(reports, r);
    var slots, all, more := Slots(reports), reports + [r], out + [r];
    assert Slots(all) == slots + [|reports|];
    forall k | 0 <= k < |more|
      ensures Fills(all, all[Slots(all)[k]], more[k])
    {
      if k < |out| {
        FillsStep(reports, r, reports[slots[k]], out[k]);
      }
    }
  }

  /** Any other report replaces what its session's slot holds, if it carries more, or is dropped. */
  lemma KeepsSlots(reports: seq<Report>, out: seq<Report>, r: Report, slot: nat)
    requires IsDeduped(reports, out)
    requires r.sessionId != "" && Reported(reports, r.sessionId) && SlotOf(reports, r.sessionId, slot)
    ensures IsDeduped(reports + [r], if OutputTokens(r) > OutputTokens(out[slot]) then out[slot := r] else out)
  {
    SlotsSnoc(reports, r);
    var slots := Slots(reports);
    forall k | 0 <= k < |out|
      ensures Fills(reports + [r], reports[slots[k]],
                    if k == slot && OutputTokens(r) > OutputTokens(out[slot]) then r else out[k])
    {
      if k != slot {
        OtherSlot(reports, r.sessionId, slot, k);
      }
      FillsStep(reports, r, reports[slots[k]], out[k]);
    }
  }

  lemma OtherSlot(reports: seq<Report>, id: string, slot: nat, k: nat)
    requires id != "" && SlotOf(reports, id, slot) && k < |Slots(reports)| && k != slot
    ensures reports[Slots(reports)[k]].sessionId != id
  {
    OneSlot(reports, id);
    assert !SlotOf(reports, id, k);
  }

  /** Slot `k` is the one of session `id`. */
  ghost predicate SlotOf(reports: seq<Report>, id: string, k: nat) {
    k < |Slots(reports)| && reports[Slots(reports)[k]].sessionId == id
  }

  /** A session that has been reported has exactly one slot. */
  lemma {:induction false} OneSlot(reports: seq<Report>, id: string)
    requires id != ""
    ensures Reported(reports, id) <==> exists k: nat :: SlotOf(reports, id, k)
    ensures forall k: nat, l: nat :: SlotOf(reports, id, k) && SlotOf(reports, id, l) ==> k == l
  {
    if reports != [] {
      var n := |reports| - 1;
      var before, r := reports[..n], reports[n];
      assert before + [r] == reports;
      OneSlot(before, id);
      SlotsSnoc(before, r);
      var slots := Slots(before);
      assert forall k: nat :: k < |slots| ==> (SlotOf(reports, id, k) <==> SlotOf(before, id, k));
      if Reported(before, id) {
        var k: nat :| SlotOf(before, id, k);
        assert SlotOf(reports, id, k);
      } else if r.sessionId == id {
        assert SlotOf(reports, id, |slots|);
      }
    }
  }

  /** Where each session's report is kept. */
  ghost predicate IsIndex(reports: seq<Report>, best: map<string, nat>) {
    && (forall id :: id in best <==> id != "" && Reported(reports, id))
    && (forall id :: id in best ==> SlotOf(reports, id, best[id]))
  }

  lemma IndexStep(reports: seq<Report>, best: map<string, nat>, r: Report)
    requires IsIndex(reports, best)
    ensures IsIndex(reports + [r], if r.sessionId == "" || r.sessionId in best then best
                                   else best[r.sessionId := |Slots(reports)|])
  {
    var all := reports + [r];
    SlotsSnoc(reports, r);
    forall id
      ensures Reported(all, id) <==> Reported(reports, id) || id == r.sessionId
    {
      assert all[|reports|] == r;
      if Reported(reports, id) {
        var i :| 0 <= i < |reports| && reports[i].sessionId == id;
        assert all[i].sessionId == id;
      }
    }
  }

  /** One pass over the reports: each session's slot holds the best of its reports so far. */
  method DedupeBySession(reports: seq<Report>) returns (out: seq<Report>)
    ensures IsDeduped(reports, out)
  {
    var best: map<string, nat> := map[];
    out := [];
    for i := 0 to |reports|
      invariant IsDeduped(reports[..i], out)
      invariant IsIndex(reports[..i], best)
    {
      var r := reports[i];
      assert reports[..i + 1] == reports[..i] + [r];
      IndexStep(reports[..i], best, r);
      if r.sessionId == "" {
        AddsSlot(reports[..i], out, r);
        out := out + [r];
      } else if r.sessionId !in best {
        AddsSlot(reports[..i], out, r);
        best := best[r.sessionId := |out|];
        out := out + [r];
      } else {
        KeepsSlots(reports[..i], out, r, best[r.sessionId]);
        var k := best[r.sessionId];
        if OutputTokens(r) > OutputTokens(out[k]) {
          out := out[k := r];
        }
      }
    }
    assert reports[..|reports|] == reports;
  }

  /** What that comes to: no session is reported twice, none is lost, and whichever report of a session
      goes out, no other of its reports carries a larger total. */
  lemma OnePerSession(reports: seq<Report>, out: seq<Report>)
    requires IsDeduped(reports, out)
    ensures forall k, l :: 0 <= k < l < |out| && out[k].sessionId != "" ==> out[k].sessionId != out[l].sessionId
    ensures forall i :: 0 <= i < |reports| && reports[i].sessionId != "" ==>
              exists k :: 0 <= k < |out| && out[k].sessionId == reports[i].sessionId
    ensures forall i, k ::
              0 <= i < |reports| && 0 <= k < |out| && reports[i].sessionId == out[k].sessionId != ""
              ==> OutputTokens(reports[i]) <= OutputTokens(out[k])
  {
    var slots := Slots(reports);
    forall k | 0 <= k < |out|
      ensures out[k].sessionId == reports[slots[k]].sessionId
    {
      assert Fills(reports, reports[slots[k]], out[k]);
    }
    forall k, l | 0 <= k < l < |out| && out[k].sessionId != ""
      ensures out[k].sessionId != out[l].sessionId
    {
      assert SlotOf(reports, out[k].sessionId, k);
      OtherSlot(reports, out[k].sessionId, k, l);
    }
    forall i | 0 <= i < |reports| && reports[i].sessionId != ""
      ensures exists k :: 0 <= k < |out| && out[k].sessionId == reports[i].sessionId
    {
      OneSlot(reports, reports[i].sessionId);
      assert Reported(reports, reports[i].sessionId);
      var k: nat :| SlotOf(reports, reports[i].sessionId, k);
      assert out[k].sessionId == reports[i].sessionId;
    }
    forall i, k | 0 <= i < |reports| && 0 <= k < |out| && reports[i].sessionId == out[k].sessionId != ""
      ensures OutputTokens(reports[i]) <= OutputTokens(out[k])
    {
      assert Fills(reports, reports[slots[k]], out[k]);
    }
  }
}
