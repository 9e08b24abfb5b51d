/** The usage lease: one row that says which machine may write the usage snapshot, and until when. */
module Lease {
  import opened Basics

  /** The lease row. `expiry` is None when its text names no instant. */
  datatype Row = Row(holder: string, expiry: Option<Instant>)

  /** An expiry is stored as text, to the second. */
  function Expiry(now: Instant, ttl: int): Instant {
    (now + ttl) / SECOND * SECOND
  }

  /** Who holds the lease at `now`; nobody, once it has expired or cannot be read. */
  function HolderAt(lease: Option<Row>, now: Instant): Option<string> {
    if lease.Some? && lease.value.expiry.Some? && now < lease.value.expiry.value then Some(lease.value.holder) else None
  }

  predicate IsDenied(lease: Option<Row>, holder: string, now: Instant) {
    HolderAt(lease, now).Some? && HolderAt(lease, now).value != holder
  }

  /** One transaction on the lease, at the instant the daemon's clock showed. */
  datatype Call =
    | Acquire(holder: string, ttl: int, at: Instant, commits: bool)
    | Release(holder: string, at: Instant, commits: bool)
    | Write(holder: string, at: Instant, commits: bool)

  function Apply(lease: Option<Row>, c: Call): Option<Row> {
    if !c.commits then lease
    else
      match c
      case Acquire(holder, ttl, at, _) =>
        if IsDenied(lease, holder, at) then lease else Some(Row(holder, Some(Expiry(at, ttl))))
      case Release(holder, _, _) => if lease.Some? && lease.value.holder == holder then None else lease
      case Write(_, _, _) => lease
  }

  /** The lease row after a run, from a store that never had one. */
  function Run(cs: seq<Call>): Option<Row> {
    if cs == [] then None else Apply(Run(cs[..|cs| - 1]), cs[|cs| - 1])
  }

  /** Whether the snapshot is written: the writer holds the lease, and has a name. */
  predicate MayWrite(lease: Option<Row>, holder: string, now: Instant) {
    holder != "" && HolderAt(lease, now) == Some(holder)
  }

  predicate Written(cs: seq<Call>, i: nat)
    requires i < |cs|
  {
    cs[i].Write? && cs[i].commits && MayWrite(Run(cs[..i]), cs[i].holder, cs[i].at)
  }

  predicate Granted(cs: seq<Call>, i: nat)
    requires i < |cs|
  {
    cs[i].Acquire? && cs[i].commits && !IsDenied(Run(cs[..i]), cs[i].holder, cs[i].at)
  }

  // ---------------------------------------------------------------------------------------------
  // Who may write.

  predicate Releases(c: Call, holder: string) {
    c.Release? && c.commits && c.holder == holder
  }

  /** Among the first `n` calls, the last grant was `i`, and its holder has not released it. */
  ghost predicate IsCurrent(cs: seq<Call>, n: nat, i: nat)
    requires n <= |cs|
  {
    && i < n && Granted(cs, i)
    && (forall j :: i < j < n ==> !Granted(cs, j) && !Releases(cs[j], cs[i].holder))
  }

  lemma CurrentStep(cs: seq<Call>, n: nat, i: nat)
    requires n < |cs|
    ensures IsCurrent(cs, n + 1, i) <==>
            if Granted(cs, n) then i == n else IsCurrent(cs, n, i) && !Releases(cs[n], cs[i].holder)
  {
  }

  ghost predicate RowIsTold(cs: seq<Call>, n: nat, lease: Option<Row>)
    requires n <= |cs|
  {
    if lease.None? then forall i: nat :: !IsCurrent(cs, n, i)
    else exists i: nat :: IsCurrent(cs, n, i) && lease.value == Row(cs[i].holder, Some(Expiry(cs[i].at, cs[i].ttl)))
  }

  lemma RowIsToldStep(cs: seq<Call>, n: nat)
    requires n < |cs| && RowIsTold(cs, n, Run(cs[..n]))
    ensures RowIsTold(cs, n + 1, Apply(Run(cs[..n]), cs[n]))
  {
    var lease := Run(cs[..n]);
    forall i: nat {
      CurrentStep(cs, n, i);
    }
    var m := n + 1;
    if Granted(cs, n) {
      assert IsCurrent(cs, m, n);
    } else if lease.Some? {
      var i: nat :| IsCurrent(cs, n, i) && lease.value == Row(cs[i].holder, Some(Expiry(cs[i].at, cs[i].ttl)));
      OneCurrent(cs, n, i);
      CurrentStep(cs, n, i);
    }
  }

  lemma OneCurrent(cs: seq<Call>, n: nat, i: nat)
    requires n <= |cs| && IsCurrent(cs, n, i)
    ensures forall j: nat :: IsCurrent(cs, n, j) ==> j == i
  {
  }

  lemma {:induction false} PrefixIsTold(cs: seq<Call>, n: nat)
    requires n <= |cs|
    ensures RowIsTold(cs, n, Run(cs[..n]))
  {
    if n > 0 {
      PrefixIsTold(cs, n - 1);
      assert cs[..n][..n - 1] == cs[..n - 1];
      RowIsToldStep(cs, n - 1);
    }
  }

  /** The lease of call `i` covers the instant `t`. */
  predicate Covers(c: Call, t: Instant)
    requires c.Acquire?
  {
    t < Expiry(c.at, c.ttl)
  }

  /** A snapshot write succeeds exactly when the last acquisition granted is the writer's own, has not
      been released, and has not reached its expiry. A writer without a name never writes. */
  lemma WriteNeedsTheLease(cs: seq<Call>, n: nat)
    requires n < |cs| && cs[n].Write?
    ensures Written(cs, n) <==>
            && cs[n].commits && cs[n].holder != ""
            && exists i: nat :: IsCurrent(cs, n, i) && cs[i].holder == cs[n].holder && Covers(cs[i], cs[n].at)
  {
    PrefixIsTold(cs, n);
    if Run(cs[..n]).Some? {
      var i: nat :| IsCurrent(cs, n, i) && Run(cs[..n]).value == Row(cs[i].holder, Some(Expiry(cs[i].at, cs[i].ttl)));
      OneCurrent(cs, n, i);
    }
  }

  // ---------------------------------------------------------------------------------------------
  // Tenures.

  ghost predicate ClockNeverStepsBack(cs: seq<Call>) {
    forall i, j :: 0 <= i < j < |cs| ==> cs[i].at <= cs[j].at
  }

  /** Between `i` and `j` the holder of grant `i` gave its lease up or had it granted anew. */
  ghost predicate IsCut(cs: seq<Call>, i: nat, j: nat)
    requires i < j <= |cs| && Granted(cs, i)
  {
    exists k :: i < k < j && cs[k].holder == cs[i].holder && (Granted(cs, k) || Releases(cs[k], cs[i].holder))
  }

  lemma CutLater(cs: seq<Call>, i: nat, j: nat, n: nat)
    requires i < j <= n <= |cs| && Granted(cs, i) && IsCut(cs, i, j)
    ensures IsCut(cs, i, n)
  {
    var k :| i < k < j && cs[k].holder == cs[i].holder && (Granted(cs, k) || Releases(cs[k], cs[i].holder));
  }

  /** What was granted to one machine is over before anything is granted to another: expired, released,
      or replaced by a later grant of its own, of which the same is true. */
  lemma {:induction false} TenuresAreApart(cs: seq<Call>, i: nat, j: nat)
    requires ClockNeverStepsBack(cs)
    requires i < j < |cs| && Granted(cs, i) && Granted(cs, j) && cs[i].holder != cs[j].holder
    ensures IsCut(cs, i, j) || !Covers(cs[i], cs[j].at)
    decreases j
  {
    if !IsCut(cs, i, j) {
      if exists k :: i < k < j && Granted(cs, k) {
        var k :| i < k < j && Granted(cs, k);
        assert cs[k].holder != cs[i].holder;
        TenuresAreApart(cs, i, k);
        if IsCut(cs, i, k) {
          CutLater(cs, i, k, j);
        }
      } else {
        assert IsCurrent(cs, j, i);
        PrefixIsTold(cs, j);
        OneCurrent(cs, j, i);
      }
    }
  }

  lemma HeldByCurrent(cs: seq<Call>) returns (j: nat)
    requires Run(cs).Some?
    ensures IsCurrent(cs, |cs|, j) && Run(cs).value.holder == cs[j].holder
  {
    PrefixIsTold(cs, |cs|);
    assert cs[..|cs|] == cs;
    j :| IsCurrent(cs, |cs|, j) && Run(cs).value.holder == cs[j].holder;
  }

  /** Two machines never hold the lease at the same instant: at any moment of any run, it has one holder
      at most, and any other machine's last grant is over by then. */
  lemma OneHolder(cs: seq<Call>, i: nat, t: Instant)
    requires ClockNeverStepsBack(cs) && i < |cs| && Granted(cs, i) && t >= cs[|cs| - 1].at
    requires HolderAt(Run(cs), t).Some? && HolderAt(Run(cs), t).value != cs[i].holder
    ensures IsCut(cs, i, |cs|) || !Covers(cs[i], t)
  {
    var j := HeldByCurrent(cs);
    TenuresAreApart(cs, i, j);
    if IsCut(cs, i, j) {
      CutLater(cs, i, j, |cs|);
    }
  }

  // ---------------------------------------------------------------------------------------------

  /** The store's lease operations, each a transaction that commits or does nothing. */
  class LeaseStore {
    var lease: Option<Row>
    var meta: map<string, string>

    constructor ()
      ensures lease == None && meta == map[]
    {
      lease, meta := None, map[];
    }

    method AcquireLease(holder: string, ttl: int, now: Instant, fault: bool) returns (r: Result<Option<Instant>>)
      modifies this`lease
      ensures r.Ok? <==> !fault
      ensures lease == Apply(old(lease), Acquire(holder, ttl, now, !fault))
      ensures r.Ok? ==>
                (r.value.None? <==>
                 && old(lease).Some? && old(lease).value.holder != holder
                 && old(lease).value.expiry.Some? && now < old(lease).value.expiry.value)
      ensures r.Ok? && r.value.None? ==> lease == old(lease)
      ensures r.Ok? && r.value.Some? ==> lease == Some(Row(holder, r.value))
      ensures r.Ok? && r.value.Some? ==>
                r.value.value % SECOND == 0 && r.value.value <= now + ttl < r.value.value + SECOND
    {
      if fault {
        return Err;
      }
      if lease.Some? && lease.value.holder != holder {
        var expiry := lease.value.expiry;
        if expiry.Some? && now < expiry.value {
          return Ok(None);
        }
      }
      var expiry := Expiry(now, ttl);
      lease := Some(Row(holder, Some(expiry)));
      r := Ok(Some(expiry));
    }

    /** Drops the lease if `holder` holds it, and otherwise does nothing. */
    method ReleaseLease(holder: string, ghost now: Instant, fault: bool) returns (ok: bool)
      modifies this`lease
      ensures ok == !fault
      ensures lease == Apply(old(lease), Release(holder, now, ok))
      ensures ok && old(lease).Some? && old(lease).value.holder == holder ==> lease == None
      ensures old(lease).Some? && old(lease).value.holder != holder ==> lease == old(lease)
    {
      if fault {
        return false;
      }
      if lease.Some? && lease.value.holder == holder {
        lease := None;
      }
      ok := true;
    }

    /** Writes a value while `holder` still holds the lease, and says who holds it. */
    method SetMetaIfLeaseHolder(key: string, value: string, holder: string, now: Instant, fault: bool)
      returns (r: Result<(string, bool)>)
      modifies this`meta
      ensures r.Ok? <==> !fault
      ensures r.Ok? ==> (r.value.1 <==> MayWrite(lease, holder, now))
      ensures r.Ok? ==>
                (r.value.1 <==>
                 && holder != "" && lease.Some? && lease.value.holder == holder
                 && lease.value.expiry.Some? && now < lease.value.expiry.value)
      ensures r.Ok? ==> r.value.0 == if HolderAt(lease, now).Some? then HolderAt(lease, now).value else ""
      ensures meta == if r.Ok? && r.value.1 then old(meta)[key := value] else old(meta)
    {
      if fault {
        return Err;
      }
      var current := "";
      if lease.Some? {
        current := lease.value.holder;
        if lease.value.expiry.None? || now >= lease.value.expiry.value {
          current := "";
        }
      }
      if current == "" || current != holder {
        return Ok((current, false));
      }
      meta := meta[key := value];
      r := Ok((current, true));
    }
  }
}
