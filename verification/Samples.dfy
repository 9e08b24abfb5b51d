/** Token samples: what retention keeps, and the two queries that read it. A query is modelled by what
    SQL promises of its answer, so that nothing depends on how the database finds it. */
module Samples {
  import opened Basics
  import opened StringOrder

  /** The primary key of a sample; instants compare as text. */
  datatype Key = Key(session: string, at: string)

  type Table = map<Key, int>

  const SAMPLE_RETENTION: nat := 30

  function Instants(t: Table, session: string): set<string> {
    set k | k in t && k.session == session :: k.at
  }

  function Above(instants: set<string>, at: string): set<string> {
    set b | b in instants && Less(at, b)
  }

  /** The `n` greatest instants: those with fewer than `n` above them. */
  function Newest(instants: set<string>, n: nat): set<string> {
    set a | a in instants && |Above(instants, a)| < n
  }

  /** The sample is put in, and of its session only the newest instants are kept. */
  function Added(t: Table, session: string, at: string, value: int): Table {
    var t1 := t[Key(session, at) := value];
    var keep := Newest(Instants(t1, session), SAMPLE_RETENTION);
    map k | k in t1 && (k.session != session || k.at in keep) :: t1[k]
  }

  function Forgotten(t: Table, gone: set<string>): Table {
    map k | k in t && k.session !in gone :: t[k]
  }

  // ---------------------------------------------------------------------------------------------
  // Cardinalities of initial segments.

  lemma {:induction false} LeastExists(instants: set<string>) returns (least: string)
    requires instants != {}
    ensures least in instants && Above(instants, least) == instants - {least}
  {
    var x :| x in instants;
    if instants == {x} {
      least := x;
      LessTrichotomy(x, x);
    } else {
      var rest := instants - {x};
      var y := LeastExists(rest);
      LessTrichotomy(x, y);
      LessTrichotomy(y, x);
      LessTrichotomy(x, x);
      LessTrichotomy(y, y);
      if Less(x, y) {
        least := x;
        forall b | b in rest
          ensures Less(x, b)
        {
          if b != y {
            assert b in Above(rest, y);
            LessTransitive(x, y, b);
          }
        }
      } else {
        least := y;
        assert Less(y, x);
        assert Above(instants, y) == Above(rest, y) + {x};
      }
    }
  }

  /** There are `n` newest instants, unless there are fewer in all. */
  lemma {:induction false} NewestSize(instants: set<string>, n: nat)
    ensures |Newest(instants, n)| == if |instants| < n then |instants| else n
  {
    if instants == {} {
      assert Newest(instants, n) == {};
    } else {
      var least := LeastExists(instants);
      var rest := instants - {least};
      NewestSize(rest, n);
      forall a | a in rest
        ensures Above(instants, a) == Above(rest, a)
      {
        assert a in Above(instants, least);
        LessTrichotomy(a, least);
      }
      if |rest| < n {
        assert Newest(instants, n) == Newest(rest, n) + {least};
      } else {
        assert Newest(instants, n) == Newest(rest, n);
      }
    }
  }

  lemma AboveShrinks(instants: set<string>, a: string, b: string)
    requires Less(a, b)
    ensures Above(instants, b) <= Above(instants, a)
  {
    forall c | c in Above(instants, b)
      ensures c in Above(instants, a)
    {
      LessTransitive(a, b, c);
    }
  }

  /** Whatever is newer than one of the newest is one of them. */
  lemma NewestIsUpward(instants: set<string>, n: nat, a: string)
    requires |Above(instants, a)| < n
    ensures Above(instants, a) <= Newest(instants, n)
  {
    forall b | b in Above(instants, a)
      ensures b in Newest(instants, n)
    {
      AboveShrinks(instants, a, b);
      SubsetSize(Above(instants, b), Above(instants, a));
    }
  }

  lemma NewestAboveOthers(instants: set<string>, n: nat, a: string)
    requires |Above(instants, a)| >= n
    ensures Newest(instants, n) <= Above(instants, a)
  {
    forall b | b in Newest(instants, n)
      ensures b in Above(instants, a)
    {
      LessTrichotomy(a, b);
      LessTrichotomy(b, a);
      if b == a {
        assert false;
      } else if Less(b, a) {
        AboveShrinks(instants, b, a);
        SubsetSize(Above(instants, a), Above(instants, b));
        assert false;
      }
    }
  }

  /** How many are above an instant, counted among all or among the newest, makes no difference to
      whether it is one of the newest. */
  lemma RankAmongNewest(instants: set<string>, n: nat, a: string)
    ensures |Above(Newest(instants, n), a)| < n <==> |Above(instants, a)| < n
  {
    SubsetSize(Above(Newest(instants, n), a), Above(instants, a));
    if |Above(instants, a)| >= n {
      NewestAboveOthers(instants, n, a);
      NewestSize(instants, n);
      SubsetSize(Above(instants, a), instants);
      assert Above(Newest(instants, n), a) == Newest(instants, n);
    }
  }

  /** Keeping only the newest loses nothing that a later instant could bring back. */
  lemma KeepingIsEnough(instants: set<string>, n: nat, at: string)
    ensures Newest(Newest(instants, n) + {at}, n) == Newest(instants + {at}, n)
  {
    var all, kept := instants + {at}, Newest(instants, n) + {at};
    forall a
      ensures a in Newest(kept, n) <==> a in Newest(all, n)
    {
      RankWithNew(instants, n, at, a);
    }
  }

  lemma RankWithNew(instants: set<string>, n: nat, at: string, a: string)
    ensures a in Newest(Newest(instants, n) + {at}, n) <==> a in Newest(instants + {at}, n)
  {
    var newest := Newest(instants, n);
    var all, kept := instants + {at}, newest + {at};
    if |Above(instants, a)| < n {
      NewestIsUpward(instants, n, a);
      assert Above(kept, a) == Above(all, a);
    } else {
      SubsetSize(Above(instants, a), Above(all, a));
      RankAmongNewest(instants, n, a);
      SubsetSize(Above(newest, a), Above(kept, a));
    }
  }

  // ---------------------------------------------------------------------------------------------
  // Retention over runs.

  datatype Call = Add(session: string, at: string, value: int) | Forget(gone: set<string>)

  function Apply(t: Table, c: Call): Table {
    match c
    case Add(session, at, value) => Added(t, session, at, value)
    case Forget(gone) => Forgotten(t, gone)
  }

  function Run(cs: seq<Call>): Table {
    if cs == [] then map[] else Apply(Run(cs[..|cs| - 1]), cs[|cs| - 1])
  }

  /** Every sample a session ever made since it was last forgotten, each instant with its last value. */
  function Sampled(cs: seq<Call>, session: string): map<string, int> {
    if cs == [] then map[]
    else
      var before := Sampled(cs[..|cs| - 1], session);
      match cs[|cs| - 1]
      case Add(s, at, value) => if s == session then before[at := value] else before
      case Forget(gone) => if session in gone then map[] else before
  }

  /** The session's rows. */
  function RowsOf(t: Table, session: string): map<string, int> {
    map at | at in Instants(t, session) :: t[Key(session, at)]
  }

  function Kept(all: map<string, int>): map<string, int> {
    map at | at in Newest(all.Keys, SAMPLE_RETENTION) :: all[at]
  }

  lemma RowsAfterAdd(t: Table, session: string, at: string, value: int)
    ensures RowsOf(Added(t, session, at, value), session) == Kept(RowsOf(t, session)[at := value])
  {
    var t1 := t[Key(session, at) := value];
    assert Instants(t1, session) == Instants(t, session) + {at} by {
      assert Key(session, at) in t1;
    }
    assert RowsOf(t1, session) == RowsOf(t, session)[at := value];
    var keep := Newest(Instants(t1, session), SAMPLE_RETENTION);
    var after := Added(t, session, at, value);
    forall a
      ensures a in Instants(after, session) <==> a in keep
      ensures a in keep ==> Key(session, a) in after && after[Key(session, a)] == RowsOf(t1, session)[a]
    {
      if a in keep {
        assert a in Instants(t1, session) && Key(session, a) in t1;
        assert Key(session, a) in after;
      }
    }
    assert RowsOf(t1, session).Keys == Instants(t1, session);
  }

  lemma RowsOfOthers(t: Table, session: string, at: string, value: int, other: string)
    requires other != session
    ensures RowsOf(Added(t, session, at, value), other) == RowsOf(t, other)
  {
    var after := Added(t, session, at, value);
    forall a
      ensures a in Instants(after, other) <==> a in Instants(t, other)
    {
      assert Key(other, a) in after <==> Key(other, a) in t;
    }
  }

  lemma RowsAfterForget(t: Table, gone: set<string>, session: string)
    ensures RowsOf(Forgotten(t, gone), session) == if session in gone then map[] else RowsOf(t, session)
  {
    var after := Forgotten(t, gone);
    forall a
      ensures a in Instants(after, session) <==> session !in gone && a in Instants(t, session)
    {
      assert Key(session, a) in after <==> session !in gone && Key(session, a) in t;
    }
  }

  lemma KeptThenAdded(all: map<string, int>, at: string, value: int)
    ensures Kept(Kept(all)[at := value]) == Kept(all[at := value])
  {
    KeepingIsEnough(all.Keys, SAMPLE_RETENTION, at);
    assert Kept(all)[at := value].Keys == Newest(all.Keys, SAMPLE_RETENTION) + {at};
    assert all[at := value].Keys == all.Keys + {at};
  }

  /** After any run, a session's rows are the newest instants it ever sampled, each with its last value,
      however often it was trimmed on the way. */
  lemma {:induction false} RetentionIsExact(cs: seq<Call>, session: string)
    ensures RowsOf(Run(cs), session) == Kept(Sampled(cs, session))
  {
    if cs != [] {
      var n := |cs| - 1;
      var t := Run(cs[..n]);
      RetentionIsExact(cs[..n], session);
      match cs[n] {
        case Add(s, at, value) =>
          if s == session {
            RowsAfterAdd(t, session, at, value);
            KeptThenAdded(Sampled(cs[..n], session), at, value);
          } else {
            RowsOfOthers(t, s, at, value, session);
          }
        case Forget(gone) => RowsAfterForget(t, gone, session);
      }
    }
  }

  // ---------------------------------------------------------------------------------------------
  // The two queries.

  /** The rows of a session newer than `since`. */
  ghost predicate Matches(t: Table, k: Key, session: string, since: string) {
    k in t && k.session == session && Less(since, k.at)
  }

  ghost predicate Descending(ks: seq<Key>) {
    forall i, j :: 0 <= i < j < |ks| ==> Less(ks[j].at, ks[i].at)
  }

  /** `ORDER BY at DESC`, before the limit. */
  ghost predicate IsListed(t: Table, session: string, since: string, ks: seq<Key>) {
    Descending(ks) && forall k :: k in ks <==> Matches(t, k, session, since)
  }

  function Limited<T>(s: seq<T>, limit: nat): seq<T> {
    if |s| <= limit then s else s[..limit]
  }

  /** The rows of a key's own session that are newer than it: one less than its row number. */
  ghost function Newer(t: Table, k: Key, since: string): set<Key> {
    set q | q in t && Matches(t, q, k.session, since) && Less(k.at, q.at)
  }

  ghost predicate InWindow(t: Table, since: string, limit: nat, k: Key) {
    k in t && Less(since, k.at) && |Newer(t, k, since)| + 1 <= limit
  }

  predicate KeyBefore(a: Key, b: Key) {
    Less(a.session, b.session) || (a.session == b.session && Less(a.at, b.at))
  }

  /** `WHERE rn <= ? ORDER BY session_id, at`. */
  ghost predicate IsRecent(t: Table, since: string, limit: nat, ks: seq<Key>) {
    && (forall i, j :: 0 <= i < j < |ks| ==> KeyBefore(ks[i], ks[j]))
    && (forall k :: k in ks <==> InWindow(t, since, limit, k))
  }

  function OfSession(ks: seq<Key>, session: string): seq<Key> {
    if ks == [] then []
    else
      var last := ks[|ks| - 1];
      OfSession(ks[..|ks| - 1], session) + if last.session == session then [last] else []
  }

  function Reversed<T>(s: seq<T>): (r: seq<T>)
    ensures |r| == |s|
    ensures forall i :: 0 <= i < |s| ==> r[i] == s[|s| - 1 - i]
  {
    seq(|s|, i requires 0 <= i < |s| => s[|s| - 1 - i])
  }

  ghost predicate Ascending(ks: seq<Key>, session: string) {
    && (forall i, j :: 0 <= i < j < |ks| ==> Less(ks[i].at, ks[j].at))
    && (forall i :: 0 <= i < |ks| ==> ks[i].session == session)
  }

  lemma {:induction false} LastIsIn(ks: seq<Key>, other: seq<Key>, session: string)
    requires ks != [] && other != [] && Ascending(ks, session) && Ascending(other, session)
    requires forall k :: k in ks <==> k in other
    ensures ks[|ks| - 1] == other[|other| - 1]
  {
    var a, b := ks[|ks| - 1], other[|other| - 1];
    assert b in ks && a in other;
    var i :| 0 <= i < |ks| && ks[i] == b;
    var j :| 0 <= j < |other| && other[j] == a;
    if a.at != b.at {
      assert i < |ks| - 1 && j < |other| - 1;
      LessTrichotomy(a.at, b.at);
    }
  }

  /** Two lists in the same order with the same members are the same list. */
  lemma {:induction false} OrderIsUnique(ks: seq<Key>, other: seq<Key>, session: string)
    requires Ascending(ks, session) && Ascending(other, session)
    requires forall k :: k in ks <==> k in other
    ensures ks == other
  {
    if ks != [] || other != [] {
      assert (ks != [] ==> ks[0] in ks) && (other != [] ==> other[0] in other);
      LastIsIn(ks, other, session);
      var n, m := |ks| - 1, |other| - 1;
      forall k
        ensures k in ks[..n] <==> k in other[..m]
      {
        LessTrichotomy(ks[n].at, ks[n].at);
        if k in ks[..n] {
          assert k in other && k != other[m];
        }
        if k in other[..m] {
          assert k in ks && k != ks[n];
        }
      }
      OrderIsUnique(ks[..n], other[..m], session);
      assert ks == ks[..n] + [ks[n]] && other == other[..m] + [other[m]];
    }
  }

  lemma {:induction false} OfSessionIsFiltered(ks: seq<Key>, session: string)
    requires forall i, j :: 0 <= i < j < |ks| ==> KeyBefore(ks[i], ks[j])
    ensures Ascending(OfSession(ks, session), session)
    ensures forall k :: k in OfSession(ks, session) <==> k in ks && k.session == session
  {
    if ks != [] {
      var n := |ks| - 1;
      OfSessionIsFiltered(ks[..n], session);
      var before := OfSession(ks[..n], session);
      assert ks == ks[..n] + [ks[n]];
      forall i | 0 <= i < |before| && ks[n].session == session
        ensures Less(before[i].at, ks[n].at)
      {
        assert before[i] in before;
        assert before[i] in ks[..n];
        var j :| 0 <= j < n && ks[j] == before[i];
        assert KeyBefore(ks[j], ks[n]);
        LessTrichotomy(session, session);
      }
    }
  }

  /** In a descending list, an entry has as many newer rows as it has entries before it. */
  lemma {:induction false} RankIsPosition(t: Table, session: string, since: string, full: seq<Key>, i: nat)
    requires IsListed(t, session, since, full) && i < |full|
    ensures |Newer(t, full[i], since)| == i
  {
    assert full[i] in full;
    var newer := Newer(t, full[i], since);
    forall j | 0 <= j < i
      ensures full[j] in newer
    {
      assert full[j] in full;
    }
    forall q
      ensures q in newer <==> q in full[..i]
    {
      if q in newer {
        assert q in full;
        var j :| 0 <= j < |full| && full[j] == q;
        LessTrichotomy(full[i].at, full[j].at);
        LessTrichotomy(full[j].at, full[i].at);
        assert j < i;
      }
    }
    SizeOfList(newer, full[..i]);
  }

  lemma {:induction false} SizeOfList(s: set<Key>, ks: seq<Key>)
    requires Descending(ks) && forall q :: q in s <==> q in ks
    ensures |s| == |ks|
  {
    if ks == [] {
      assert s == {};
    } else {
      var n := |ks| - 1;
      var last := ks[n];
      forall q
        ensures q in s - {last} <==> q in ks[..n]
      {
        LessTrichotomy(last.at, last.at);
        if q in ks[..n] {
          assert q in ks;
          var j :| 0 <= j < n && ks[j] == q;
          assert Less(last.at, ks[j].at);
        }
      }
      assert last in ks;
      SizeOfList(s - {last}, ks[..n]);
    }
  }

  /** What the window keeps of a session is what the limit keeps of its list. */
  lemma WindowIsLimit(t: Table, session: string, since: string, limit: nat, full: seq<Key>, k: Key)
    requires IsListed(t, session, since, full)
    ensures k in Limited(full, limit) <==> k.session == session && InWindow(t, since, limit, k)
  {
    if k in full {
      var i :| 0 <= i < |full| && full[i] == k;
      RankIsPosition(t, session, since, full, i);
      assert i < limit ==> Limited(full, limit)[i] == k;
      if k in Limited(full, limit) {
        var j :| 0 <= j < |Limited(full, limit)| && full[j] == k;
        RankIsPosition(t, session, since, full, j);
      }
    } else {
      assert !Matches(t, k, session, since);
      assert forall x :: x in Limited(full, limit) ==> x in full;
    }
  }

  /** The rewritten query gives every session exactly what its own query gave it: whatever the database
      answers to each, the same rows, in the same order, under the same cap. */
  lemma RewriteKeepsMeaning(t: Table, session: string, since: string, limit: nat, full: seq<Key>, recent: seq<Key>)
    requires IsListed(t, session, since, full) && IsRecent(t, since, limit, recent)
    ensures OfSession(recent, session) == Reversed(Limited(full, limit))
  {
    var list, mine := Reversed(Limited(full, limit)), OfSession(recent, session);
    OfSessionIsFiltered(recent, session);
    forall i | 0 <= i < |full|
      ensures full[i].session == session
    {
      assert full[i] in full;
    }
    assert Ascending(list, session);
    forall k
      ensures k in mine <==> k in list
    {
      WindowIsLimit(t, session, since, limit, full, k);
      ReversedMembers(Limited(full, limit), k);
    }
    OrderIsUnique(mine, list, session);
  }

  lemma ReversedMembers<T>(s: seq<T>, x: T)
    ensures x in Reversed(s) <==> x in s
  {
    if x in s {
      var i :| 0 <= i < |s| && s[i] == x;
      assert Reversed(s)[|s| - 1 - i] == x;
    }
  }

  predicate InRows(t: Table, ks: seq<Key>) {
    forall i :: 0 <= i < |ks| ==> ks[i] in t
  }

  function Values(t: Table, ks: seq<Key>): seq<int>
    requires InRows(t, ks)
  {
    seq(|ks|, i requires 0 <= i < |ks| => t[ks[i]])
  }

  // ---------------------------------------------------------------------------------------------

  class SampleStore {
    var rows: Table

    constructor ()
      ensures rows == map[]
    {
      rows := map[];
    }

    /** Records a sample and trims its session; a failed statement leaves the table as it was. */
    method AddSample(session: string, at: string, value: int, fault: bool) returns (ok: bool)
      modifies this
      ensures ok == !fault
      ensures rows == if ok then Apply(old(rows), Add(session, at, value)) else old(rows)
    {
      if fault {
        return false;
      }
      rows := rows[Key(session, at) := value];
      var keep := Newest(Instants(rows, session), SAMPLE_RETENTION);
      rows := map k | k in rows && (k.session != session || k.at in keep) :: rows[k];
      ok := true;
    }

    /** A session's samples, oldest first. `answer` is what the database gave, newest first; it is copied
        out and reversed in place. */
    method ListSamples(session: string, since: string, limit: nat, ghost full: seq<Key>, answer: seq<Key>)
      returns (out: array<int>)
      requires IsListed(rows, session, since, full) && answer == Limited(full, limit)
      ensures fresh(out)
      ensures InRows(rows, Reversed(answer))
      ensures out[..] == Values(rows, Reversed(answer))
    {
      forall i | 0 <= i < |answer|
        ensures answer[i] in rows
      {
        assert full[i] in full;
      }
      out := new int[|answer|];
      for k := 0 to |answer|
        invariant forall i :: 0 <= i < k ==> out[i] == rows[answer[i]]
      {
        out[k] := rows[answer[k]];
      }
      var i, j := 0, |answer| - 1;
      while i < j
        invariant 0 <= i && j == |answer| - 1 - i && i <= j + 2
        invariant forall k :: i <= k <= j ==> out[k] == rows[answer[k]]
        invariant forall k :: 0 <= k < i ==>
                    out[k] == rows[answer[|answer| - 1 - k]] && out[|answer| - 1 - k] == rows[answer[k]]
      {
        out[i], out[j] := out[j], out[i];
        i, j := i + 1, j - 1;
      }
    }

    /** Every session's samples at once, from the windowed query's answer. */
    method RecentSamples(since: string, limit: nat, answer: seq<Key>) returns (out: map<string, seq<int>>)
      requires IsRecent(rows, since, limit, answer)
      ensures GivesAll(rows, out, answer)
    {
      forall i | 0 <= i < |answer|
        ensures answer[i] in rows
      {
        assert answer[i] in answer;
      }
      out := map[];
      for n := 0 to |answer|
        invariant GivesAll(rows, out, answer[..n])
      {
        var k := answer[n];
        GivesOneMore(rows, out, answer, n);
        var before := if k.session in out then out[k.session] else [];
        out := out[k.session := before + [rows[k]]];
      }
      assert answer[..|answer|] == answer;
    }
  }

  /** What a map of samples gives a session are the values of these rows. */
  ghost predicate GivesSession(t: Table, out: map<string, seq<int>>, session: string, ks: seq<Key>) {
    InRows(t, ks) && (if session in out then out[session] else []) == Values(t, ks)
  }

  ghost predicate GivesAll(t: Table, out: map<string, seq<int>>, ks: seq<Key>) {
    forall session :: GivesSession(t, out, session, OfSession(ks, session))
  }

  lemma GivesOneMore(t: Table, out: map<string, seq<int>>, ks: seq<Key>, n: nat)
    requires n < |ks| && ks[n] in t && GivesAll(t, out, ks[..n])
    ensures var k := ks[n];
            GivesAll(t, out[k.session := (if k.session in out then out[k.session] else []) + [t[k]]], ks[..n + 1])
  {
    var k, now := ks[n], ks[..n + 1];
    var more := out[k.session := (if k.session in out then out[k.session] else []) + [t[k]]];
    assert now[..n] == ks[..n];
    forall session
      ensures GivesSession(t, more, session, OfSession(now, session))
    {
      assert GivesSession(t, out, session, OfSession(ks[..n], session));
    }
  }

  /** The two ways of reading the samples, side by side. */
  method ReadBothWays(store: SampleStore, since: string, limit: nat, session: string, ghost full: seq<Key>,
                      listed: seq<Key>, recent: seq<Key>)
    returns (one: seq<int>, all: map<string, seq<int>>)
    requires IsListed(store.rows, session, since, full) && listed == Limited(full, limit)
    requires IsRecent(store.rows, since, limit, recent)
    ensures (if session in all then all[session] else []) == one
  {
    var out := store.ListSamples(session, since, limit, full, listed);
    one := out[..];
    all := store.RecentSamples(since, limit, recent);
    RewriteKeepsMeaning(store.rows, session, since, limit, full, recent);
    assert GivesSession(store.rows, all, session, OfSession(recent, session));
  }
}
