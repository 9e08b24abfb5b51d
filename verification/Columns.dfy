/** The dashboard's columns: which ones fit a narrow terminal, and in which order the operator put them. */
module Columns {

  /** A column: its stable key, its width, and how readily it is dropped (0 or less: never). */
  datatype Column = Column(key: string, width: int, drop: int)

  const SEPARATOR_WIDTH := 2
  const GUTTER_WIDTH := 2

  function TableWidth(cols: seq<Column>): int {
    if cols == [] then 0
    else if |cols| == 1 then cols[0].width
    else TableWidth(cols[..|cols| - 1]) + SEPARATOR_WIDTH + cols[|cols| - 1].width
  }

  function RowWidth(cols: seq<Column>): int {
    GUTTER_WIDTH + TableWidth(cols)
  }

  method MeasureTable(cols: seq<Column>) returns (w: int)
    ensures w == TableWidth(cols)
  {
    w := 0;
    for i := 0 to |cols|
      invariant w == TableWidth(cols[..i])
    {
      assert cols[..i + 1][..i] == cols[..i];
      if i > 0 {
        w := w + SEPARATOR_WIDTH;
      }
      w := w + cols[i].width;
    }
    assert cols[..|cols|] == cols;
  }

  /** Side by side, two groups of columns take their own widths and one separator; a single column takes its
      width, and a row its gutter too. */
  lemma {:induction false} WidthAdds(left: seq<Column>, right: seq<Column>)
    ensures left != [] && right != [] ==> TableWidth(left + right) == TableWidth(left) + 2 + TableWidth(right)
    ensures |left| == 1 ==> TableWidth(left) == left[0].width
    ensures RowWidth(left) == 2 + TableWidth(left)
  {
    if left != [] && |right| > 1 {
      var n := |right| - 1;
      WidthAdds(left, right[..n]);
      assert (left + right)[..|left + right| - 1] == left + right[..n];
    } else if left != [] && |right| == 1 {
      assert (left + right)[..|left|] == left;
    }
  }

  // ---------------------------------------------------------------------------------------------
  // Dropping columns.

  /** Indices of `base`, in order. */
  predicate AreIndices(left: seq<nat>, base: seq<Column>) {
    && (forall k :: 0 <= k < |left| ==> left[k] < |base|)
    && (forall k, l :: 0 <= k < l < |left| ==> left[k] < left[l])
  }

  function Pick(base: seq<Column>, left: seq<nat>): (cols: seq<Column>)
    requires AreIndices(left, base)
    ensures |cols| == |left| && forall k :: 0 <= k < |left| ==> cols[k] == base[left[k]]
  {
    seq(|left|, k requires 0 <= k < |left| => base[left[k]])
  }

  /** Column `i` is dropped before column `j`: it gives way more readily or, at equal priority, stands
      further left. */
  predicate Precedes(base: seq<Column>, i: nat, j: nat)
    requires i < |base| && j < |base|
  {
    base[i].drop > base[j].drop || (base[i].drop == base[j].drop && i < j)
  }

  /** Among the first `n` columns, those still there when it is the turn of `i`. */
  function StillThere(base: seq<Column>, i: nat, n: nat): (left: seq<nat>)
    requires i < |base| && n <= |base|
    ensures forall k :: 0 <= k < |left| ==> left[k] < n
    ensures AreIndices(left, base) && forall j: nat :: j in left <==> j < n && !Precedes(base, j, i)
  {
    if n == 0 then [] else StillThere(base, i, n - 1) + if Precedes(base, n - 1, i) then [] else [n - 1]
  }

  /** The columns at `left` are what a terminal of this width shows. Whatever is missing gives way before
      everything kept, and the row was still too wide when its turn came; and the dropping stopped only
      because the row fits, or because nothing is left that may be dropped. */
  ghost predicate IsVisible(base: seq<Column>, width: int, left: seq<nat>) {
    && AreIndices(left, base)
    && AllDropped(base, width, left)
    && (RowWidth(Pick(base, left)) <= width || forall k :: 0 <= k < |left| ==> base[left[k]].drop <= 0)
  }

  ghost predicate AllDropped(base: seq<Column>, width: int, left: seq<nat>)
    requires AreIndices(left, base)
  {
    forall i: nat :: i < |base| && i !in left ==> IsDropped(base, width, left, i)
  }

  ghost predicate IsDropped(base: seq<Column>, width: int, left: seq<nat>, i: nat)
    requires AreIndices(left, base) && i < |base|
  {
    && base[i].drop > 0
    && (forall k :: 0 <= k < |left| ==> Precedes(base, i, left[k]))
    && RowWidth(Pick(base, StillThere(base, i, |base|))) > width
  }

  lemma {:induction false} SameIndices(a: seq<nat>, b: seq<nat>, base: seq<Column>)
    requires AreIndices(a, base) && AreIndices(b, base)
    requires forall j: nat :: j in a <==> j in b
    ensures a == b
  {
    if a != [] || b != [] {
      assert (a != [] ==> a[|a| - 1] in a) && (b != [] ==> b[|b| - 1] in b);
      var n, m := |a| - 1, |b| - 1;
      assert a[n] in b && b[m] in a;
      assert a[n] == b[m];
      forall j: nat
        ensures j in a[..n] <==> j in b[..m]
      {
        assert j in a[..n] ==> j in b && j != b[m];
        assert j in b[..m] ==> j in a && j != a[n];
      }
      SameIndices(a[..n], b[..m], base);
      assert a == a[..n] + [a[n]] && b == b[..m] + [b[m]];
    }
  }

  /** When the most readily dropped of the columns left goes, those left are the ones still there. */
  lemma LeftIsStillThere(base: seq<Column>, width: int, left: seq<nat>, idx: nat)
    requires AreIndices(left, base) && idx < |left|
    requires AllDropped(base, width, left)
    requires forall k :: 0 <= k < |left| && k != idx ==> Precedes(base, left[idx], left[k])
    ensures left == StillThere(base, left[idx], |base|)
  {
    var there := StillThere(base, left[idx], |base|);
    forall j: nat
      ensures j in left <==> j in there
    {
      if j in left {
        var k :| 0 <= k < |left| && left[k] == j;
      } else if j < |base| {
        assert IsDropped(base, width, left, j);
      }
    }
    SameIndices(left, there, base);
  }

  function Without(left: seq<nat>, idx: nat): (fewer: seq<nat>)
    requires idx < |left|
    ensures |fewer| == |left| - 1
    ensures forall k :: 0 <= k < |fewer| ==> fewer[k] == left[if k < idx then k else k + 1]
  {
    left[..idx] + left[idx + 1..]
  }

  lemma PickWithout(base: seq<Column>, left: seq<nat>, idx: nat)
    requires AreIndices(left, base) && idx < |left|
    ensures AreIndices(Without(left, idx), base)
    ensures Pick(base, Without(left, idx)) == Pick(base, left)[..idx] + Pick(base, left)[idx + 1..]
    ensures forall i: nat :: i in Without(left, idx) <==> i in left && i != left[idx]
  {
    var fewer := Without(left, idx);
    forall i: nat
      ensures i in fewer <==> i in left && i != left[idx]
    {
      if i in left && i != left[idx] {
        var k :| 0 <= k < |left| && left[k] == i;
        assert fewer[if k < idx then k else k - 1] == i;
      }
    }
  }

  lemma DropOne(base: seq<Column>, width: int, left: seq<nat>, idx: nat)
    requires AreIndices(left, base) && idx < |left|
    requires AllDropped(base, width, left)
    requires forall k :: 0 <= k < |left| && k != idx ==> Precedes(base, left[idx], left[k])
    requires base[left[idx]].drop > 0 && RowWidth(Pick(base, left)) > width
    ensures AreIndices(Without(left, idx), base) && AllDropped(base, width, Without(left, idx))
  {
    var fewer := Without(left, idx);
    LeftIsStillThere(base, width, left, idx);
    PickWithout(base, left, idx);
    forall i: nat | i < |base| && i !in fewer
      ensures IsDropped(base, width, fewer, i)
    {
      assert i != left[idx] ==> IsDropped(base, width, left, i);
    }
  }

  /** The first column of the highest priority above 0, if there is one. */
  method MostDroppable(cols: seq<Column>) returns (idx: int)
    ensures idx < 0 ==> forall k :: 0 <= k < |cols| ==> cols[k].drop <= 0
    ensures idx >= 0 ==> idx < |cols| && cols[idx].drop > 0
    ensures idx >= 0 ==> forall k :: 0 <= k < |cols| ==> cols[k].drop <= cols[idx].drop
    ensures idx >= 0 ==> forall k :: 0 <= k < idx ==> cols[k].drop < cols[idx].drop
  {
    var maxDrop := 0;
    idx := -1;
    for i := 0 to |cols|
      invariant -1 <= idx < i
      invariant maxDrop == if idx < 0 then 0 else cols[idx].drop
      invariant idx >= 0 ==> maxDrop > 0
      invariant forall k :: 0 <= k < i ==> cols[k].drop <= maxDrop
      invariant forall k :: 0 <= k < idx ==> cols[k].drop < maxDrop
    {
      if cols[i].drop > maxDrop {
        idx, maxDrop := i, cols[i].drop;
      }
    }
  }

  lemma MostDroppablePrecedes(base: seq<Column>, left: seq<nat>, idx: nat)
    requires AreIndices(left, base) && idx < |left|
    requires forall k :: 0 <= k < |left| ==> Pick(base, left)[k].drop <= Pick(base, left)[idx].drop
    requires forall k :: 0 <= k < idx ==> Pick(base, left)[k].drop < Pick(base, left)[idx].drop
    ensures forall k :: 0 <= k < |left| && k != idx ==> Precedes(base, left[idx], left[k])
  {
    forall k | 0 <= k < |left| && k != idx
      ensures Precedes(base, left[idx], left[k])
    {
      assert Pick(base, left)[k] == base[left[k]] && Pick(base, left)[idx] == base[left[idx]];
    }
  }

  /** The columns that fit. A width of 0 or less is not known, and drops nothing. */
  method VisibleColumns(base: seq<Column>, width: int) returns (cols: seq<Column>)
    ensures width <= 0 ==> cols == base
    ensures width > 0 ==> exists left :: IsVisible(base, width, left) && cols == Pick(base, left)
  {
    cols := base;
    ghost var left: seq<nat> := seq(|base|, k => k);
    assert forall k :: 0 <= k < |base| ==> left[k] == k;
    assert cols == Pick(base, left);
    if width <= 0 {
      return;
    }
    var w := MeasureTable(cols);
    while GUTTER_WIDTH + w > width
      invariant AreIndices(left, base) && cols == Pick(base, left) && w == TableWidth(cols)
      invariant AllDropped(base, width, left)
      decreases |cols|
    {
      var idx := MostDroppable(cols);
      if idx < 0 {
        break;
      }
      MostDroppablePrecedes(base, left, idx);
      DropOne(base, width, left, idx);
      PickWithout(base, left, idx);
      cols, left := cols[..idx] + cols[idx + 1..], Without(left, idx);
      w := MeasureTable(cols);
    }
  }

  /** The first of some columns to be dropped. */
  lemma {:induction false} FirstToGo(base: seq<Column>, among: seq<nat>) returns (i: nat)
    requires among != [] && forall k :: 0 <= k < |among| ==> among[k] < |base|
    ensures i in among && forall k :: 0 <= k < |among| && among[k] != i ==> Precedes(base, i, among[k])
  {
    var n := |among| - 1;
    if n == 0 {
      i := among[0];
    } else {
      var j := FirstToGo(base, among[..n]);
      i := if Precedes(base, among[n], j) then among[n] else j;
      forall k | 0 <= k < |among| && among[k] != i
        ensures Precedes(base, i, among[k])
      {
        if k < n {
          assert among[k] == among[..n][k];
        }
      }
    }
  }

  function Extra(left: seq<nat>, other: seq<nat>): (extra: seq<nat>)
    ensures forall j: nat :: j in extra <==> j in left && j !in other
  {
    if left == [] then []
    else Extra(left[..|left| - 1], other) + if left[|left| - 1] in other then [] else [left[|left| - 1]]
  }

  lemma NothingExtra(base: seq<Column>, width: int, left: seq<nat>, other: seq<nat>)
    requires IsVisible(base, width, left) && IsVisible(base, width, other)
    ensures Extra(left, other) == []
  {
    var extra := Extra(left, other);
    if extra != [] {
      forall k | 0 <= k < |extra|
        ensures extra[k] < |base|
      {
        assert extra[k] in extra;
      }
      var i := FirstToGo(base, extra);
      assert IsDropped(base, width, other, i);
      var idx :| 0 <= idx < |left| && left[idx] == i;
      forall k | 0 <= k < |left| && k != idx
        ensures Precedes(base, left[idx], left[k])
      {
        if left[k] in other {
          var l :| 0 <= l < |other| && other[l] == left[k];
        } else {
          assert left[k] in left && left[k] in extra;
          var l :| 0 <= l < |extra| && extra[l] == left[k];
        }
      }
      LeftIsStillThere(base, width, left, idx);
      assert false;
    }
  }

  /** What a terminal shows is settled by the base and the width alone: nothing else meets the terms. */
  lemma OneAnswer(base: seq<Column>, width: int, left: seq<nat>, other: seq<nat>)
    requires IsVisible(base, width, left) && IsVisible(base, width, other)
    ensures left == other
  {
    NothingExtra(base, width, left, other);
    NothingExtra(base, width, other, left);
    forall j: nat
      ensures j in left <==> j in other
    {
      assert j in left && j !in other <==> j in Extra(left, other);
      assert j in other && j !in left <==> j in Extra(other, left);
    }
    SameIndices(left, other, base);
  }

  /** Greedy as it is, it never drops in vain: put back the column it dropped last, and the row overflows. */
  lemma RestoringOverflows(base: seq<Column>, width: int, left: seq<nat>, restored: seq<nat>, last: nat)
    requires IsVisible(base, width, left) && AreIndices(restored, base)
    requires last < |base| && last !in left
    requires forall i: nat :: i < |base| && i !in left && i != last ==> Precedes(base, i, last)
    requires forall j: nat :: j in restored <==> j in left || j == last
    ensures RowWidth(Pick(base, restored)) > width
    ensures forall i: nat, k :: i < |base| && i !in left && 0 <= k < |left| ==> base[i].drop >= base[left[k]].drop
  {
    assert IsDropped(base, width, left, last);
    var there := StillThere(base, last, |base|);
    forall j: nat
      ensures j in restored <==> j in there
    {
      if j in left {
        var k :| 0 <= k < |left| && left[k] == j;
      }
    }
    SameIndices(restored, there, base);
    forall i: nat, k | i < |base| && i !in left && 0 <= k < |left|
      ensures base[i].drop >= base[left[k]].drop
    {
      assert IsDropped(base, width, left, i);
    }
  }

  // ---------------------------------------------------------------------------------------------
  // What was dropped.

  predicate DistinctKeys(base: seq<Column>) {
    forall i, j :: 0 <= i < j < |base| ==> base[i].key != base[j].key
  }

  /** The indices below `n` that are not in `left`. */
  function Others(left: seq<nat>, base: seq<Column>, n: nat): (others: seq<nat>)
    requires n <= |base|
    ensures forall k :: 0 <= k < |others| ==> others[k] < n
    ensures AreIndices(others, base) && forall j: nat :: j in others <==> j < n && j !in left
  {
    if n == 0 then [] else Others(left, base, n - 1) + if n - 1 in left then [] else [n - 1]
  }

  function Keys(cols: seq<Column>): set<string> {
    set c | c in cols :: c.key
  }

  method KeysOf(cols: seq<Column>) returns (keys: set<string>)
    ensures keys == Keys(cols)
  {
    keys := {};
    for k := 0 to |cols|
      invariant keys == Keys(cols[..k])
    {
      assert cols[..k + 1] == cols[..k] + [cols[k]];
      keys := keys + {cols[k].key};
    }
    assert cols[..|cols|] == cols;
  }

  lemma KeptByKey(base: seq<Column>, left: seq<nat>, i: nat)
    requires DistinctKeys(base) && AreIndices(left, base) && i < |base|
    ensures i in left <==> base[i].key in Keys(Pick(base, left))
  {
    var cols := Pick(base, left);
    if i in left {
      var l :| 0 <= l < |left| && left[l] == i;
      assert cols[l] in cols;
    }
    if base[i].key in Keys(cols) {
      var c :| c in cols && c.key == base[i].key;
      var l :| 0 <= l < |cols| && cols[l] == c;
      assert left[l] in left && base[left[l]] == c;
    }
  }

  lemma OthersStep(base: seq<Column>, left: seq<nat>, i: nat)
    requires i < |base|
    ensures Pick(base, Others(left, base, i + 1)) ==
            Pick(base, Others(left, base, i)) + if i in left then [] else [base[i]]
  {
  }

  lemma {:induction false} NoOthers(left: seq<nat>, base: seq<Column>, n: nat)
    requires n <= |base| && forall j: nat :: j < n ==> j in left
    ensures Others(left, base, n) == []
  {
    if n > 0 {
      NoOthers(left, base, n - 1);
    }
  }

  /** Which columns a terminal shows. */
  lemma Kept(base: seq<Column>, width: int, cols: seq<Column>) returns (left: seq<nat>)
    requires if width <= 0 then cols == base
             else exists left :: IsVisible(base, width, left) && cols == Pick(base, left)
    ensures AreIndices(left, base) && cols == Pick(base, left)
    ensures if width <= 0 then Others(left, base, |base|) == [] else IsVisible(base, width, left)
  {
    if width > 0 {
      left :| IsVisible(base, width, left) && cols == Pick(base, left);
    } else {
      left := seq(|base|, k => k);
      forall j: nat | j < |base|
        ensures j in left
      {
        assert left[j] == j;
      }
      NoOthers(left, base, |base|);
    }
  }

  /** The columns that do not fit: of columns with distinct keys, exactly those `VisibleColumns` leaves
      out, in the same order. */
  method OverflowColumns(base: seq<Column>, width: int) returns (out: seq<Column>)
    requires DistinctKeys(base)
    ensures width <= 0 ==> out == []
    ensures width > 0 ==> exists left :: IsVisible(base, width, left) && out == Pick(base, Others(left, base, |base|))
  {
    var cols := VisibleColumns(base, width);
    ghost var left := Kept(base, width, cols);
    var kept := KeysOf(cols);
    out := [];
    for i := 0 to |base|
      invariant out == Pick(base, Others(left, base, i))
    {
      KeptByKey(base, left, i);
      OthersStep(base, left, i);
      if base[i].key !in kept {
        out := out + [base[i]];
      }
    }
  }

  // ---------------------------------------------------------------------------------------------
  // The operator's order.

  predicate NoRepeats(keys: seq<string>) {
    forall i, j :: 0 <= i < j < |keys| ==> keys[i] != keys[j]
  }

  /** The first occurrence of each known key. */
  function Saved(order: seq<string>, keys: seq<string>): (saved: seq<string>)
    ensures NoRepeats(saved) && forall k :: k in saved <==> k in order && k in keys
  {
    if order == [] then []
    else
      var before, last := Saved(order[..|order| - 1], keys), order[|order| - 1];
      assert order == order[..|order| - 1] + [last];
      if last in keys && last !in before then before + [last] else before
  }

  /** `out`, and after it the keys it lacks. */
  function Completed(out: seq<string>, keys: seq<string>): (all: seq<string>)
    requires NoRepeats(out)
    ensures NoRepeats(all) && out <= all && forall k :: k in all <==> k in out || k in keys
  {
    if keys == [] then out
    else
      var before, last := Completed(out, keys[..|keys| - 1]), keys[|keys| - 1];
      assert keys == keys[..|keys| - 1] + [last];
      if last !in before then before + [last] else before
  }

  /** The full order: what was saved of the built-in keys, then the others. */
  function Full(order: seq<string>, keys: seq<string>): seq<string> {
    Completed(Saved(order, keys), keys)
  }

  ghost predicate IsPermutation(order: seq<string>, keys: seq<string>) {
    NoRepeats(order) && forall k :: k in order <==> k in keys
  }

  /** Whatever was saved, every built-in column appears exactly once: none is lost, doubled or invented. */
  lemma FullIsPermutation(order: seq<string>, keys: seq<string>)
    ensures IsPermutation(Full(order, keys), keys)
    ensures NoRepeats(keys) ==> multiset(Full(order, keys)) == multiset(keys)
  {
    if NoRepeats(keys) {
      SameMembers(Full(order, keys), keys);
    }
  }

  lemma {:induction false} CountNoRepeats(s: seq<string>, x: string)
    requires NoRepeats(s)
    ensures multiset(s)[x] == if x in s then 1 else 0
  {
    if s != [] {
      var n := |s| - 1;
      assert s == s[..n] + [s[n]];
      CountNoRepeats(s[..n], x);
      assert x in s <==> x in s[..n] || x == s[n];
    }
  }

  lemma SameMembers(a: seq<string>, b: seq<string>)
    requires NoRepeats(a) && NoRepeats(b) && forall k :: k in a <==> k in b
    ensures multiset(a) == multiset(b)
  {
    forall x
      ensures multiset(a)[x] == multiset(b)[x]
    {
      CountNoRepeats(a, x);
      CountNoRepeats(b, x);
    }
  }

  lemma {:induction false} SavedIsSame(order: seq<string>, keys: seq<string>)
    requires NoRepeats(order) && forall k :: k in order ==> k in keys
    ensures Saved(order, keys) == order
  {
    if order != [] {
      var n := |order| - 1;
      assert order == order[..n] + [order[n]];
      SavedIsSame(order[..n], keys);
    }
  }

  lemma {:induction false} CompletedIsSame(out: seq<string>, keys: seq<string>)
    requires NoRepeats(out) && forall k :: k in keys ==> k in out
    ensures Completed(out, keys) == out
  {
    if keys != [] {
      CompletedIsSame(out, keys[..|keys| - 1]);
      assert keys[|keys| - 1] in keys;
    }
  }

  /** An order that already names every column once is taken as it is. */
  lemma FullIsSame(order: seq<string>, keys: seq<string>)
    requires IsPermutation(order, keys)
    ensures Full(order, keys) == order
  {
    SavedIsSame(order, keys);
    CompletedIsSame(order, keys);
  }

  method FullOrder(order: seq<string>, keys: seq<string>) returns (out: seq<string>)
    ensures out == Full(order, keys)
  {
    var seen: set<string> := {};
    out := [];
    for i := 0 to |order|
      invariant out == Saved(order[..i], keys)
      invariant forall k :: k in seen <==> k in out
    {
      assert order[..i + 1][..i] == order[..i];
      var k := order[i];
      if k in keys && k !in seen {
        out := out + [k];
        seen := seen + {k};
      }
    }
    assert order[..|order|] == order;
    ghost var saved := out;
    for i := 0 to |keys|
      invariant out == Completed(saved, keys[..i])
      invariant forall k :: k in seen <==> k in out
    {
      assert keys[..i + 1][..i] == keys[..i];
      var k := keys[i];
      if k !in seen {
        out := out + [k];
        seen := seen + {k};
      }
    }
    assert keys[..|keys|] == keys;
  }

  function Position(order: seq<string>, key: string): (at: int)
    ensures -1 <= at < |order|
    ensures at >= 0 ==> order[at] == key && forall i :: 0 <= i < at ==> order[i] != key
    ensures at < 0 ==> key !in order
  {
    if order == [] then -1
    else
      var at := Position(order[..|order| - 1], key);
      assert order == order[..|order| - 1] + [order[|order| - 1]];
      if at >= 0 then at else if order[|order| - 1] == key then |order| - 1 else -1
  }

  lemma PositionSnoc(s: seq<string>, last: string, key: string)
    ensures Position(s + [last], key) ==
            if key in s then Position(s, key) else if key == last then |s| else -1
  {
    assert (s + [last])[..|s|] == s;
    if Position(s, key) >= 0 {
      assert s[Position(s, key)] == key;
    }
  }

  lemma PositionIn(s: seq<string>, key: string)
    ensures key in s <==> 0 <= Position(s, key) < |s|
  {
  }

  lemma {:induction false} SavedInOrder(order: seq<string>, keys: seq<string>, a: string, b: string)
    requires a in Saved(order, keys) && b in Saved(order, keys)
    ensures Position(Saved(order, keys), a) < Position(Saved(order, keys), b) <==>
            Position(order, a) < Position(order, b)
  {
    var n := |order| - 1;
    var before, last := Saved(order[..n], keys), order[n];
    assert order == order[..n] + [last];
    if a in before && b in before {
      SavedInOrder(order[..n], keys, a, b);
    }
    SnocInOrder(order[..n], last, a, b);
    SnocInOrder(before, last, a, b);
  }

  lemma {:induction false} CompletedInOrder(out: seq<string>, keys: seq<string>, a: string, b: string)
    requires NoRepeats(out) && a in Completed(out, keys) && b in Completed(out, keys)
    ensures Position(Completed(out, keys), a) < Position(Completed(out, keys), b) <==>
            if a in out && b in out then Position(out, a) < Position(out, b)
            else if a !in out && b !in out then Position(keys, a) < Position(keys, b)
            else a in out
  {
    if keys != [] {
      var n := |keys| - 1;
      var before, first, last := Completed(out, keys[..n]), keys[..n], keys[n];
      assert keys == first + [last];
      if a in before && b in before {
        CompletedInOrder(out, first, a, b);
      }
      SnocInOrder(first, last, a, b);
      SnocInOrder(before, last, a, b);
    }
  }

  /** Where two keys stand once one more is added at the end, if it is new. */
  lemma SnocInOrder(s: seq<string>, last: string, a: string, b: string)
    ensures a in s && b in s ==>
              (Position(s + [last], a) < Position(s + [last], b) <==> Position(s, a) < Position(s, b))
    ensures a in s && b !in s && b == last ==> Position(s + [last], a) < Position(s + [last], b)
    ensures a !in s && a == last && b in s ==> Position(s + [last], a) > Position(s + [last], b)
  {
    PositionSnoc(s, last, a);
    PositionSnoc(s, last, b);
    PositionIn(s, a);
    PositionIn(s, b);
  }

  /** Of two built-in columns the one saved earlier comes first; a saved one comes before one that was not;
      and those that were not keep the built-in order. */
  lemma FullIsOrdered(order: seq<string>, keys: seq<string>, a: string, b: string)
    requires a in keys && b in keys
    ensures Position(Full(order, keys), a) < Position(Full(order, keys), b) <==>
            if a in order && b in order then Position(order, a) < Position(order, b)
            else if a !in order && b !in order then Position(keys, a) < Position(keys, b)
            else a in order
  {
    CompletedInOrder(Saved(order, keys), keys, a, b);
    if a in order && b in order {
      SavedInOrder(order, keys, a, b);
    }
  }

  function Swapped(s: seq<string>, i: int, j: int): seq<string>
    requires 0 <= i < |s| && 0 <= j < |s|
  {
    s[i := s[j]][j := s[i]]
  }

  /** The order with a column moved by `dir` slots, or as it was when there is no room or no such column. */
  function Moved(order: seq<string>, keys: seq<string>, key: string, dir: int): seq<string> {
    var cur := Full(order, keys);
    var i := Position(cur, key);
    var j := i + dir;
    if i < 0 || j < 0 || j >= |cur| then order else Swapped(cur, i, j)
  }

  predicate HasRoom(order: seq<string>, keys: seq<string>, key: string, dir: int) {
    var cur := Full(order, keys);
    var i := Position(cur, key);
    i >= 0 && 0 <= i + dir < |cur|
  }

  method MoveColumn(order: seq<string>, keys: seq<string>, key: string, dir: int) returns (moved: seq<string>)
    ensures moved == Moved(order, keys, key, dir)
    ensures !HasRoom(order, keys, key, dir) ==> moved == order
    ensures HasRoom(order, keys, key, dir) ==>
              var cur := Full(order, keys);
              var i := Position(cur, key);
              && |moved| == |cur| && moved[i + dir] == key && moved[i] == cur[i + dir]
              && forall k :: 0 <= k < |cur| && k != i && k != i + dir ==> moved[k] == cur[k]
  {
    var cur := FullOrder(order, keys);
    var idx := -1;
    for i := 0 to |cur|
      invariant idx == -1 && forall k :: 0 <= k < i ==> cur[k] != key
    {
      if cur[i] == key {
        idx := i;
        break;
      }
    }
    assert idx == Position(cur, key);
    var j := idx + dir;
    if idx < 0 || j < 0 || j >= |cur| {
      return order;
    }
    moved := cur[idx := cur[j]][j := cur[idx]];
  }

  lemma PositionIs(s: seq<string>, i: int)
    requires NoRepeats(s) && 0 <= i < |s|
    ensures Position(s, s[i]) == i
  {
    var at := Position(s, s[i]);
    assert s[i] in s;
    assert s[at] == s[i];
  }

  lemma SwapIsUndone(s: seq<string>, i: int, j: int)
    requires 0 <= i < |s| && 0 <= j < |s|
    ensures Swapped(Swapped(s, i, j), j, i) == s
    ensures Swapped(s, i, j)[j] == s[i]
  {
  }

  /** Moving the column at slot `i` of a full order, once it is there. */
  lemma MovedBack(moved: seq<string>, keys: seq<string>, key: string, j: int, i: int, dir: int)
    requires IsPermutation(moved, keys) && 0 <= j < |moved| && moved[j] == key && 0 <= i < |moved|
    requires i == j + dir
    ensures HasRoom(moved, keys, key, dir)
    ensures Moved(moved, keys, key, dir) == Swapped(moved, j, i)
  {
    FullIsSame(moved, keys);
    PositionIs(moved, j);
  }

  lemma MoveSwaps(order: seq<string>, keys: seq<string>, key: string, dir: int, cur: seq<string>, i: int)
    requires cur == Full(order, keys) && i == Position(cur, key) && HasRoom(order, keys, key, dir)
    ensures 0 <= i < |cur| && cur[i] == key && 0 <= i + dir < |cur|
    ensures Moved(order, keys, key, dir) == Swapped(cur, i, i + dir)
  {
  }

  lemma SwappedBack(cur: seq<string>, keys: seq<string>, key: string, i: int, dir: int)
    requires IsPermutation(cur, keys) && 0 <= i < |cur| && cur[i] == key && 0 <= i + dir < |cur|
    ensures var moved := Swapped(cur, i, i + dir);
            HasRoom(moved, keys, key, -dir) && Moved(moved, keys, key, -dir) == cur
  {
    var moved, j := Swapped(cur, i, i + dir), i + dir;
    SwappedMembers(cur, i, j);
    assert IsPermutation(moved, keys);
    SwapIsUndone(cur, i, j);
    assert moved[j] == key && Swapped(moved, j, i) == cur;
    MovedBack(moved, keys, key, j, i, -dir);
  }

  /** A move that has room is undone by the opposite move, whatever order it started from: what is left
      is the full order that was displayed. */
  lemma MoveIsUndone(order: seq<string>, keys: seq<string>, key: string, dir: int)
    requires HasRoom(order, keys, key, dir)
    ensures var moved := Moved(order, keys, key, dir);
            HasRoom(moved, keys, key, -dir) && Moved(moved, keys, key, -dir) == Full(order, keys)
  {
    var cur := Full(order, keys);
    var i := Position(cur, key);
    MoveSwaps(order, keys, key, dir, cur, i);
    FullIsPermutation(order, keys);
    SwappedBack(cur, keys, key, i, dir);
  }

  lemma SwappedMembers(s: seq<string>, i: int, j: int)
    requires NoRepeats(s) && 0 <= i < |s| && 0 <= j < |s|
    ensures NoRepeats(Swapped(s, i, j)) && forall k :: k in Swapped(s, i, j) <==> k in s
  {
    var t := Swapped(s, i, j);
    forall k
      ensures k in t <==> k in s
    {
      if k in s {
        var a :| 0 <= a < |s| && s[a] == k;
        assert t[if a == i then j else if a == j then i else a] == k;
      }
    }
  }
}
