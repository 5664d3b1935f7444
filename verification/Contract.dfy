/**
 In-place contraction of a community graph: relabel, bucket by row, sort each row, collapse equal
 neighbors and loops, and copy back.
 */
module Contract {
  import opened Weights
  import opened Sorts
  import opened Buckets

  // ---------------------------------------------------------------- collapsing a row

  ghost predicate Ascending(row: seq<Pair>) {
    forall a, b | 0 <= a < b < |row| :: row[a].key < row[b].key
  }

  // out is row i with loops taken out, into diag, and equal neighbors merged.
  ghost predicate Collapsed(row: seq<Pair>, out: seq<Pair>, i: int, diag: int) {
    && Ascending(out) && Keys(out) == Keys(row) - {i} && |out| <= |row|
    && diag == KeySum(row, i)
    && forall x | x != i :: KeySum(out, x) == KeySum(row, x)
  }

  lemma CollapseLoop(row: seq<Pair>, out: seq<Pair>, i: int, diag: int, p: Pair)
    requires Collapsed(row, out, i, diag) && p.key == i
    ensures Collapsed(row + [p], out, i, diag + p.weight)
  {
    forall x ensures KeySum(row + [p], x) == KeySum(row, x) + (if p.key == x then p.weight else 0) { KeySumPush(row, p, x); }
    KeySumPush(row, p, i);
    hide KeySum, Keys;
  }

  lemma CollapseNew(row: seq<Pair>, out: seq<Pair>, i: int, diag: int, p: Pair)
    requires Collapsed(row, out, i, diag) && p.key != i
    requires out == [] || out[|out| - 1].key < p.key
    ensures Collapsed(row + [p], out + [p], i, diag)
  {
    var row', out' := row + [p], out + [p];
    forall x ensures KeySum(row', x) == KeySum(row, x) + (if p.key == x then p.weight else 0) { KeySumPush(row, p, x); }
    forall x ensures KeySum(out', x) == KeySum(out, x) + (if p.key == x then p.weight else 0) { KeySumPush(out, p, x); }
    KeySumPush(row, p, i);
    KeySumPush(out, p, i);
    hide KeySum, Keys;
    assert Keys(out') == Keys(row') - {i};
    assert Ascending(out') by {
      forall a, b | 0 <= a < b < |out'| ensures out'[a].key < out'[b].key {
        if b == |out| && a < |out| - 1 { assert out[a].key < out[|out| - 1].key; }
      }
    }
  }

  lemma CollapseSame(row: seq<Pair>, out: seq<Pair>, i: int, diag: int, p: Pair)
    requires Collapsed(row, out, i, diag) && p.key != i
    requires out != [] && out[|out| - 1].key == p.key
    ensures var n := |out| - 1; Collapsed(row + [p], out[n := Pair(p.key, out[n].weight + p.weight)], i, diag)
  {
    var n := |out| - 1;
    var q := Pair(p.key, out[n].weight + p.weight);
    forall x ensures KeySum(row + [p], x) == KeySum(row, x) + (if p.key == x then p.weight else 0) { KeySumPush(row, p, x); }
    forall x ensures KeySum(out[n := q], x) == KeySum(out, x) + (if p.key == x then p.weight else 0) { KeySumSet(out, n, q, x); }
    KeySumPush(row, p, i);
    assert Keys(out[n := q]) == Keys(out) by {
      assert out[n] in out && q in out[n := q] by { assert out[n := q][n] == q; }
      forall x ensures x in Keys(out[n := q]) <==> x in Keys(out) {
        if x in Keys(out) {
          var r :| r in out && r.key == x;
          var a :| 0 <= a < |out| && out[a] == r;
          assert out[n := q][a] in out[n := q];
        }
        if x in Keys(out[n := q]) {
          var r :| r in out[n := q] && r.key == x;
        }
      }
    }
    assert p.key in Keys(out) by { assert out[n] in out; }
    hide KeySum, Keys;
  }

  // The state of the collapse of row i in tmp[lo..hi): pairs before k are done, out is in place.
  ghost predicate Collapsing(row: seq<Pair>, tmp: seq<Pair>, lo: nat, k: nat, hi: nat, i: int, out: seq<Pair>, diag: int) {
    && lo <= k <= hi <= |tmp| && |row| == hi - lo && Sorted(row)
    && lo + |out| <= k && tmp[lo..lo + |out|] == out && tmp[k..hi] == row[k - lo..]
    && Collapsed(row[..k - lo], out, i, diag)
  }

  lemma CollapsingNext(row: seq<Pair>, tmp: seq<Pair>, lo: nat, k: nat, hi: nat, i: int, out: seq<Pair>, diag: int)
    requires Collapsing(row, tmp, lo, k, hi, i, out, diag) && k < hi
    ensures tmp[k] == row[k - lo] && row[..k - lo] + [tmp[k]] == row[..k + 1 - lo]
    ensures out != [] ==> out[|out| - 1].key <= tmp[k].key && tmp[lo + |out| - 1] == out[|out| - 1]
  {
    assert tmp[k] == tmp[k..hi][0];
    if out != [] {
      var last := out[|out| - 1];
      assert last in out && last.key in Keys(out) && last.key in Keys(row[..k - lo]);
      var r :| r in row[..k - lo] && r.key == last.key;
      var a :| 0 <= a < k - lo && row[a] == r;
      assert row[a].key <= row[k - lo].key;
      assert tmp[lo..lo + |out|][|out| - 1] == tmp[lo + |out| - 1];
    }
  }

  lemma CollapsingLoop(row: seq<Pair>, tmp: seq<Pair>, lo: nat, k: nat, hi: nat, i: int, out: seq<Pair>, diag: int)
    requires Collapsing(row, tmp, lo, k, hi, i, out, diag) && k < hi && tmp[k].key == i
    ensures Collapsing(row, tmp, lo, k + 1, hi, i, out, diag + tmp[k].weight)
  {
    CollapsingNext(row, tmp, lo, k, hi, i, out, diag);
    CollapseLoop(row[..k - lo], out, i, diag, tmp[k]);
    hide Collapsed, Sorted;
    assert tmp[k + 1..hi] == tmp[k..hi][1..];
  }

  lemma CollapsingNew(row: seq<Pair>, tmp: seq<Pair>, lo: nat, k: nat, hi: nat, i: int, out: seq<Pair>, diag: int)
    requires Collapsing(row, tmp, lo, k, hi, i, out, diag) && k < hi && tmp[k].key != i
    requires out == [] || tmp[k].key != out[|out| - 1].key
    ensures Collapsing(row, tmp[lo + |out| := tmp[k]], lo, k + 1, hi, i, out + [tmp[k]], diag)
  {
    CollapsingNext(row, tmp, lo, k, hi, i, out, diag);
    CollapseNew(row[..k - lo], out, i, diag, tmp[k]);
    hide Collapsed, Sorted;
    assert tmp[lo + |out| := tmp[k]][k + 1..hi] == tmp[k..hi][1..];
  }

  lemma CollapsingSame(row: seq<Pair>, tmp: seq<Pair>, lo: nat, k: nat, hi: nat, i: int, out: seq<Pair>, diag: int)
    requires Collapsing(row, tmp, lo, k, hi, i, out, diag) && k < hi && tmp[k].key != i
    requires out != [] && tmp[k].key == out[|out| - 1].key
    ensures var n := |out| - 1;
      var q := Pair(tmp[k].key, out[n].weight + tmp[k].weight);
      Collapsing(row, tmp[lo + n := q], lo, k + 1, hi, i, out[n := q], diag)
  {
    CollapsingNext(row, tmp, lo, k, hi, i, out, diag);
    CollapseSame(row[..k - lo], out, i, diag, tmp[k]);
    var n := |out| - 1;
    var q := Pair(tmp[k].key, out[n].weight + tmp[k].weight);
    hide Collapsed, Sorted;
    assert tmp[lo + n := q][k + 1..hi] == tmp[k..hi][1..];
  }

  // Everything but tmp[lo..hi) is as it was.
  ghost predicate Outside(tmp: seq<Pair>, was: seq<Pair>, lo: nat, hi: nat) {
    |tmp| == |was| && forall a | 0 <= a < |tmp| && !(lo <= a < hi) :: tmp[a] == was[a]
  }

  // The state of the collapse, with the array's former contents and d's former entry.
  ghost predicate CollapseState(was: seq<Pair>, tmp: seq<Pair>, lo: nat, k: nat, hi: nat, i: nat, out: seq<Pair>, d0: seq<int>, d: seq<int>) {
    && lo <= hi <= |was| && i < |d| && |d0| == |d| && d == d0[i := d[i]] && Outside(tmp, was, lo, hi)
    && Collapsing(was[lo..hi], tmp, lo, k, hi, i, out, d[i] - d0[i])
  }

  // Leading loops go to the diagonal.
  method PeelLoops(tmp: array<Pair>, lo: nat, hi: nat, i: nat, d: array<int>) returns (k: nat)
    requires lo <= hi <= tmp.Length && i < d.Length && Sorted(tmp[..][lo..hi])
    modifies d
    ensures CollapseState(tmp[..], tmp[..], lo, k, hi, i, [], old(d[..]), d[..])
    ensures k == hi || (k < hi && tmp[k].key != i)
  {
    hide *;
    ghost var was, d0 := tmp[..], d[..];
    k := lo;
    StateStarts(was, lo, hi, i, d0);
    while k < hi && tmp[k].key == i
      invariant lo <= k <= hi && was == tmp[..]
      invariant CollapseState(was, was, lo, k, hi, i, [], d0, d[..])
    {
      ghost var d1 := d[..];
      StateLoop(was, was, lo, k, hi, i, [], d0, d1);
      d[i] := d[i] + tmp[k].weight;
      assert d[..] == d1[i := d1[i] + was[k].weight];
      k := k + 1;
    }
  }

  lemma StateStarts(was: seq<Pair>, lo: nat, hi: nat, i: nat, d: seq<int>)
    requires lo <= hi <= |was| && i < |d| && Sorted(was[lo..hi])
    ensures CollapseState(was, was, lo, lo, hi, i, [], d, d)
  {
    assert was[lo..hi][..0] == [];
    assert forall x :: KeySum([], x) == 0;
    assert Keys([]) == {};
    hide Sorted, KeySum, Keys;
  }

  lemma StateLoop(was: seq<Pair>, tmp: seq<Pair>, lo: nat, k: nat, hi: nat, i: nat, out: seq<Pair>, d0: seq<int>, d: seq<int>)
    requires CollapseState(was, tmp, lo, k, hi, i, out, d0, d) && k < hi && tmp[k].key == i
    ensures CollapseState(was, tmp, lo, k + 1, hi, i, out, d0, d[i := d[i] + tmp[k].weight])
  {
    CollapsingLoop(was[lo..hi], tmp, lo, k, hi, i, out, d[i] - d0[i]);
  }

  lemma StateNew(was: seq<Pair>, tmp: seq<Pair>, lo: nat, k: nat, hi: nat, i: nat, out: seq<Pair>, d0: seq<int>, d: seq<int>)
    requires CollapseState(was, tmp, lo, k, hi, i, out, d0, d) && k < hi && tmp[k].key != i
    requires out == [] || tmp[k].key != tmp[lo + |out| - 1].key
    ensures lo + |out| <= k < |tmp|
    ensures CollapseState(was, tmp[lo + |out| := tmp[k]], lo, k + 1, hi, i, out + [tmp[k]], d0, d)
  {
    CollapsingNext(was[lo..hi], tmp, lo, k, hi, i, out, d[i] - d0[i]);
    CollapsingNew(was[lo..hi], tmp, lo, k, hi, i, out, d[i] - d0[i]);
    OutsideSet(tmp, was, lo, hi, lo + |out|, tmp[k]);
  }

  lemma StateSame(was: seq<Pair>, tmp: seq<Pair>, lo: nat, k: nat, hi: nat, i: nat, out: seq<Pair>, d0: seq<int>, d: seq<int>)
    requires CollapseState(was, tmp, lo, k, hi, i, out, d0, d) && k < hi && tmp[k].key != i
    requires out != [] && tmp[k].key == tmp[lo + |out| - 1].key
    ensures var n := lo + |out| - 1;
      var q := Pair(tmp[n].key, tmp[n].weight + tmp[k].weight);
      n < k < |tmp| && CollapseState(was, tmp[n := q], lo, k + 1, hi, i, out[|out| - 1 := q], d0, d)
  {
    CollapsingNext(was[lo..hi], tmp, lo, k, hi, i, out, d[i] - d0[i]);
    CollapsingSame(was[lo..hi], tmp, lo, k, hi, i, out, d[i] - d0[i]);
    OutsideSet(tmp, was, lo, hi, lo + |out| - 1, Pair(tmp[k].key, out[|out| - 1].weight + tmp[k].weight));
  }

  // From the first other neighbor on: later loops to the diagonal, equal neighbors merged.
  method MergeRest(tmp: array<Pair>, lo: nat, k0: nat, hi: nat, i: nat, d: array<int>, ghost d0: seq<int>) returns (end: nat)
    requires lo <= k0 < hi <= tmp.Length && i < d.Length && tmp[k0].key != i
    requires CollapseState(tmp[..], tmp[..], lo, k0, hi, i, [], d0, d[..])
    modifies tmp, d
    ensures lo <= end <= hi && CollapseState(old(tmp[..]), tmp[..], lo, hi, hi, i, tmp[..][lo..end], d0, d[..])
  {
    hide *;
    ghost var was, s := tmp[..], tmp[..];
    var k, kcur := k0, lo;
    StateNew(was, s, lo, k, hi, i, [], d0, d[..]);
    ghost var out := [] + [tmp[k]];
    s := s[kcur := tmp[k]];
    if k != kcur { tmp[kcur] := tmp[k]; }
    k := k + 1;
    while k < hi
      invariant lo <= kcur < k <= hi && s == tmp[..] && |out| == kcur + 1 - lo
      invariant CollapseState(was, s, lo, k, hi, i, out, d0, d[..])
    {
      ghost var d1 := d[..];
      if tmp[k].key == i {
        StateLoop(was, s, lo, k, hi, i, out, d0, d1);
        d[i] := d[i] + tmp[k].weight;
        assert d[..] == d1[i := d1[i] + s[k].weight];
      } else if tmp[k].key != tmp[kcur].key {
        StateNew(was, s, lo, k, hi, i, out, d0, d1);
        kcur := kcur + 1;
        s, out := s[kcur := tmp[k]], out + [tmp[k]];
        if kcur != k { tmp[kcur] := tmp[k]; }
      } else {
        StateSame(was, s, lo, k, hi, i, out, d0, d1);
        s, out := s[kcur := Pair(s[kcur].key, s[kcur].weight + s[k].weight)], out[kcur - lo := Pair(s[kcur].key, s[kcur].weight + s[k].weight)];
        tmp[kcur] := Pair(tmp[kcur].key, tmp[kcur].weight + tmp[k].weight);
      }
      k := k + 1;
    }
    end := kcur + 1;
    StateOut(was, s, lo, k, hi, i, out, d0, d[..]);
  }

  lemma StateOut(was: seq<Pair>, tmp: seq<Pair>, lo: nat, k: nat, hi: nat, i: nat, out: seq<Pair>, d0: seq<int>, d: seq<int>)
    requires CollapseState(was, tmp, lo, k, hi, i, out, d0, d)
    ensures lo + |out| <= k <= hi <= |tmp| && tmp[lo..lo + |out|] == out
  {
  }

  /** Collapses the sorted row i in tmp[lo..hi); the row then ends at `end`. */
  method CollapseRow(tmp: array<Pair>, lo: nat, hi: nat, i: nat, d: array<int>) returns (end: nat)
    requires lo <= hi <= tmp.Length && i < d.Length && Sorted(tmp[..][lo..hi])
    modifies tmp, d
    ensures lo <= end <= hi && Outside(tmp[..], old(tmp[..]), lo, hi)
    ensures d[..] == old(d[..])[i := d[i]]
    ensures Collapsed(old(tmp[..])[lo..hi], tmp[..][lo..end], i, d[i] - old(d[i]))
  {
    ghost var was, d0 := tmp[..], d[..];
    var k := PeelLoops(tmp, lo, hi, i, d);
    if k == hi {
      end := lo;
      assert tmp[..][lo..end] == [];
    } else {
      end := MergeRest(tmp, lo, k, hi, i, d, d0);
    }
    StateDone(was, tmp[..], lo, hi, i, tmp[..][lo..end], d0, d[..]);
  }

  lemma StateDone(was: seq<Pair>, tmp: seq<Pair>, lo: nat, hi: nat, i: nat, out: seq<Pair>, d0: seq<int>, d: seq<int>)
    requires CollapseState(was, tmp, lo, hi, hi, i, out, d0, d)
    ensures Outside(tmp, was, lo, hi) && d == d0[i := d[i]] && Collapsed(was[lo..hi], out, i, d[i] - d0[i])
  {
    assert was[lo..hi][..hi - lo] == was[lo..hi];
  }

  lemma OutsideSet(s: seq<Pair>, was: seq<Pair>, lo: nat, hi: nat, k: nat, p: Pair)
    requires Outside(s, was, lo, hi) && lo <= k < hi <= |s|
    ensures Outside(s[k := p], was, lo, hi)
  {
  }

  // ---------------------------------------------------------------- all rows

  ghost predicate OffsetAt(off: seq<int>, i: nat, size: nat) {
    i + 1 < |off| && 0 <= off[i] <= off[i + 1] <= size
  }

  ghost predicate Offsets(off: seq<int>, nv: nat, size: nat) {
    |off| == nv + 1 && forall i: nat | i < nv :: OffsetAt(off, i, size)
  }

  lemma {:induction false} OffsetsOrder(off: seq<int>, nv: nat, size: nat, i: nat, j: nat)
    requires Offsets(off, nv, size) && i <= j <= nv && 0 <= off[0] <= size
    ensures 0 <= off[i] <= off[j] <= size
    decreases j
  {
    if i < j {
      var j': nat := j - 1;
      OffsetsOrder(off, nv, size, i, j');
      assert OffsetAt(off, j', size);
    } else if 0 < j {
      var j': nat := j - 1;
      assert OffsetAt(off, j', size);
    }
  }

  ghost predicate RowDone(rows: seq<seq<Pair>>, off: seq<int>, tmp: seq<Pair>, rowend: seq<int>, d0: seq<int>, d: seq<int>, i: nat) {
    && i + 1 < |off| && i < |rows| && i < |rowend| && i < |d| && i < |d0|
    && 0 <= off[i] <= rowend[i] <= off[i + 1] <= |tmp|
    && Collapsed(rows[i], tmp[off[i]..rowend[i]], i, d[i] - d0[i])
  }

  lemma CollapsedSorted(row: seq<Pair>, sorted: seq<Pair>, out: seq<Pair>, i: int, diag: int)
    requires multiset(sorted) == multiset(row) && Collapsed(sorted, out, i, diag)
    ensures Collapsed(row, out, i, diag)
  {
    forall x ensures KeySum(sorted, x) == KeySum(row, x) { KeySumMultiset(sorted, row, x); }
    KeySumMultiset(sorted, row, i);
    KeysMultiset(sorted, row);
    assert |multiset(sorted)| == |multiset(row)|;
    hide KeySum, Keys;
  }

  // Row r sorted and collapsed, the other rows as they were.
  method SortAndCollapseRow(tmp: array<Pair>, off: array<int>, rowend: array<int>, d: array<int>, r: nat, ghost row: seq<Pair>)
    requires r + 1 < off.Length && r < rowend.Length && r < d.Length
    requires off != rowend && d != rowend && d != off && BucketedRow(off[..], tmp[..], r, row)
    modifies tmp, rowend, d
    ensures Outside(tmp[..], old(tmp[..]), off[r], off[r + 1])
    ensures rowend[..] == old(rowend[..])[r := rowend[r]] && d[..] == old(d[..])[r := d[r]]
    ensures off[r] <= rowend[r] <= off[r + 1] && Collapsed(row, tmp[..][off[r]..rowend[r]], r, d[r] - old(d[r]))
  {
    var lo, hi := off[r], off[r + 1];
    ghost var was := tmp[..];
    IntrosortIki(tmp, lo, hi - lo);
    ghost var sorted := tmp[..];
    assert Outside(sorted, was, lo, hi);
    hide Rearranged, Sorted, Collapsed;
    var end := CollapseRow(tmp, lo, hi, r, d);
    OutsideTwice(tmp[..], sorted, was, lo, hi);
    rowend[r] := end;
    CollapsedSorted(row, sorted[lo..hi], tmp[..][lo..end], r, d[r] - old(d[r]));
  }

  lemma OutsideTwice(s: seq<Pair>, t: seq<Pair>, u: seq<Pair>, lo: nat, hi: nat)
    requires Outside(s, t, lo, hi) && Outside(t, u, lo, hi)
    ensures Outside(s, u, lo, hi)
  {
  }

  // The row loop has finished the first r rows.
  ghost predicate RowsState(rows: seq<seq<Pair>>, off: seq<int>, tmp: seq<Pair>, rowend: seq<int>, d0: seq<int>, d: seq<int>, nv: nat, r: nat) {
    && |rows| == nv && Offsets(off, nv, |tmp|) && off[0] == 0 && nv <= |rowend| && nv <= |d| == |d0| && r <= nv
    && (forall i: nat | i < r :: RowDone(rows, off, tmp, rowend, d0, d, i))
    && (forall i: nat | r <= i < nv :: BucketedRow(off, tmp, i, rows[i]))
    && (forall i: nat | r <= i < |d| :: d[i] == d0[i])
  }

  lemma RowsNext(rows: seq<seq<Pair>>, off: seq<int>, tmp: seq<Pair>, rowend: seq<int>, d0: seq<int>, d: seq<int>, nv: nat, r: nat,
                 tmp': seq<Pair>, rowend': seq<int>, d': seq<int>)
    requires RowsState(rows, off, tmp, rowend, d0, d, nv, r) && r < nv
    requires 0 <= off[r] <= off[r + 1] && Outside(tmp', tmp, off[r], off[r + 1]) && |rowend'| == |rowend| && |d'| == |d|
    requires rowend' == rowend[r := rowend'[r]] && d' == d[r := d'[r]]
    requires off[r] <= rowend'[r] <= off[r + 1] && Collapsed(rows[r], tmp'[off[r]..rowend'[r]], r, d'[r] - d[r])
    ensures RowsState(rows, off, tmp', rowend', d0, d', nv, r + 1)
  {
    assert 0 <= off[0] <= |tmp|;
    assert RowDone(rows, off, tmp', rowend', d0, d', r);
    hide Collapsed;
    forall i: nat | i < r ensures RowDone(rows, off, tmp', rowend', d0, d', i) {
      assert RowDone(rows, off, tmp, rowend, d0, d, i);
      OffsetsOrder(off, nv, |tmp|, i + 1, r);
      assert tmp'[off[i]..rowend[i]] == tmp[off[i]..rowend[i]];
    }
    forall i: nat | r + 1 <= i < nv ensures BucketedRow(off, tmp', i, rows[i]) {
      assert BucketedRow(off, tmp, i, rows[i]);
      OffsetsOrder(off, nv, |tmp|, r + 1, i);
      assert tmp'[off[i]..off[i + 1]] == tmp[off[i]..off[i + 1]];
    }
  }

  /** Sorts and collapses every row. */
  method SortAndCollapse(nv: nat, tmp: array<Pair>, off: array<int>, rowend: array<int>, d: array<int>, ghost rows: seq<seq<Pair>>)
    requires off.Length == nv + 1 && nv <= rowend.Length && nv <= d.Length
    requires off != rowend && d != rowend && d != off && Bucketed(off[..], tmp[..], rows)
    modifies tmp, rowend, d
    ensures RowsState(rows, off[..], tmp[..], rowend[..], old(d[..]), d[..], nv, nv)
  {
    ghost var d0 := d[..];
    var r := 0;
    assert RowsState(rows, off[..], tmp[..], rowend[..], d0, d[..], nv, 0) by {
      forall i: nat | i < nv ensures OffsetAt(off[..], i, tmp.Length) { assert BucketedRow(off[..], tmp[..], i, rows[i]); }
    }
    while r < nv
      invariant 0 <= r <= nv && off[..] == old(off[..])
      invariant RowsState(rows, off[..], tmp[..], rowend[..], d0, d[..], nv, r)
    {
      ghost var tmp1, rowend1, d1 := tmp[..], rowend[..], d[..];
      assert BucketedRow(off[..], tmp1, r, rows[r]) && |rows| == nv;
      assert 0 <= off[r];
      hide RowsState, BucketedRow, Collapsed;
      SortAndCollapseRow(tmp, off, rowend, d, r, rows[r]);
      RowsNext(rows, off[..], tmp1, rowend1, d0, d1, nv, r, tmp[..], rowend[..], d[..]);
      r := r + 1;
    }
  }

  // ---------------------------------------------------------------- copying back

  // The collapsed rows, as they lie in tmp.
  function RowsOut(off: seq<int>, tmp: seq<Pair>, rowend: seq<int>, nv: nat): (r: seq<seq<Pair>>)
    ensures |r| == nv
  {
    seq(nv, i requires 0 <= i < nv =>
      if i < |off| && i < |rowend| && 0 <= off[i] <= rowend[i] <= |tmp| then tmp[off[i]..rowend[i]] else [])
  }

  // rowstart and rowend delimit the rows within their concatenation.
  ghost predicate RowsAt(outs: seq<seq<Pair>>, rowstart: seq<int>, rowend: seq<int>, r: nat) {
    && r <= |outs| && r <= |rowstart| && r <= |rowend|
    && forall i: nat | i < r :: rowstart[i] == |RowsEdges(outs[..i])| && rowend[i] == rowstart[i] + |outs[i]|
  }

  // One row copied behind the edges already copied.
  method CopyRow(el: array<Edge>, start: nat, i: nat, tmp: array<Pair>, src: nat, n: nat)
    requires start + n <= el.Length && src + n <= tmp.Length
    modifies el
    ensures el[..start + n] == old(el[..start]) + RowEdges(i, tmp[src..src + n])
    ensures el[start + n..] == old(el[start + n..])
  {
    var k := 0;
    while k < n
      invariant 0 <= k <= n
      invariant el[..start] == old(el[..start]) && el[start + n..] == old(el[start + n..])
      invariant forall a | start <= a < start + k :: el[a] == Edge(i, tmp[a - start + src].key, tmp[a - start + src].weight)
    {
      el[start + k] := Edge(i, tmp[src + k].key, tmp[src + k].weight);
      k := k + 1;
    }
    assert el[start..start + n] == RowEdges(i, tmp[src..src + n]);
    assert el[..start + n] == el[..start] + el[start..start + n];
  }

  lemma RowsEdgesNext(outs: seq<seq<Pair>>, r: nat)
    requires r < |outs|
    ensures RowsEdges(outs[..r + 1]) == RowsEdges(outs[..r]) + RowEdges(r, outs[r])
    ensures |RowsEdges(outs[..r + 1])| == |RowsEdges(outs[..r])| + |outs[r]|
  {
    assert outs[..r + 1][..r] == outs[..r];
  }

  // The copy loop has placed the first i rows, of the rows that ended at `ends`.
  ghost predicate CopyState(outs: seq<seq<Pair>>, off: seq<int>, nv: nat, size: nat, ends: seq<int>, i: nat,
                            el: seq<Edge>, n: nat, rowstart: seq<int>, rowend: seq<int>) {
    && Offsets(off, nv, size) && off[0] == 0 && off[nv] <= |el| && |outs| == nv && i <= nv && nv <= |ends| == |rowend| && nv <= |rowstart|
    && n == |RowsEdges(outs[..i])| <= off[i] && n <= |el| && el[..n] == RowsEdges(outs[..i])
    && RowsAt(outs, rowstart, rowend, i)
    && (forall j: nat | i <= j < nv :: rowend[j] == ends[j])
    && (forall j: nat | j < nv :: |outs[j]| == ends[j] - off[j] && off[j] <= ends[j] <= off[j + 1])
  }

  lemma CopyNext(outs: seq<seq<Pair>>, off: seq<int>, nv: nat, size: nat, ends: seq<int>, i: nat,
                 el: seq<Edge>, n: nat, rowstart: seq<int>, rowend: seq<int>, el': seq<Edge>, n': nat)
    requires CopyState(outs, off, nv, size, ends, i, el, n, rowstart, rowend) && i < nv
    requires n' == n + |outs[i]| && |el'| == |el| && n' <= |el| && el'[..n'] == el[..n] + RowEdges(i, outs[i])
    ensures CopyState(outs, off, nv, size, ends, i + 1, el', n', rowstart[i := n], rowend[i := n'])
  {
    RowsEdgesNext(outs, i);
    assert off[i] <= ends[i] <= off[i + 1];
    hide RowsEdges, Offsets;
  }

  lemma CopyRoom(outs: seq<seq<Pair>>, off: seq<int>, nv: nat, size: nat, ends: seq<int>, i: nat,
                 el: seq<Edge>, n: nat, rowstart: seq<int>, rowend: seq<int>)
    requires CopyState(outs, off, nv, size, ends, i, el, n, rowstart, rowend) && i < nv
    ensures i < |outs| && i < |off| && i < |rowend| == |ends| && i < |rowstart|
    ensures 0 <= off[i] <= rowend[i] == ends[i] <= size && |outs[i]| == rowend[i] - off[i] && n + |outs[i]| <= |el|
  {
    assert OffsetAt(off, i, size) && off[i] <= ends[i] <= off[i + 1];
    assert 0 <= off[0] <= size by { if nv > 0 { assert OffsetAt(off, 0, size); } }
    OffsetsOrder(off, nv, size, i + 1, nv);
  }

  lemma RowsOutAt(off: seq<int>, tmp: seq<Pair>, ends: seq<int>, nv: nat, i: nat)
    requires i < nv && i < |off| && i < |ends| && 0 <= off[i] <= ends[i] <= |tmp|
    ensures RowsOut(off, tmp, ends, nv)[i] == tmp[off[i]..ends[i]]
  {
  }

  /** rough_bucket_copy_back: the rows end up one after another in el. */
  method RoughBucketCopyBack(nv: nat, el: array<Edge>, rowstart: array<int>, rowend: array<int>, off: array<int>, tmp: array<Pair>)
    returns (n: nat)
    requires Offsets(off[..], nv, tmp.Length) && off[0] == 0 && off[nv] <= el.Length
    requires nv <= rowend.Length && nv <= rowstart.Length
    requires forall i: nat | i < nv :: off[i] <= rowend[i] <= off[i + 1]
    requires rowstart != rowend && rowstart != off && rowend != off
    modifies el, rowstart, rowend
    ensures var outs := RowsOut(old(off[..]), old(tmp[..]), old(rowend[..]), nv);
      && n == |RowsEdges(outs)| <= off[nv] && n <= el.Length && el[..n] == RowsEdges(outs) && RowsAt(outs, rowstart[..], rowend[..], nv)
  {
    hide *;
    n := 0;
    ghost var ends, offs, tmp0 := rowend[..], off[..], tmp[..];
    OffsetsSize(offs, nv, tmp.Length);
    ghost var outs := RowsOut(offs, tmp0, ends, nv);
    CopyStarts(nv, el[..], rowstart[..], ends, offs, tmp0);
    var i := 0;
    while i < nv
      invariant 0 <= i <= nv && off[..] == offs && tmp[..] == tmp0
      invariant CopyState(outs, offs, nv, tmp.Length, ends, i, el[..], n, rowstart[..], rowend[..])
    {
      n := CopyOne(nv, el, rowstart, rowend, off, tmp, i, n, outs, ends);
      i := i + 1;
    }
    CopyDone(outs, offs, nv, tmp.Length, ends, el[..], n, rowstart[..], rowend[..]);
  }

  lemma CopyStarts(nv: nat, el: seq<Edge>, rowstart: seq<int>, rowend: seq<int>, off: seq<int>, tmp: seq<Pair>)
    requires Offsets(off, nv, |tmp|) && off[0] == 0 && off[nv] <= |el| && nv <= |rowend| && nv <= |rowstart|
    requires forall i: nat | i < nv :: off[i] <= rowend[i] <= off[i + 1]
    ensures CopyState(RowsOut(off, tmp, rowend, nv), off, nv, |tmp|, rowend, 0, el, 0, rowstart, rowend)
  {
    var outs := RowsOut(off, tmp, rowend, nv);
    assert outs[..0] == [];
    forall j: nat | j < nv ensures |outs[j]| == rowend[j] - off[j] { assert OffsetAt(off, j, |tmp|); }
  }

  lemma OffsetsSize(off: seq<int>, nv: nat, size: nat)
    requires Offsets(off, nv, size)
    ensures |off| == nv + 1
  {
  }

  // One turn of the copy loop.
  method CopyOne(nv: nat, el: array<Edge>, rowstart: array<int>, rowend: array<int>, off: array<int>, tmp: array<Pair>,
                 i: nat, n0: nat, ghost outs: seq<seq<Pair>>, ghost ends: seq<int>) returns (n: nat)
    requires i < nv && rowstart != rowend && rowstart != off && rowend != off
    requires outs == RowsOut(off[..], tmp[..], ends, nv)
    requires CopyState(outs, off[..], nv, tmp.Length, ends, i, el[..], n0, rowstart[..], rowend[..])
    modifies el, rowstart, rowend
    ensures CopyState(outs, off[..], nv, tmp.Length, ends, i + 1, el[..], n, rowstart[..], rowend[..])
  {
    hide *;
    ghost var el1, rs1, re1 := el[..], rowstart[..], rowend[..];
    CopyRoom(outs, off[..], nv, tmp.Length, ends, i, el1, n0, rs1, re1);
    var count := rowend[i] - off[i];
    n := n0 + count;
    CopyEdges(el, n0, i, off, tmp, count, nv, outs, ends);
    CopyNext(outs, off[..], nv, tmp.Length, ends, i, el1, n0, rs1, re1, el[..], n);
    rowstart[i] := n0;
    rowend[i] := n;
    assert rowstart[..] == rs1[i := n0];
    assert rowend[..] == re1[i := n];
  }

  method CopyEdges(el: array<Edge>, start: nat, i: nat, off: array<int>, tmp: array<Pair>, count: nat,
                   nv: nat, ghost outs: seq<seq<Pair>>, ghost ends: seq<int>)
    requires i < nv && i < off.Length && i < |ends| && 0 <= off[i] <= ends[i] <= tmp.Length && count == ends[i] - off[i]
    requires start + count <= el.Length && outs == RowsOut(off[..], tmp[..], ends, nv)
    modifies el
    ensures el[..start + count] == old(el[..])[..start] + RowEdges(i, outs[i])
  {
    RowsOutAt(off[..], tmp[..], ends, nv, i);
    assert old(el[..])[..start] == old(el[..start]);
    CopyRow(el, start, i, tmp, off[i], count);
    hide *;
    assert tmp[..][off[i]..ends[i]] == tmp[off[i]..off[i] + count];
  }

  lemma CopyDone(outs: seq<seq<Pair>>, off: seq<int>, nv: nat, size: nat, ends: seq<int>,
                 el: seq<Edge>, n: nat, rowstart: seq<int>, rowend: seq<int>)
    requires CopyState(outs, off, nv, size, ends, nv, el, n, rowstart, rowend)
    ensures |off| == nv + 1 && n == |RowsEdges(outs)| <= off[nv] && n <= |el| && el[..n] == RowsEdges(outs)
    ensures RowsAt(outs, rowstart, rowend, nv)
  {
    assert outs[..nv] == outs;
  }
}
