/**
  The part of pandas the sliding window relies on. The window is a DataFrame whose rows are
  opaque here; what matters is its index. `append(..., ignore_index=True)` and
  `reset_index(drop=True)` both renumber the index 0, 1, ..., n-1, and the trim drops by index
  LABEL (`drop(index=[0, ..., k-1])`). This module proves that on such a frame dropping the labels
  below k is the same as dropping the first k rows by position, so that the rest of the model can
  keep the window as a plain sequence of rows, oldest first.
 */
module Frames {
  import opened Wrappers

  /** One row of a DataFrame together with its index label. */
  datatype Entry<Row> = Entry(index: int, row: Row)

  /** The frame that holds `rows` under the labels base, base + 1, ... */
  function Indexed<Row>(rows: seq<Row>, base: int): (f: seq<Entry<Row>>)
    ensures |f| == |rows|
  {
    if rows == [] then [] else [Entry(base, rows[0])] + Indexed(rows[1..], base + 1)
  }

  /** Row i of the frame sits under the label base + i. */
  lemma {:induction false} IndexedAt<Row>(rows: seq<Row>, base: int, i: nat)
    requires i < |rows|
    ensures Indexed(rows, base)[i] == Entry(base + i, rows[i])
  {
    if i > 0 {
      IndexedAt(rows[1..], base + 1, i - 1);
    }
  }

  /** The rows of a frame, in frame order, without their labels. */
  function Rows<Row>(f: seq<Entry<Row>>): (rows: seq<Row>)
    ensures |rows| == |f|
  {
    if f == [] then [] else [f[0].row] + Rows(f[1..])
  }

  predicate HasLabel<Row>(f: seq<Entry<Row>>, l: int)
  {
    exists i :: 0 <= i < |f| && f[i].index == l
  }

  /** The list `[x for x in range(0, k)]`. */
  function LabelRange(k: nat): (labels: seq<int>)
    ensures |labels| == k
    ensures forall l :: l in labels <==> 0 <= l < k
  {
    if k == 0 then [] else LabelRange(k - 1) + [k - 1]
  }

  /** The entries of `f` whose label is not listed, in frame order. */
  function Without<Row>(f: seq<Entry<Row>>, labels: seq<int>): seq<Entry<Row>>
  {
    if f == [] then []
    else (if f[0].index in labels then [] else [f[0]]) + Without(f[1..], labels)
  }

  /** `frame.drop(index=labels)`: a `KeyError` (None) when some listed label is not in the frame. */
  function Drop<Row>(f: seq<Entry<Row>>, labels: seq<int>): Option<seq<Entry<Row>>>
  {
    if forall l <- labels :: HasLabel(f, l) then Some(Without(f, labels)) else None
  }

  /** `frame.reset_index(drop=True)`: the same rows, relabelled from 0. */
  function ResetIndex<Row>(f: seq<Entry<Row>>): seq<Entry<Row>>
  {
    Indexed(Rows(f), 0)
  }

  /** `frame.append(rows, ignore_index=True)`: the rows of both, relabelled from 0. */
  function AppendIgnoreIndex<Row>(f: seq<Entry<Row>>, batch: seq<Row>): seq<Entry<Row>>
  {
    Indexed(Rows(f) + batch, 0)
  }

  /** Labelling rows and then reading them back loses no row and changes no order. */
  lemma {:induction false} RowsIndexed<Row>(rows: seq<Row>, base: int)
    ensures Rows(Indexed(rows, base)) == rows
  {
    if rows != [] {
      var f := Indexed(rows, base);
      assert f[1..] == Indexed(rows[1..], base + 1);
      RowsIndexed(rows[1..], base + 1);
    }
  }

  /** Appending to a renumbered frame renumbers the concatenation of the rows. */
  lemma AppendRows<Row>(rows: seq<Row>, batch: seq<Row>)
    ensures AppendIgnoreIndex(Indexed(rows, 0), batch) == Indexed(rows + batch, 0)
    ensures Rows(AppendIgnoreIndex(Indexed(rows, 0), batch)) == rows + batch
  {
    RowsIndexed(rows, 0);
    RowsIndexed(rows + batch, 0);
  }

  /** Removing labels that all lie below `base` from a frame labelled base, base + 1, ... removes nothing. */
  lemma {:induction false} WithoutLabelsBelow<Row>(rows: seq<Row>, base: int, labels: seq<int>)
    requires forall l :: l in labels ==> l < base
    ensures Without(Indexed(rows, base), labels) == Indexed(rows, base)
  {
    if rows != [] {
      var f := Indexed(rows, base);
      assert f[0].index == base;
      assert f[1..] == Indexed(rows[1..], base + 1);
      WithoutLabelsBelow(rows[1..], base + 1, labels);
    }
  }

  /**
    Removing the labels 0 .. k-1 from a frame labelled base, base + 1, ... (with base <= k and no
    more than its rows' worth of labels to remove) removes its first k - base rows and leaves the
    others under their labels.
   */
  lemma {:induction false} WithoutLeadingLabels<Row>(rows: seq<Row>, base: nat, k: nat, labels: seq<int>)
    requires base <= k <= base + |rows|
    requires forall l :: l in labels <==> 0 <= l < k
    ensures Without(Indexed(rows, base), labels) == Indexed(rows[k - base..], k)
    decreases k - base
  {
    if base == k {
      WithoutLabelsBelow(rows, base, labels);
    } else {
      var f := Indexed(rows, base);
      assert f[0].index == base && base in labels;
      assert f[1..] == Indexed(rows[1..], base + 1);
      WithoutLeadingLabels(rows[1..], base + 1, k, labels);
      assert rows[1..][k - (base + 1)..] == rows[k - base..];
    }
  }

  /**
    `frame.drop(index=range(0, k))` followed by `frame.reset_index(drop=True)`: a `KeyError` (None)
    when a label below k is missing, otherwise the remaining rows relabelled from 0.
   */
  function DropReset<Row>(f: seq<Entry<Row>>, k: nat): Option<seq<Entry<Row>>>
  {
    match Drop(f, LabelRange(k))
    case None => None
    case Some(g) => Some(ResetIndex(g))
  }

  /** Every label below k (k <= n) is present in a frame labelled 0 .. n-1, so dropping them does not raise. */
  lemma LeadingLabelsPresent<Row>(rows: seq<Row>, k: nat)
    requires k <= |rows|
    ensures Drop(Indexed(rows, 0), LabelRange(k)) == Some(Without(Indexed(rows, 0), LabelRange(k)))
  {
    var frame := Indexed(rows, 0);
    forall l | l in LabelRange(k) ensures HasLabel(frame, l) {
      IndexedAt(rows, 0, l);
    }
  }

  /** Relabelling from 0 keeps the rows and their order, whatever the old labels were. */
  lemma ResetIndexed<Row>(rows: seq<Row>, base: int)
    ensures ResetIndex(Indexed(rows, base)) == Indexed(rows, 0)
  {
    RowsIndexed(rows, base);
  }

  /**
    On a frame labelled 0 .. n-1, which is what the window is after every
    `append(..., ignore_index=True)` and `reset_index`, dropping the labels below k (k <= n) never
    raises, and leaves exactly the rows after the first k, in order, labelled 0 .. n-k-1 again.
   */
  lemma DropResetLeading<Row>(rows: seq<Row>, k: nat)
    requires k <= |rows|
    ensures DropReset(Indexed(rows, 0), k) == Some(Indexed(rows[k..], 0))
    ensures Rows(DropReset(Indexed(rows, 0), k).value) == rows[k..]
  {
    var frame, labels, rest := Indexed(rows, 0), LabelRange(k), rows[k..];
    LeadingLabelsPresent(rows, k);
    WithoutLeadingLabels(rows, 0, k, labels);
    assert rows[k - 0..] == rest;
    var kept := Without(frame, labels);
    assert kept == Indexed(rest, k);
    assert DropReset(frame, k) == Some(ResetIndex(kept));
    ResetIndexed(rest, k);
    RowsIndexed(rest, 0);
  }

  /**
    Python's normalisation of a slice bound `i` for a sequence of length `len`: a negative bound
    counts from the end, and the result is clamped into 0 .. len. Note that `-0` is `0`.
   */
  function SliceBound(len: nat, i: int): (b: nat)
    ensures b <= len
    ensures 0 <= i <= len ==> b == i
    ensures i < 0 && len + i >= 0 ==> b == len + i
    ensures len + i < 0 ==> b == 0
    ensures i > len ==> b == len
  {
    if i < 0 then (if len + i < 0 then 0 else len + i)
    else if i > len then len
    else i
  }

  /**
    The window after one ingestion with target size `w`: the batch is appended at the tail; when
    that leaves fewer than `w` rows nothing else happens, otherwise the oldest rows are dropped
    until exactly `w` remain.
   */
  function Slide<Row>(window: seq<Row>, batch: seq<Row>, w: nat): (r: seq<Row>)
    ensures |window| + |batch| < w ==> r == window + batch
    ensures |window| + |batch| >= w ==> |r| == w
    ensures |r| <= |window| + |batch| && r == (window + batch)[|window| + |batch| - |r|..]
  {
    var grown := window + batch;
    if |grown| < w then grown else grown[|grown| - w..]
  }

  /** After a trim the window never holds more than `w` rows. */
  lemma SlideBounded<Row>(window: seq<Row>, batch: seq<Row>, w: nat)
    ensures |Slide(window, batch, w)| <= w
  {
  }

  /**
    A batch of at least `w` rows pushes out the whole previous window and its own oldest rows:
    what is left is the last `w` rows of the batch.
   */
  lemma SlideBurst<Row>(window: seq<Row>, batch: seq<Row>, w: nat)
    requires |batch| >= w
    ensures Slide(window, batch, w) == batch[|batch| - w..]
  {
    var r := Slide(window, batch, w);
    forall i | 0 <= i < w ensures r[i] == batch[|batch| - w + i] {
      assert r[i] == (window + batch)[|window| + |batch| - w + i];
    }
  }

  /** A batch of at most `w` rows is kept whole, in order, at the tail of the window. */
  lemma SlideKeepsBatch<Row>(window: seq<Row>, batch: seq<Row>, w: nat)
    requires |batch| <= w
    ensures var r := Slide(window, batch, w);
            |batch| <= |r| && r[|r| - |batch|..] == batch
  {
    var r := Slide(window, batch, w);
    forall i | 0 <= i < |batch| ensures r[|r| - |batch| + i] == batch[i] {
      assert r[|r| - |batch| + i] == (window + batch)[|window| + i];
    }
  }

  /** Trimming twice is trimming once: a further ingestion of no rows leaves the window as it is. */
  lemma SlideIdempotent<Row>(window: seq<Row>, batch: seq<Row>, w: nat)
    ensures var r := Slide(window, batch, w);
            Slide(r, [], w) == r
  {
    var r := Slide(window, batch, w);
    SlideBounded(window, batch, w);
    assert r + [] == r;
  }
}
