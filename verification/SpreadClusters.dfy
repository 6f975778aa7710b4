/** Cluster spreading: groups of three or more words crammed below the minimum
    gap are pulled apart, in place and in one left-to-right pass. */
module SpreadClusters {
  import opened Words

  const MIN_WORD_GAP_S: real := 0.10
  const MIN_CLUSTER_SIZE: nat := 3

  /** First index from j on whose word is far enough from word i (or |w|). */
  ghost function RunEnd(w: seq<Node>, i: nat, j: nat): (r: nat)
    requires i < j <= |w|
    ensures j <= r <= |w|
    ensures r < |w| ==> w[r].start - w[i].start >= (r - i) as real * MIN_WORD_GAP_S
    ensures forall k :: j <= k < r ==> w[k].start - w[i].start < (k - i) as real * MIN_WORD_GAP_S
    decreases |w| - j
  {
    if j < |w| && w[j].start - w[i].start < (j - i) as real * MIN_WORD_GAP_S
    then RunEnd(w, i, j + 1) else j
  }

  /** Distance between neighbours once words i..j-1 are spread. */
  ghost function Step(w: seq<Node>, i: nat, j: nat, dur: real): (s: real)
    requires i < j <= |w|
  {
    var clusterEnd := if j < |w| then w[j].start else dur;
    Max(clusterEnd - w[i].start, (j - i) as real * MIN_WORD_GAP_S) / (j - i) as real
  }

  /** The k-th of the times that start at base and are step apart. */
  ghost function Slot(base: real, k: nat, step: real): real {
    if k == 0 then base else Slot(base, k - 1, step) + step
  }

  lemma {:induction false} SlotIsProduct(base: real, k: nat, step: real)
    ensures Slot(base, k, step) == base + k as real * step
  {
    if k > 0 {
      SlotIsProduct(base, k - 1, step);
      assert k as real == (k - 1) as real + 1.0;
    }
  }

  lemma {:induction false} SlotAtLeast(base: real, k: nat, step: real)
    requires step >= MIN_WORD_GAP_S
    ensures Slot(base, k, step) >= base + k as real * MIN_WORD_GAP_S
  {
    if k > 0 { SlotAtLeast(base, k - 1, step); }
  }

  ghost function Moved(n: Node, start: real, step: real, dur: real): Node {
    n.(start := start, end := if n.end < start then Min(start + step, dur) else n.end)
  }

  /** Words i..j-1 placed `Step` apart, the rest as they were. */
  ghost function Respaced(w: seq<Node>, i: nat, j: nat, dur: real): (r: seq<Node>)
    requires i < j <= |w|
    ensures |r| == |w|
  {
    var step := Step(w, i, j, dur);
    seq(|w|, m requires 0 <= m < |w| =>
      if i <= m < j then Moved(w[m], Slot(w[i].start, m - i, step), step, dur) else w[m])
  }

  ghost function SpreadFrom(w: seq<Node>, i: nat, dur: real): (r: seq<Node>)
    requires i <= |w|
    ensures |r| == |w|
    decreases |w| - i
  {
    if i == |w| then w
    else
      var j := RunEnd(w, i, i + 1);
      if j - i >= MIN_CLUSTER_SIZE then SpreadFrom(Respaced(w, i, j, dur), j, dur)
      else SpreadFrom(w, i + 1, dur)
  }

  ghost function Spread(w: seq<Node>, dur: real): (r: seq<Node>)
    ensures |r| == |w|
  {
    SpreadFrom(w, 0, dur)
  }

  lemma StepIs(w: seq<Node>, i: nat, j: nat, dur: real)
    requires i < j <= |w|
    ensures var clusterEnd := if j < |w| then w[j].start else dur;
      Step(w, i, j, dur) == Max(clusterEnd - w[i].start, (j - i) as real * MIN_WORD_GAP_S) / (j - i) as real
  {
  }

  lemma RespacedIs(w: seq<Node>, i: nat, j: nat, dur: real, m: nat)
    requires i <= m < j <= |w|
    ensures var step := Step(w, i, j, dur);
      Respaced(w, i, j, dur)[m] == Moved(w[m], Slot(w[i].start, m - i, step), step, dur)
  {
    hide Step, Slot, Moved;
  }

  lemma RespacedOutside(w: seq<Node>, i: nat, j: nat, dur: real)
    requires i < j <= |w|
    ensures forall m :: 0 <= m < |w| && !(i <= m < j) ==> Respaced(w, i, j, dur)[m] == w[m]
  {
    hide Step, Slot, Moved;
  }

  /** The inner loop: words i..j-1 take evenly spaced starts. */
  method RespaceInPlace(words: seq<WordNode>, i: nat, j: nat, chunkDur: real)
    requires Distinct(words)
    requires i < j <= |words|
    modifies words
    ensures Views(words) == Respaced(old(Views(words)), i, j, chunkDur)
  {
    hide Views, Respaced, Step, Slot;
    ghost var w := Views(words);
    StepIs(w, i, j, chunkDur);
    var size := j - i;
    var clusterStart := words[i].start;
    var clusterEnd := if j < |words| then words[j].start else chunkDur;
    var avail := Max(clusterEnd - clusterStart, size as real * MIN_WORD_GAP_S);
    var step := avail / size as real;
    ghost var goal := Respaced(w, i, j, chunkDur);
    RespacedOutside(w, i, j, chunkDur);
    for k := 0 to size
      invariant forall m :: 0 <= m < i + k ==> words[m].View() == goal[m]
      invariant forall m :: i + k <= m < |words| ==> words[m].View() == w[m]
    {
      SlotIsProduct(clusterStart, k, step);
      RespacedIs(w, i, j, chunkDur, i + k);
      var n := words[i + k];
      n.start := clusterStart + k as real * step;
      if n.end < n.start {
        n.end := Min(n.start + step, chunkDur);
      }
    }
  }

  method FindRunEnd(words: seq<WordNode>, i: nat) returns (j: nat)
    requires i < |words|
    ensures j == RunEnd(Views(words), i, i + 1)
  {
    hide Views;
    j := i + 1;
    while j < |words| && words[j].start - words[i].start < (j - i) as real * MIN_WORD_GAP_S
      invariant i < j <= |words|
      invariant RunEnd(Views(words), i, i + 1) == RunEnd(Views(words), i, j)
    {
      j := j + 1;
    }
  }

  /** One pass from the left; `words` are changed in place. */
  method SpreadInPlace(words: seq<WordNode>, chunkDur: real)
    requires Distinct(words)
    modifies words
    ensures Views(words) == Spread(old(Views(words)), chunkDur)
  {
    hide Respaced, RunEnd, Views;
    if |words| < MIN_CLUSTER_SIZE {
      ShortListUnchanged(Views(words), 0, chunkDur);
      return;
    }
    var i := 0;
    while i < |words|
      invariant 0 <= i <= |words|
      invariant old(Spread(Views(words), chunkDur)) == SpreadFrom(Views(words), i, chunkDur)
      decreases |words| - i
    {
      var j := FindRunEnd(words, i);
      if j - i >= MIN_CLUSTER_SIZE {
        RespaceInPlace(words, i, j, chunkDur);
        i := j;
      } else {
        i := i + 1;
      }
    }
  }

  lemma {:induction false} ShortListUnchanged(w: seq<Node>, i: nat, dur: real)
    requires i <= |w| < MIN_CLUSTER_SIZE
    ensures SpreadFrom(w, i, dur) == w
    decreases |w| - i
  {
    if i < |w| { ShortListUnchanged(w, i + 1, dur); }
  }

  // ----- what one cluster's re-spacing does

  lemma ScaledLess(x: real, y: real, c: real)
    requires c > 0.0 && x < y
    ensures c * x < c * y
  {
  }

  lemma Quotient(avail: real, c: real)
    requires c > 0.0
    ensures c * (avail / c) == avail
  {
  }

  /** c equal steps in avail: they fill it, and are no shorter than the gap if c gaps fit. */
  lemma EqualSteps(avail: real, c: real, gap: real)
    requires c > 0.0 && avail >= c * gap
    ensures avail / c >= gap && c * (avail / c) == avail
  {
    var s := avail / c;
    Quotient(avail, c);
    if s < gap { ScaledLess(s, gap, c); }
  }

  lemma ClusterStep(w: seq<Node>, i: nat, j: nat, dur: real)
    requires i < j <= |w|
    requires j == RunEnd(w, i, i + 1)
    ensures Step(w, i, j, dur) >= MIN_WORD_GAP_S
    ensures j < |w| ==> Slot(w[i].start, j - i, Step(w, i, j, dur)) == w[j].start
  {
    hide RunEnd, Slot;
    var c := (j - i) as real;
    var clusterEnd := if j < |w| then w[j].start else dur;
    var avail := Max(clusterEnd - w[i].start, c * MIN_WORD_GAP_S);
    EqualSteps(avail, c, MIN_WORD_GAP_S);
    SlotIsProduct(w[i].start, j - i, Step(w, i, j, dur));
  }

  /** Inside a re-spaced cluster neighbours are exactly one step apart. */
  lemma RespacedAt(w: seq<Node>, i: nat, j: nat, dur: real, m: nat)
    requires i <= m < j <= |w|
    requires j == RunEnd(w, i, i + 1)
    ensures var r, s := Respaced(w, i, j, dur), Step(w, i, j, dur);
      && s >= MIN_WORD_GAP_S
      && r[m] == Moved(w[m], r[m].start, s, dur)
      && r[m].start >= w[m].start
      && r[i].start == w[i].start
      && (m + 1 < |w| ==> r[m + 1].start == r[m].start + s)
  {
    ClusterStep(w, i, j, dur);
    SlotAtLeast(w[i].start, m - i, Step(w, i, j, dur));
  }

  // ----- the whole pass: frame, monotonicity, texts

  lemma RespacedFrame(w: seq<Node>, i: nat, j: nat, dur: real)
    requires i < j <= |w| && j == RunEnd(w, i, i + 1)
    ensures var r := Respaced(w, i, j, dur);
      && r[i].start == w[i].start
      && (forall m :: 0 <= m < |w| && !(i <= m < j) ==> r[m] == w[m])
      && (forall m :: 0 <= m < |w| ==> w[m].start <= r[m].start)
      && (forall m :: 0 <= m < |w| ==> r[m] == w[m].(start := r[m].start, end := r[m].end))
  {
    hide RunEnd, Step, Slot;
    var r := Respaced(w, i, j, dur);
    RespacedAt(w, i, j, dur, i);
    forall m | 0 <= m < |w|
      ensures w[m].start <= r[m].start && r[m] == w[m].(start := r[m].start, end := r[m].end)
    {
      if i <= m < j { RespacedAt(w, i, j, dur, m); }
    }
  }

  lemma {:induction false} SpreadFrame(w: seq<Node>, i: nat, dur: real)
    requires i <= |w|
    ensures var r := SpreadFrom(w, i, dur);
      && (forall k :: 0 <= k < i ==> r[k] == w[k])
      && (forall k :: 0 <= k < |w| ==> w[k].start <= r[k].start)
      && (forall k :: 0 <= k < |w| ==> r[k] == w[k].(start := r[k].start, end := r[k].end))
      && (i < |w| ==> r[i].start == w[i].start)
    decreases |w| - i
  {
    hide RunEnd, Respaced;
    if i < |w| {
      var j := RunEnd(w, i, i + 1);
      if j - i >= MIN_CLUSTER_SIZE {
        RespacedFrame(w, i, j, dur);
        SpreadFrame(Respaced(w, i, j, dur), j, dur);
      } else {
        SpreadFrame(w, i + 1, dur);
      }
    }
  }

  // ----- fixpoint: one pass leaves no cluster behind

  /** Position p does not begin a crammed run of three or more words. */
  ghost predicate Settled(w: seq<Node>, p: nat)
    requires p < |w|
  {
    RunEnd(w, p, p + 1) - p < MIN_CLUSTER_SIZE
  }

  lemma SettledBy(w: seq<Node>, p: nat, q: nat)
    requires p < q < p + MIN_CLUSTER_SIZE && q <= |w|
    requires q < |w| ==> w[q].start - w[p].start >= (q - p) as real * MIN_WORD_GAP_S
    ensures Settled(w, p)
  {
    var r := RunEnd(w, p, p + 1);
    if r > q { assert false; }
  }

  /** No word of a re-spaced cluster begins a crammed run, if the rest only moves later. */
  lemma ClusterSettles(w: seq<Node>, i: nat, j: nat, dur: real, r: seq<Node>, p: nat)
    requires i <= p < j <= |w| == |r|
    requires j == RunEnd(w, i, i + 1)
    requires var w' := Respaced(w, i, j, dur);
      r[p].start == w'[p].start && (p + 1 < |w| ==> r[p + 1].start >= w'[p + 1].start)
    ensures Settled(r, p)
  {
    RespacedAt(w, i, j, dur, p);
    SettledBy(r, p, p + 1);
  }

  /** After the pass no position from i on begins a crammed run. */
  lemma {:induction false} SpreadSettles(w: seq<Node>, i: nat, dur: real)
    requires i <= |w|
    ensures forall p :: i <= p < |w| ==> Settled(SpreadFrom(w, i, dur), p)
    decreases |w| - i
  {
    if i < |w| {
      var r := SpreadFrom(w, i, dur);
      var j := RunEnd(w, i, i + 1);
      if j - i >= MIN_CLUSTER_SIZE {
        var w' := Respaced(w, i, j, dur);
        SpreadSettles(w', j, dur);
        SpreadFrame(w', j, dur);
        forall p | i <= p < j
          ensures Settled(r, p)
        {
          ClusterSettles(w, i, j, dur, r, p);
        }
      } else {
        SpreadSettles(w, i + 1, dur);
        SpreadFrame(w, i + 1, dur);
        SettledBy(r, i, j);
      }
    }
  }

  lemma {:induction false} SettledUnchanged(w: seq<Node>, i: nat, dur: real)
    requires i <= |w|
    requires forall p :: i <= p < |w| ==> Settled(w, p)
    ensures SpreadFrom(w, i, dur) == w
    decreases |w| - i
  {
    if i < |w| {
      assert Settled(w, i);
      SettledUnchanged(w, i + 1, dur);
    }
  }

  /** A second call changes nothing, whatever duration it is given. */
  lemma SpreadIdempotent(w: seq<Node>, dur: real, again: real)
    ensures Spread(Spread(w, dur), again) == Spread(w, dur)
    ensures forall p :: 0 <= p < |w| ==> Settled(Spread(w, dur), p)
  {
    SpreadSettles(w, 0, dur);
    SettledUnchanged(Spread(w, dur), 0, again);
  }

  // ----- order: what the pass keeps, and exactly when it keeps all of it

  /** Words do not overlap, whether or not each one's own start and end are in order. */
  ghost predicate Chained(w: seq<Node>) {
    forall i, j :: 0 <= i && j == i + 1 && j < |w| ==> w[i].end <= w[j].start
  }

  /** The crammed run that reaches the end of the list, if there is one, has its last
      word's slot inside the chunk. Decided on the input alone. */
  ghost predicate TailFits(w: seq<Node>, i: nat, dur: real)
    requires i <= |w|
    decreases |w| - i
  {
    if i == |w| then true
    else
      var j := RunEnd(w, i, i + 1);
      if j - i < MIN_CLUSTER_SIZE then TailFits(w, i + 1, dur)
      else if j < |w| then TailFits(w, j, dur)
      else w[i].start + (|w| - i - 1) as real * MIN_WORD_GAP_S <= dur
  }

  lemma {:induction false} RunEndSuffix(w: seq<Node>, v: seq<Node>, i: nat, j: nat)
    requires i < j <= |w| == |v|
    requires forall k :: i <= k < |w| ==> w[k].start == v[k].start
    ensures RunEnd(w, i, j) == RunEnd(v, i, j)
    decreases |w| - j
  {
    if j < |w| { RunEndSuffix(w, v, i, j + 1); }
  }

  lemma {:induction false} TailFitsSuffix(w: seq<Node>, v: seq<Node>, i: nat, dur: real)
    requires i <= |w| == |v|
    requires forall k :: i <= k < |w| ==> w[k].start == v[k].start
    ensures TailFits(w, i, dur) == TailFits(v, i, dur)
    decreases |w| - i
  {
    if i < |w| {
      RunEndSuffix(w, v, i, i + 1);
      var j := RunEnd(w, i, i + 1);
      TailFitsSuffix(w, v, if j - i < MIN_CLUSTER_SIZE then i + 1 else j, dur);
    }
  }

  lemma RespacedChained(w: seq<Node>, i: nat, j: nat, lo: real, dur: real)
    requires i < j <= |w| && j == RunEnd(w, i, i + 1)
    requires Ordered(w) && Within(w, lo, dur)
    ensures var r := Respaced(w, i, j, dur);
      Chained(r) && forall m :: 0 <= m < |w| ==> lo <= r[m].start && r[m].end <= dur
  {
    var r := Respaced(w, i, j, dur);
    forall m | 0 <= m < |w|
      ensures lo <= r[m].start && r[m].end <= dur && (m + 1 < |w| ==> r[m].end <= r[m + 1].start)
    {
      if i <= m < j {
        RespacedAt(w, i, j, dur, m);
        if m + 1 < j { RespacedAt(w, i, j, dur, m + 1); }
      } else if m + 1 == i {
        RespacedAt(w, i, j, dur, i);
      }
    }
  }

  /** With the end of the cluster at limit, slots inside the limit keep start <= end. */
  lemma RespacedOrdered(w: seq<Node>, i: nat, j: nat, lo: real, dur: real)
    requires i < j <= |w| && j == RunEnd(w, i, i + 1)
    requires Ordered(w) && Within(w, lo, dur)
    requires Respaced(w, i, j, dur)[j - 1].start <= dur
    ensures Ordered(Respaced(w, i, j, dur))
  {
    var r := Respaced(w, i, j, dur);
    RespacedChained(w, i, j, lo, dur);
    SlotsAscend(w, i, j, dur, i);
    forall m | i <= m < j
      ensures r[m].start <= r[m].end
    {
      SlotsAscend(w, i, j, dur, m);
      RespacedAt(w, i, j, dur, m);
    }
  }

  lemma {:induction false} SlotsAscend(w: seq<Node>, i: nat, j: nat, dur: real, m: nat)
    requires i <= m < j <= |w| && j == RunEnd(w, i, i + 1)
    ensures var r := Respaced(w, i, j, dur); r[m].start <= r[j - 1].start
    decreases j - m
  {
    RespacedAt(w, i, j, dur, m);
    if m + 1 < j { SlotsAscend(w, i, j, dur, m + 1); }
  }

  lemma Cancel(c: real, g: real)
    requires c > 0.0
    ensures (c * g) / c == g
  {
  }

  lemma TailSlot(base: real, c: nat, dur: real)
    requires c > 0
    ensures var s := Max(dur - base, c as real * MIN_WORD_GAP_S) / c as real;
      Slot(base, c - 1, s) <= dur <==> base + (c - 1) as real * MIN_WORD_GAP_S <= dur
  {
    var need := c as real * MIN_WORD_GAP_S;
    if dur - base >= need {
      var s := (dur - base) / c as real;
      EqualSteps(dur - base, c as real, MIN_WORD_GAP_S);
      SlotIsProduct(base, c, s);
      SlotAtLeast(base, c - 1, s);
    } else {
      Cancel(c as real, MIN_WORD_GAP_S);
      SlotIsProduct(base, c - 1, MIN_WORD_GAP_S);
    }
  }

  /** The last slot of a cluster: before the next word, or as the room in the chunk allows. */
  lemma LastSlot(w: seq<Node>, i: nat, j: nat, dur: real)
    requires i < j <= |w| && j == RunEnd(w, i, i + 1)
    ensures var last := Respaced(w, i, j, dur)[j - 1].start;
      && (j < |w| ==> last <= w[j].start)
      && (j == |w| ==> (last <= dur <==> w[i].start + (j - i - 1) as real * MIN_WORD_GAP_S <= dur))
  {
    if j < |w| { RespacedAt(w, i, j, dur, j - 1); } else { TailSlot(w[i].start, j - i, dur); }
  }

  /** Order after one cluster: kept if another word follows, else as the room allows. */
  lemma ClusterOrder(w: seq<Node>, i: nat, j: nat, lo: real, dur: real)
    requires i < j <= |w| && j == RunEnd(w, i, i + 1)
    requires Ordered(w) && Within(w, lo, dur)
    ensures var r := Respaced(w, i, j, dur);
      && Chained(r)
      && (forall m :: 0 <= m < |w| ==> lo <= r[m].start && r[m].end <= dur)
      && (forall k :: j <= k < |w| ==> r[k] == w[k])
      && (j < |w| ==> Ordered(r))
      && (j == |w| ==> (Ordered(r) <==> w[i].start + (j - i - 1) as real * MIN_WORD_GAP_S <= dur))
  {
    RespacedChained(w, i, j, lo, dur);
    LastSlot(w, i, j, dur);
    if Respaced(w, i, j, dur)[j - 1].start <= dur { RespacedOrdered(w, i, j, lo, dur); }
  }

  /** Whatever the room: words never overlap, no word ends after the chunk, none starts
      before lo. All starts precede their ends exactly when the tail run fits. */
  lemma {:induction false} SpreadFromOrder(w: seq<Node>, i: nat, lo: real, dur: real)
    requires i <= |w|
    requires Ordered(w) && Within(w, lo, dur)
    ensures var r := SpreadFrom(w, i, dur);
      && Chained(r)
      && (forall m :: 0 <= m < |w| ==> lo <= r[m].start && r[m].end <= dur)
      && (Ordered(r) <==> TailFits(w, i, dur))
    decreases |w| - i
  {
    if i < |w| {
      var j := RunEnd(w, i, i + 1);
      if j - i >= MIN_CLUSTER_SIZE {
        hide Respaced, Ordered;
        var w' := Respaced(w, i, j, dur);
        ClusterOrder(w, i, j, lo, dur);
        if j < |w| {
          SpreadFromOrder(w', j, lo, dur);
          TailFitsSuffix(w, w', j, dur);
        }
      } else {
        SpreadFromOrder(w, i + 1, lo, dur);
      }
    }
  }

  lemma SpreadOrder(w: seq<Node>, lo: real, dur: real)
    requires Ordered(w) && Within(w, lo, dur)
    ensures var r := Spread(w, dur);
      && Chained(r)
      && Within(r, lo, dur)
      && (Ordered(r) <==> TailFits(w, 0, dur))
  {
    SpreadFromOrder(w, 0, lo, dur);
  }

  /** Starts only move later and nothing but times changes. */
  lemma SpreadKeepsWords(w: seq<Node>, dur: real)
    ensures var r := Spread(w, dur);
      && Texts(r) == Texts(w)
      && forall k :: 0 <= k < |w| ==>
           w[k].start <= r[k].start && r[k] == w[k].(start := r[k].start, end := r[k].end)
  {
    SpreadFrame(w, 0, dur);
  }

  /** Three words at the very end of a 0.1 s chunk: there is no room, and the last word
      comes out starting after it ends. */
  lemma NoRoomWitness()
    ensures var n := Node("w", 0.05, 0.05, 0.9, None, "", "", None);
      && Ordered([n, n, n]) && Within([n, n, n], 0.0, 0.1)
      && Spread([n, n, n], 0.1)[2].start > Spread([n, n, n], 0.1)[2].end
  {
    var n := Node("w", 0.05, 0.05, 0.9, None, "", "", None);
    var w := [n, n, n];
    assert RunEnd(w, 0, 3) == 3;
    assert RunEnd(w, 0, 2) == 3;
    assert RunEnd(w, 0, 1) == 3;
    EqualSteps(0.3, 3.0, 0.1);
    var s := Step(w, 0, 3, 0.1);
    assert s == 0.1;
    assert Slot(0.05, 2, s) == Slot(0.05, 1, s) + s == 0.25;
  }
}
