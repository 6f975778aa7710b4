/** Where the spreading pass puts the words: which of them it moves, where they begin, and where they end. */
module SpreadTimes {
  import opened Words
  import opened SpreadClusters

  /** Word i begins a run of at least three crammed words that holds word m. */
  ghost predicate CrammedRun(w: seq<Node>, i: nat, m: nat) {
    && i < m < |w| && i + 2 < |w|
    && forall k :: i < k < |w| && (k <= m || k <= i + 2) ==> w[k].start - w[i].start < (k - i) as real * 0.10
  }

  ghost predicate Crammed(w: seq<Node>, m: nat) { exists i: nat :: CrammedRun(w, i, m) }

  /** A word that began at `was` and now begins after `before`, by the same distance as `before` is
      before it; the distance is at least 0.10 s. The next word, if there is one, is as far away; the last
      word has as much room to the end of the chunk, unless the distance is the least one. */
  ghost predicate Between(before: real, start: real, next: Option<real>, dur: real) {
    var d := start - before;
    && d >= 0.10
    && (next.Some? ==> next.value == start + d)
    && (next.None? ==> start + d >= dur && (d == 0.10 || start + d == dur))
  }

  function NextStart(r: seq<Node>, m: nat): Option<real>
    requires m < |r|
  {
    if m + 1 < |r| then Some(r[m + 1].start) else None
  }

  /** What became of word m. A word whose end still follows its start keeps its end. A moved word stands midway between
      its neighbours; if it was moved past its end, it now ends one such distance later: where the next word
      begins, or with the chunk. */
  ghost predicate Lands(w: seq<Node>, r: seq<Node>, m: nat, dur: real)
    requires m < |w| == |r|
  {
    && r[m].start >= w[m].start
    && r[m] == w[m].(start := r[m].start, end := r[m].end)
    && (r[m].start <= w[m].end ==> r[m].end == w[m].end)
    && (r[m].start > w[m].start ==>
          && m > 0
          && Between(r[m - 1].start, r[m].start, NextStart(r, m), dur)
          && (r[m].start > w[m].end ==> r[m].end == Min(r[m].start + (r[m].start - r[m - 1].start), dur)))
  }

  lemma TailRoom(start: real, c: nat, dur: real)
    requires c > 0
    ensures var s := Max(dur - start, c as real * MIN_WORD_GAP_S) / c as real;
      s >= 0.10 && Slot(start, c, s) >= dur && (s == 0.10 || Slot(start, c, s) == dur)
  {
    var need := c as real * MIN_WORD_GAP_S;
    var avail := Max(dur - start, need);
    EqualSteps(avail, c as real, MIN_WORD_GAP_S);
    SlotIsProduct(start, c, avail / c as real);
    if dur - start < need { Cancel(c as real, MIN_WORD_GAP_S); }
  }

  lemma SlotOf(w: seq<Node>, i: nat, j: nat, dur: real, m: nat)
    requires i <= m < j <= |w|
    ensures Respaced(w, i, j, dur)[m].start == Slot(w[i].start, m - i, Step(w, i, j, dur))
  {
    hide Step, Slot;
  }

  /** A word of a re-spaced cluster. */
  lemma ClusterLands(w: seq<Node>, i: nat, j: nat, dur: real, m: nat)
    requires i <= m < j <= |w| && j == RunEnd(w, i, i + 1)
    ensures Lands(w, Respaced(w, i, j, dur), m, dur)
  {
    hide RunEnd, Respaced, Slot, Step;
    var r, s := Respaced(w, i, j, dur), Step(w, i, j, dur);
    RespacedAt(w, i, j, dur, m);
    if m > i {
      RespacedAt(w, i, j, dur, m - 1);
      if m + 1 == |w| {
        StepIs(w, i, j, dur);
        TailRoom(w[i].start, j - i, dur);
        SlotOf(w, i, j, dur, m);
        SlotNext(w[i].start, m - i, s);
      }
    }
  }

  lemma SlotNext(base: real, k: nat, step: real)
    ensures Slot(base, k + 1, step) == Slot(base, k, step) + step
  {
  }

  /** The pass from i on keeps the starts before i and at i, so what was found of a word there stands. */
  lemma LandsStays(w: seq<Node>, r: seq<Node>, s: seq<Node>, m: nat, dur: real)
    requires m < |w| == |r| == |s| && Lands(w, r, m, dur)
    requires s[m] == r[m] && (m > 0 ==> s[m - 1].start == r[m - 1].start)
    requires m + 1 < |w| ==> s[m + 1].start == r[m + 1].start
    ensures Lands(w, s, m, dur)
  {
  }

  lemma {:induction false} SpreadFromLands(w: seq<Node>, i: nat, dur: real)
    requires i <= |w|
    ensures forall m :: i <= m < |w| ==> Lands(w, SpreadFrom(w, i, dur), m, dur)
    decreases |w| - i
  {
    hide RunEnd, Respaced, Lands;
    if i < |w| {
      var r, j := SpreadFrom(w, i, dur), RunEnd(w, i, i + 1);
      SpreadFrame(w, i, dur);
      if j - i >= MIN_CLUSTER_SIZE {
        var v := Respaced(w, i, j, dur);
        RespacedFrame(w, i, j, dur);
        SpreadFrame(v, j, dur);
        SpreadFromLands(v, j, dur);
        forall m | i <= m < |w|
          ensures Lands(w, r, m, dur)
        {
          if m < j {
            ClusterLands(w, i, j, dur, m);
            LandsStays(w, v, r, m, dur);
          } else {
            SameInput(v, w, r, m, dur);
          }
        }
      } else {
        SpreadFromLands(w, i + 1, dur);
        SpreadFrame(w, i + 1, dur);
        Unmoved(w, r, i, dur);
      }
    }
  }

  lemma SameInput(v: seq<Node>, w: seq<Node>, r: seq<Node>, m: nat, dur: real)
    requires m < |w| == |v| == |r| && v[m] == w[m] && Lands(v, r, m, dur)
    ensures Lands(w, r, m, dur)
  {
  }

  lemma Unmoved(w: seq<Node>, r: seq<Node>, m: nat, dur: real)
    requires m < |w| == |r| && r[m] == w[m]
    ensures Lands(w, r, m, dur)
  {
  }

  lemma {:induction false} SpreadFromMoves(w: seq<Node>, i: nat, dur: real, m: nat) returns (k: nat)
    requires i <= m < |w| && SpreadFrom(w, i, dur)[m].start > w[m].start
    ensures k >= i && CrammedRun(w, k, m)
    decreases |w| - i
  {
    hide Respaced;
    var j := RunEnd(w, i, i + 1);
    SpreadFrame(w, i, dur);
    if j - i < MIN_CLUSTER_SIZE {
      SpreadFrame(w, i + 1, dur);
      k := SpreadFromMoves(w, i + 1, dur, m);
    } else if m < j {
      k := i;
    } else {
      var v := Respaced(w, i, j, dur);
      RespacedFrame(w, i, j, dur);
      k := SpreadFromMoves(v, j, dur, m);
    }
  }

  /** What one call makes of the words of a chunk, wherever it is: no word is moved outside a crammed run of three or
      more, and each lands as said. */
  lemma SpreadLands(w: seq<Node>, dur: real, m: nat)
    requires m < |w|
    ensures var r := Spread(w, dur);
      Lands(w, r, m, dur) && (r[m].start > w[m].start ==> Crammed(w, m))
  {
    hide Lands, Crammed;
    SpreadFromLands(w, 0, dur);
    if Spread(w, dur)[m].start > w[m].start {
      var k := SpreadFromMoves(w, 0, dur, m);
      IsCrammed(w, k, m);
    }
  }

  lemma IsCrammed(w: seq<Node>, i: nat, m: nat)
    requires CrammedRun(w, i, m)
    ensures Crammed(w, m)
  {
  }

  /** Of words in order: one that is overtaken ends where the next one begins, or with the chunk; one that is not
      moved stays as it was. */
  lemma SpreadEnds(w: seq<Node>, dur: real, m: nat)
    requires Ordered(w) && m < |w|
    ensures var r := Spread(w, dur);
      && (r[m].start == w[m].start ==> r[m] == w[m])
      && (w[m].end >= r[m].start ==> r[m].end == w[m].end)
      && (w[m].end < r[m].start && m + 1 < |w| ==> r[m].end == Min(r[m + 1].start, dur))
      && (w[m].end < r[m].start && m + 1 == |w| ==>
            m > 0 && r[m].end == Min(r[m].start + (r[m].start - r[m - 1].start), dur))
  {
    hide Spread;
    SpreadLands(w, dur, m);
  }

  /** And no crammed run of three or more is left. */
  lemma NoneCrammed(w: seq<Node>, dur: real, m: nat)
    ensures !Crammed(Spread(w, dur), m)
  {
    SpreadIdempotent(w, dur, dur);
    if i: nat :| CrammedRun(Spread(w, dur), i, m) { RunIsNotSettled(Spread(w, dur), i, m); }
  }

  lemma RunIsNotSettled(r: seq<Node>, i: nat, m: nat)
    requires CrammedRun(r, i, m)
    ensures !Settled(r, i)
  {
    var j := RunEnd(r, i, i + 1);
    assert j < i + 3 ==> j == i + 1 || j == i + 2;
  }
}
