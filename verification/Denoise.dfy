/** Denoising in overlapping windows: recursive halving when memory runs out, a CPU
    fallback that restores the device state, and crossfaded stitching. The enhancer is
    a black box that may run out of memory at any call. */
module Denoise {
  import opened Words

  datatype Device = Cpu | Cuda
  /** The library's get_device hook: as found, or replaced by one that answers CPU. */
  datatype Hook = AsFound | ForcedCpu

  datatype Outcome = Enhanced(samples: seq<real>) | OutOfMemory | Failed(reason: string)

  /** What the n-th call answers, given hook, the model's device, and the slice. */
  type Enhancer = (nat, Hook, Device, seq<real>) -> Outcome

  datatype Leaf = Leaf(input: seq<real>, output: seq<real>)
  datatype Run = Run(result: Outcome, calls: nat, leaves: seq<Leaf>)

  // ----- one slice

  /** The recursion on one slice: its result, the number of calls made so far, and
      the slices that were enhanced, in order. */
  ghost function Adaptive(e: Enhancer, hook: Hook, home: Device, call: nat, slice: seq<real>, min: nat): Run
    requires min >= 1
    decreases |slice|
  {
    match e(call, hook, home, slice)
    case Enhanced(out) => Run(Enhanced(out), call + 1, [Leaf(slice, out)])
    case Failed(reason) => Run(Failed(reason), call + 1, [])
    case OutOfMemory =>
      var mid := |slice| / 2;
      if mid >= min then
        var l := Adaptive(e, hook, home, call + 1, slice[..mid], min);
        if !l.result.Enhanced? then l
        else
          var r := Adaptive(e, hook, home, l.calls, slice[mid..], min);
          if !r.result.Enhanced? then Run(r.result, r.calls, l.leaves + r.leaves)
          else Run(Enhanced(l.result.samples + r.result.samples), r.calls, l.leaves + r.leaves)
      else
        var o := e(call + 1, ForcedCpu, Cpu, slice);
        Run(o, call + 2, if o.Enhanced? then [Leaf(slice, o.samples)] else [])
  }

  function Inputs(leaves: seq<Leaf>): seq<real> {
    if leaves == [] then [] else leaves[0].input + Inputs(leaves[1..])
  }

  function Outputs(leaves: seq<Leaf>): seq<real> {
    if leaves == [] then [] else leaves[0].output + Outputs(leaves[1..])
  }

  lemma Assoc(a: seq<real>, b: seq<real>, c: seq<real>)
    ensures a + (b + c) == (a + b) + c
  {
  }

  lemma {:induction false} LeavesConcat(a: seq<Leaf>, b: seq<Leaf>)
    ensures Inputs(a + b) == Inputs(a) + Inputs(b)
    ensures Outputs(a + b) == Outputs(a) + Outputs(b)
  {
    if a == [] {
      assert a + b == b;
    } else {
      LeavesConcat(a[1..], b);
      assert (a + b)[1..] == a[1..] + b;
      Assoc(a[0].input, Inputs(a[1..]), Inputs(b));
      Assoc(a[0].output, Outputs(a[1..]), Outputs(b));
    }
  }

  /** What the enhanced slices have to do with the input, at any point of a run. */
  ghost predicate Partition(r: Run, slice: seq<real>, min: nat) {
    && Inputs(r.leaves) <= slice
    && (r.result.Enhanced? ==> Inputs(r.leaves) == slice && Outputs(r.leaves) == r.result.samples)
    && (forall k :: 0 <= k < |r.leaves| ==> |r.leaves[k].input| >= min || r.leaves[k].input == slice)
  }

  lemma JoinHalves(l: Run, r: Run, slice: seq<real>, mid: nat, min: nat)
    requires min <= mid <= |slice| && min <= |slice| - mid
    requires Partition(l, slice[..mid], min) && Partition(r, slice[mid..], min)
    ensures !l.result.Enhanced? ==> Partition(l, slice, min)
    ensures l.result.Enhanced? && !r.result.Enhanced? ==>
      Partition(Run(r.result, r.calls, l.leaves + r.leaves), slice, min)
    ensures l.result.Enhanced? && r.result.Enhanced? ==>
      Partition(Run(Enhanced(l.result.samples + r.result.samples), r.calls, l.leaves + r.leaves), slice, min)
  {
    hide Inputs, Outputs;
    LeavesConcat(l.leaves, r.leaves);
    assert slice == slice[..mid] + slice[mid..];
  }

  lemma OneLeaf(slice: seq<real>, out: seq<real>)
    ensures Inputs([Leaf(slice, out)]) == slice && Outputs([Leaf(slice, out)]) == out
  {
  }

  /** The enhanced slices follow each other from the start of the input; if the whole succeeds
      they partition it and the output is their outputs in order. No slice that came
      from halving is shorter than the minimum. */
  lemma {:induction false} AdaptivePartition(e: Enhancer, hook: Hook, home: Device, call: nat, slice: seq<real>,
      min: nat)
    requires min >= 1
    ensures Partition(Adaptive(e, hook, home, call, slice, min), slice, min)
    decreases |slice|
  {
    var mid := |slice| / 2;
    var first := e(call, hook, home, slice);
    if first.Enhanced? { OneLeaf(slice, first.samples); }
    else if mid >= min {
      AdaptivePartition(e, hook, home, call + 1, slice[..mid], min);
      var l := Adaptive(e, hook, home, call + 1, slice[..mid], min);
      AdaptivePartition(e, hook, home, l.calls, slice[mid..], min);
      JoinHalves(l, Adaptive(e, hook, home, l.calls, slice[mid..], min), slice, mid, min);
    } else {
      var o := e(call + 1, ForcedCpu, Cpu, slice);
      if o.Enhanced? { OneLeaf(slice, o.samples); }
    }
  }

  ghost predicate KeepsLength(e: Enhancer) {
    forall n: nat, h: Hook, d: Device, s: seq<real> :: SameLength(e(n, h, d, s), s)
  }

  ghost predicate SameLength(o: Outcome, s: seq<real>) {
    o.Enhanced? ==> |o.samples| == |s|
  }

  /** Whenever the enhancer answers, each sample's value lies between lo and hi of the sample. */
  ghost predicate Between(e: Enhancer, lo: real -> real, hi: real -> real) {
    forall n: nat, h: Hook, d: Device, s: seq<real> :: AnswersBetween(e(n, h, d, s), s, lo, hi)
  }

  ghost predicate AnswersBetween(o: Outcome, s: seq<real>, lo: real -> real, hi: real -> real) {
    o.Enhanced? ==> |o.samples| == |s| && forall k :: 0 <= k < |s| ==> lo(s[k]) <= o.samples[k] <= hi(s[k])
  }

  lemma {:induction false} AdaptiveLength(e: Enhancer, hook: Hook, home: Device, call: nat, slice: seq<real>, min: nat)
    requires min >= 1 && KeepsLength(e)
    ensures SameLength(Adaptive(e, hook, home, call, slice, min).result, slice)
    decreases |slice|
  {
    var mid := |slice| / 2;
    assert SameLength(e(call, hook, home, slice), slice);
    if mid >= min {
      AdaptiveLength(e, hook, home, call + 1, slice[..mid], min);
      AdaptiveLength(e, hook, home, Adaptive(e, hook, home, call + 1, slice[..mid], min).calls, slice[mid..], min);
    } else {
      assert SameLength(e(call + 1, ForcedCpu, Cpu, slice), slice);
    }
  }

  /** Whatever runs out of memory and whenever, the bounds hold of the joined result. */
  lemma {:induction false} AdaptiveBetween(e: Enhancer, hook: Hook, home: Device, call: nat, slice: seq<real>, min: nat,
      lo: real -> real, hi: real -> real)
    requires min >= 1 && Between(e, lo, hi)
    ensures AnswersBetween(Adaptive(e, hook, home, call, slice, min).result, slice, lo, hi)
    decreases |slice|
  {
    var mid := |slice| / 2;
    assert AnswersBetween(e(call, hook, home, slice), slice, lo, hi);
    if mid >= min {
      var l := Adaptive(e, hook, home, call + 1, slice[..mid], min);
      var r := Adaptive(e, hook, home, l.calls, slice[mid..], min);
      AdaptiveBetween(e, hook, home, call + 1, slice[..mid], min, lo, hi);
      AdaptiveBetween(e, hook, home, l.calls, slice[mid..], min, lo, hi);
      HalvesBetween(l.result, r.result, slice, mid, lo, hi);
      hide AnswersBetween;
    } else {
      assert AnswersBetween(e(call + 1, ForcedCpu, Cpu, slice), slice, lo, hi);
    }
  }

  lemma HalvesBetween(l: Outcome, r: Outcome, slice: seq<real>, mid: nat, lo: real -> real, hi: real -> real)
    requires mid <= |slice|
    requires AnswersBetween(l, slice[..mid], lo, hi) && AnswersBetween(r, slice[mid..], lo, hi)
    ensures l.Enhanced? && r.Enhanced? ==> AnswersBetween(Enhanced(l.samples + r.samples), slice, lo, hi)
    ensures !l.Enhanced? ==> AnswersBetween(l, slice, lo, hi)
    ensures !r.Enhanced? ==> AnswersBetween(r, slice, lo, hi)
  {
  }

  // ----- stitching

  /** An enhanced window and where it begins. */
  datatype Window = Window(pos: nat, samples: seq<real>)

  function Smaller(a: int, b: int): int { if a < b then a else b }

  /** The k-th of `overlap` values from 0 to 1 in equal steps. */
  function Ramp(k: nat, overlap: nat): (r: real)
    requires k < overlap
    ensures 0.0 <= r <= 1.0
  {
    if overlap == 1 then 0.0 else k as real / (overlap - 1) as real
  }

  /** The output after one more window: crossfade over its head, copy of the rest. */
  ghost function Blend(out: seq<real>, w: Window, overlap: nat): (r: seq<real>)
    requires w.pos + |w.samples| <= |out|
    ensures |r| == |out|
  {
    var fade := if w.pos == 0 || overlap == 0 then 0 else Smaller(overlap, |w.samples|);
    seq(|out|, p requires 0 <= p < |out| =>
      if p < w.pos || p >= w.pos + |w.samples| then out[p]
      else if p - w.pos < fade then Mix(out[p], w.samples[p - w.pos], Ramp(p - w.pos, overlap))
      else w.samples[p - w.pos])
  }

  function Mix(old_: real, next: real, up: real): real {
    old_ * (1.0 - up) + next * up
  }

  /** r is s after the window w went in over it: its leading overlap fades linearly from the old
      samples to the new ones, the rest of the window is copied, and nothing else changes. */
  ghost predicate FadesIn(s: seq<real>, r: seq<real>, w: Window, overlap: nat)
    requires |r| == |s| && w.pos + |w.samples| <= |s|
  {
    && (forall p :: 0 <= p < |s| && !Covers(w, p) ==> r[p] == s[p])
    && (forall p, k :: k >= 0 && p == w.pos + k && k < |w.samples| ==> FadesAt(s[p], r[p], w, overlap, k))
  }

  /** The k-th sample of the window, where old stood before. */
  ghost predicate FadesAt(old_: real, now: real, w: Window, overlap: nat, k: nat)
    requires k < |w.samples|
  {
    if w.pos == 0 || k >= overlap then now == w.samples[k]
    else if overlap == 1 then now == old_
    else
      var n, t := (overlap - 1) as real, k as real;
      now * n == old_ * (n - t) + w.samples[k] * t
  }

  lemma Weighted(a: real, b: real, k: nat, n: nat)
    requires k <= n && n > 0
    ensures (a * (1.0 - k as real / n as real) + b * (k as real / n as real)) * n as real
         == a * (n as real - k as real) + b * k as real
  {
    var u, m := k as real / n as real, n as real;
    assert u * m == k as real;
    assert (a * (1.0 - u) + b * u) * m == a * (m - u * m) + b * (u * m);
  }

  lemma BlendFades(s: seq<real>, w: Window, overlap: nat)
    requires w.pos + |w.samples| <= |s|
    ensures FadesIn(s, Blend(s, w, overlap), w, overlap)
  {
    hide Mix, Ramp, FadesAt;
    var r := Blend(s, w, overlap);
    forall p, k | k >= 0 && p == w.pos + k && k < |w.samples|
      ensures FadesAt(s[p], r[p], w, overlap, k)
    {
      OneFades(s[p], w, overlap, k);
    }
  }

  lemma OneFades(old_: real, w: Window, overlap: nat, k: nat)
    requires k < |w.samples|
    ensures w.pos == 0 || k >= overlap ==> FadesAt(old_, w.samples[k], w, overlap, k)
    ensures k < overlap && w.pos > 0 ==> FadesAt(old_, Mix(old_, w.samples[k], Ramp(k, overlap)), w, overlap, k)
  {
    if k < overlap && overlap > 1 { Weighted(old_, w.samples[k], k, overlap - 1); }
  }

  /** Windows as the loop lays them: a hop apart from 0 on, each as long as the chunk or what is left,
      and every one but the last of them short of the end. */
  ghost predicate Laid(ws: seq<Window>, n: nat, chunk: nat, overlap: nat) {
    && (forall k :: 0 <= k < |ws| ==> Fits(ws[k], n, chunk))
    && (|ws| > 0 ==> ws[0].pos == 0)
    && (forall k, m :: 0 <= k && m == k + 1 && m < |ws| ==> Hops(ws[k], ws[m], n, chunk, overlap))
  }

  predicate Fits(w: Window, n: nat, chunk: nat) { w.pos <= n && |w.samples| == Smaller(chunk, n - w.pos) }

  predicate Hops(v: Window, w: Window, n: nat, chunk: nat, overlap: nat) {
    w.pos == v.pos + (chunk - overlap) && v.pos + chunk < n
  }

  ghost function Stitched(ws: seq<Window>, n: nat, chunk: nat, overlap: nat): (out: seq<real>)
    requires Laid(ws, n, chunk, overlap)
    ensures |out| == n
  {
    if ws == [] then seq(n, _ => 0.0)
    else Blend(Stitched(ws[..|ws| - 1], n, chunk, overlap), ws[|ws| - 1], overlap)
  }

  ghost predicate Covers(w: Window, p: int) {
    w.pos <= p < w.pos + |w.samples|
  }

  /** Every window that covers p has its value there between lo and hi. */
  ghost predicate Bounded(ws: seq<Window>, p: nat, lo: real, hi: real) {
    forall k :: 0 <= k < |ws| && Covers(ws[k], p) ==> lo <= ws[k].samples[p - ws[k].pos] <= hi
  }

  lemma Product(x: real, y: real)
    requires x >= 0.0 && y >= 0.0
    ensures x * y >= 0.0
  {
  }

  lemma MixBetween(a: real, b: real, up: real, lo: real, hi: real)
    requires lo <= a <= hi && lo <= b <= hi && 0.0 <= up <= 1.0
    ensures lo <= Mix(a, b, up) <= hi
  {
    Product(a - lo, 1.0 - up);
    Product(b - lo, up);
    Product(hi - a, 1.0 - up);
    Product(hi - b, up);
    assert Mix(a, b, up) - lo == (a - lo) * (1.0 - up) + (b - lo) * up;
    assert hi - Mix(a, b, up) == (hi - a) * (1.0 - up) + (hi - b) * up;
  }

  /** Each later window is longer than the overlap and begins inside what is already written: its
      crossfade spans exactly `overlap` written samples. */
  lemma LaterWindow(ws: seq<Window>, n: nat, chunk: nat, overlap: nat, k: nat)
    requires overlap < chunk && Laid(ws, n, chunk, overlap)
    requires 0 < k < |ws|
    ensures ws[k].pos > ws[k - 1].pos
    ensures |ws[k].samples| > overlap
    ensures ws[k].pos + overlap == ws[k - 1].pos + |ws[k - 1].samples| < n
    ensures |ws[k].samples| <= chunk
  {
    assert Hops(ws[k - 1], ws[k], n, chunk, overlap) && Fits(ws[k], n, chunk) && Fits(ws[k - 1], n, chunk);
  }

  lemma LaidInit(ws: seq<Window>, n: nat, chunk: nat, overlap: nat)
    requires Laid(ws, n, chunk, overlap) && ws != []
    ensures Laid(ws[..|ws| - 1], n, chunk, overlap)
  {
    hide Fits, Hops;
    var init := ws[..|ws| - 1];
    forall k | 0 <= k < |init|
      ensures Fits(init[k], n, chunk)
    {
      assert init[k] == ws[k];
    }
    forall k, m | 0 <= k && m == k + 1 && m < |init|
      ensures Hops(init[k], init[m], n, chunk, overlap)
    {
      assert init[k] == ws[k] && init[m] == ws[m];
    }
  }

  /** The last window lies in the recording; a lone one begins it. */
  lemma LaidLast(ws: seq<Window>, n: nat, chunk: nat, overlap: nat)
    requires Laid(ws, n, chunk, overlap) && ws != []
    ensures var w := ws[|ws| - 1]; w.pos + |w.samples| <= n && (|ws| == 1 ==> w.pos == 0)
  {
  }

  lemma BoundedInit(ws: seq<Window>, p: nat, lo: real, hi: real)
    requires Bounded(ws, p, lo, hi) && ws != []
    ensures Bounded(ws[..|ws| - 1], p, lo, hi)
    ensures var w := ws[|ws| - 1]; Covers(w, p) ==> lo <= w.samples[p - w.pos] <= hi
  {
    hide Covers;
    var init := ws[..|ws| - 1];
    forall k | 0 <= k < |init| && Covers(init[k], p)
      ensures p >= init[k].pos && p - init[k].pos < |init[k].samples| && lo <= init[k].samples[p - init[k].pos] <= hi
    {
      assert init[k] == ws[k];
      CoversMeans(init[k], p);
    }
  }

  lemma CoversMeans(w: Window, p: nat)
    ensures Covers(w, p) <==> p >= w.pos && p - w.pos < |w.samples|
  {
  }

  lemma CoveredBefore(ws: seq<Window>, n: nat, chunk: nat, overlap: nat, p: nat, lo: real, hi: real)
    requires overlap < chunk && Laid(ws, n, chunk, overlap) && |ws| > 1
    requires p < ws[|ws| - 1].pos + overlap
    requires Bounded(ws, p, lo, hi)
    ensures var init := ws[..|ws| - 1];
      && Laid(init, n, chunk, overlap) && Bounded(init, p, lo, hi)
      && p < init[|init| - 1].pos + |init[|init| - 1].samples|
  {
    hide Laid, Bounded;
    LaterWindow(ws, n, chunk, overlap, |ws| - 1);
    LaidInit(ws, n, chunk, overlap);
    BoundedInit(ws, p, lo, hi);
  }

  lemma BlendBetween(out: seq<real>, w: Window, overlap: nat, p: nat, lo: real, hi: real)
    requires w.pos + |w.samples| <= |out| && p < w.pos + |w.samples|
    requires w.pos > 0 ==> overlap <= |w.samples|
    requires Covers(w, p) ==> lo <= w.samples[p - w.pos] <= hi
    requires p < w.pos + overlap && w.pos > 0 ==> lo <= out[p] <= hi
    ensures lo <= Blend(out, w, overlap)[p] <= hi
  {
    if w.pos > 0 && w.pos <= p < w.pos + overlap {
      MixBetween(out[p], w.samples[p - w.pos], Ramp(p - w.pos, overlap), lo, hi);
    }
  }

  /** Every written sample lies between any bounds on the windows that cover it: it
      is a convex combination of their values there. */
  lemma {:induction false} StitchedHull(ws: seq<Window>, n: nat, chunk: nat, overlap: nat, p: nat, lo: real, hi: real)
    requires overlap < chunk && Laid(ws, n, chunk, overlap) && ws != []
    requires p < ws[|ws| - 1].pos + |ws[|ws| - 1].samples|
    requires Bounded(ws, p, lo, hi)
    ensures lo <= Stitched(ws, n, chunk, overlap)[p] <= hi
  {
    hide Blend, Laid, Bounded;
    var init, w := ws[..|ws| - 1], ws[|ws| - 1];
    LaidInit(ws, n, chunk, overlap);
    LaidLast(ws, n, chunk, overlap);
    BoundedInit(ws, p, lo, hi);
    if |ws| > 1 {
      LaterWindow(ws, n, chunk, overlap, |ws| - 1);
      if p < w.pos + overlap {
        CoveredBefore(ws, n, chunk, overlap, p, lo, hi);
        StitchedHull(init, n, chunk, overlap, p, lo, hi);
      }
    }
    BlendBetween(Stitched(init, n, chunk, overlap), w, overlap, p, lo, hi);
  }

  /** Every sample up to the end of the last window lies in some window. */
  lemma {:induction false} SomeWindowCovers(ws: seq<Window>, n: nat, chunk: nat, overlap: nat, p: nat) returns (k: nat)
    requires overlap < chunk && Laid(ws, n, chunk, overlap) && ws != []
    requires p < ws[|ws| - 1].pos + |ws[|ws| - 1].samples|
    ensures k < |ws| && Covers(ws[k], p)
  {
    hide Laid;
    k := |ws| - 1;
    LaidLast(ws, n, chunk, overlap);
    if p < ws[k].pos {
      LaidInit(ws, n, chunk, overlap);
      LaterWindow(ws, n, chunk, overlap, k);
      k := SomeWindowCovers(ws[..k], n, chunk, overlap, p);
    }
  }

  // ----- the loop over the windows

  datatype WindowRun = WindowRun(stopped: Option<Outcome>, calls: nat, windows: seq<Window>)

  /** The loop from position pos on, with the windows ws behind it. */
  ghost function WindowsFrom(e: Enhancer, hook: Hook, home: Device, call: nat, wav: seq<real>, pos: nat,
      ws: seq<Window>, chunk: nat, overlap: nat, min: nat): WindowRun
    requires min >= 1 && overlap < chunk && pos <= |wav|
    decreases |wav| - pos
  {
    var end := Smaller(pos + chunk, |wav|);
    var run := Adaptive(e, hook, home, call, wav[pos..end], min);
    if !run.result.Enhanced? then WindowRun(Some(run.result), run.calls, ws)
    else
      var next := ws + [Window(pos, run.result.samples)];
      if end >= |wav| then WindowRun(None, run.calls, next)
      else WindowsFrom(e, hook, home, run.calls, wav, pos + (chunk - overlap), next, chunk, overlap, min)
  }

  /** The windows so far are laid, and pos is where the next one begins. */
  ghost predicate LaidTo(ws: seq<Window>, n: nat, chunk: nat, overlap: nat, pos: nat) {
    && Laid(ws, n, chunk, overlap)
    && (ws == [] ==> pos == 0)
    && (ws != [] ==> pos == ws[|ws| - 1].pos + (chunk - overlap) && ws[|ws| - 1].pos + chunk < n)
  }

  lemma StitchedNext(ws: seq<Window>, n: nat, chunk: nat, overlap: nat, w: Window)
    requires Laid(ws, n, chunk, overlap) && Laid(ws + [w], n, chunk, overlap)
    ensures w.pos + |w.samples| <= n
    ensures Stitched(ws + [w], n, chunk, overlap) == Blend(Stitched(ws, n, chunk, overlap), w, overlap)
  {
    hide Blend;
    var r := ws + [w];
    assert r[|ws|] == w;
    assert r[..|ws|] == ws;
  }

  lemma WindowsStep(e: Enhancer, hook: Hook, home: Device, call: nat, wav: seq<real>, pos: nat, ws: seq<Window>,
      chunk: nat, overlap: nat, min: nat)
    requires min >= 1 && overlap < chunk && pos <= |wav|
    ensures var end := Smaller(pos + chunk, |wav|);
      var run := Adaptive(e, hook, home, call, wav[pos..end], min);
      WindowsFrom(e, hook, home, call, wav, pos, ws, chunk, overlap, min) ==
        if !run.result.Enhanced? then WindowRun(Some(run.result), run.calls, ws)
        else if end >= |wav| then WindowRun(None, run.calls, ws + [Window(pos, run.result.samples)])
        else
          WindowsFrom(e, hook, home, run.calls, wav, pos + (chunk - overlap), ws + [Window(pos, run.result.samples)],
            chunk, overlap, min)
  {
    hide Adaptive;
  }

  lemma LaidEmpty(n: nat, chunk: nat, overlap: nat)
    ensures Laid([], n, chunk, overlap) && LaidTo([], n, chunk, overlap, 0)
    ensures Stitched([], n, chunk, overlap) == seq(n, _ => 0.0)
  {
  }

  lemma LaidNext(ws: seq<Window>, n: nat, chunk: nat, overlap: nat, w: Window)
    requires overlap < chunk && LaidTo(ws, n, chunk, overlap, w.pos) && w.pos <= n
    requires |w.samples| == Smaller(chunk, n - w.pos)
    ensures Laid(ws + [w], n, chunk, overlap)
    ensures w.pos + chunk < n ==>
      w.pos + (chunk - overlap) < n && LaidTo(ws + [w], n, chunk, overlap, w.pos + (chunk - overlap))
  {
    var r := ws + [w];
    assert Fits(w, n, chunk) && (ws != [] ==> Hops(ws[|ws| - 1], w, n, chunk, overlap));
    hide Fits, Hops;
    forall k | 0 <= k < |r|
      ensures Fits(r[k], n, chunk)
    {
      if k < |ws| { assert r[k] == ws[k]; }
    }
    forall k, m | 0 <= k && m == k + 1 && m < |r|
      ensures Hops(r[k], r[m], n, chunk, overlap)
    {
      assert r[k] == ws[k];
      if m < |ws| { assert r[m] == ws[m]; }
    }
  }

  /** 1 + ceil of what is left after the first window, in hops. */
  function WindowCount(n: nat, chunk: nat, overlap: nat): nat
    requires overlap < chunk
  {
    var hop := chunk - overlap;
    if n <= chunk then 1 else 1 + (n - chunk + hop - 1) / hop
  }

  lemma DivUnique(a: int, d: int, q: int, r: int)
    requires d > 0 && 0 <= r < d && a == q * d + r
    ensures a / d == q
  {
    var q', r' := a / d, a % d;
    assert (q - q') * d == r' - r;
    if q > q' { Multiple(q - q', d); } else if q < q' { Multiple(q' - q, d); }
  }

  lemma Multiple(k: int, d: int)
    requires k >= 1 && d > 0
    ensures k * d >= d
  {
  }

  lemma CountStep(m: nat, chunk: nat, overlap: nat)
    requires overlap < chunk < m
    ensures WindowCount(m, chunk, overlap) == 1 + WindowCount(m - (chunk - overlap), chunk, overlap)
  {
    var hop := chunk - overlap;
    var a := m - chunk + hop - 1;
    if m - hop > chunk {
      var q, r := (a - hop) / hop, (a - hop) % hop;
      assert a == (q + 1) * hop + r;
      DivUnique(a, hop, q + 1, r);
    } else {
      DivUnique(a, hop, 1, a - hop);
    }
  }

  lemma CountLast(m: nat, chunk: nat, overlap: nat)
    requires overlap < chunk && m <= chunk
    ensures WindowCount(m, chunk, overlap) == 1
  {
  }

  /** If no window fails, the windows are laid over the whole recording, 1 + ceil((n - chunk) / hop)
      of them, and every one keeps the enhancer's bounds. */
  lemma {:induction false} WindowsFromLaid(e: Enhancer, hook: Hook, home: Device, call: nat, wav: seq<real>, pos: nat,
      ws: seq<Window>, chunk: nat, overlap: nat, min: nat)
    requires min >= 1 && overlap < chunk && pos <= |wav| && KeepsLength(e)
    requires LaidTo(ws, |wav|, chunk, overlap, pos)
    ensures var r := WindowsFrom(e, hook, home, call, wav, pos, ws, chunk, overlap, min);
      r.stopped.None? ==>
        && Laid(r.windows, |wav|, chunk, overlap)
        && r.windows != []
        && r.windows[|r.windows| - 1].pos + |r.windows[|r.windows| - 1].samples| == |wav|
        && |r.windows| == |ws| + WindowCount(|wav| - pos, chunk, overlap)
    decreases |wav| - pos
  {
    hide Adaptive, Laid, LaidTo, WindowCount;
    var end := Smaller(pos + chunk, |wav|);
    var run := Adaptive(e, hook, home, call, wav[pos..end], min);
    AdaptiveLength(e, hook, home, call, wav[pos..end], min);
    if run.result.Enhanced? {
      var w := Window(pos, run.result.samples);
      LaidNext(ws, |wav|, chunk, overlap, w);
      if end >= |wav| {
        CountLast(|wav| - pos, chunk, overlap);
      } else {
        CountStep(|wav| - pos, chunk, overlap);
        WindowsFromLaid(e, hook, home, run.calls, wav, pos + (chunk - overlap), ws + [w], chunk, overlap, min);
      }
    }
  }

  ghost predicate WindowBetween(w: Window, wav: seq<real>, lo: real -> real, hi: real -> real) {
    && w.pos + |w.samples| <= |wav|
    && forall p :: w.pos <= p < w.pos + |w.samples| ==> lo(wav[p]) <= w.samples[p - w.pos] <= hi(wav[p])
  }

  ghost predicate AllBetween(ws: seq<Window>, wav: seq<real>, lo: real -> real, hi: real -> real) {
    forall k :: 0 <= k < |ws| ==> WindowBetween(ws[k], wav, lo, hi)
  }

  lemma SliceBetween(o: Outcome, wav: seq<real>, pos: nat, end: nat, lo: real -> real, hi: real -> real)
    requires o.Enhanced? && pos <= end <= |wav| && AnswersBetween(o, wav[pos..end], lo, hi)
    ensures WindowBetween(Window(pos, o.samples), wav, lo, hi)
  {
    forall p | pos <= p < end
      ensures lo(wav[p]) <= o.samples[p - pos] <= hi(wav[p])
    {
      assert wav[pos..end][p - pos] == wav[p];
    }
  }

  lemma {:induction false} WindowsFromBetween(e: Enhancer, hook: Hook, home: Device, call: nat, wav: seq<real>,
      pos: nat, ws: seq<Window>, chunk: nat, overlap: nat, min: nat, lo: real -> real, hi: real -> real)
    requires min >= 1 && overlap < chunk && pos <= |wav| && Between(e, lo, hi)
    requires AllBetween(ws, wav, lo, hi)
    ensures AllBetween(WindowsFrom(e, hook, home, call, wav, pos, ws, chunk, overlap, min).windows, wav, lo, hi)
    decreases |wav| - pos
  {
    hide Between, AnswersBetween, WindowBetween, Adaptive;
    var end := Smaller(pos + chunk, |wav|);
    var run := Adaptive(e, hook, home, call, wav[pos..end], min);
    AdaptiveBetween(e, hook, home, call, wav[pos..end], min, lo, hi);
    if run.result.Enhanced? {
      var w := Window(pos, run.result.samples);
      SliceBetween(run.result, wav, pos, end, lo, hi);
      assert AllBetween(ws + [w], wav, lo, hi);
      if end < |wav| {
        WindowsFromBetween(e, hook, home, run.calls, wav, pos + (chunk - overlap), ws + [w], chunk, overlap, min,
          lo, hi);
      }
    }
  }

  /** The whole denoising of a recording: result and calls made. */
  ghost function Windowed(e: Enhancer, hook: Hook, home: Device, call: nat, wav: seq<real>, chunk: nat, overlap: nat,
      min: nat): (Outcome, nat)
    requires min >= 1 && (overlap < chunk || |wav| <= chunk) && KeepsLength(e)
  {
    if |wav| <= chunk then
      var run := Adaptive(e, hook, home, call, wav, min);
      (run.result, run.calls)
    else
      var r := WindowsFrom(e, hook, home, call, wav, 0, [], chunk, overlap, min);
      WindowsFromLaid(e, hook, home, call, wav, 0, [], chunk, overlap, min);
      (if r.stopped.Some? then r.stopped.value else Enhanced(Stitched(r.windows, |wav|, chunk, overlap)), r.calls)
  }

  lemma {:induction false} StoppedIsNoAnswer(e: Enhancer, hook: Hook, home: Device, call: nat, wav: seq<real>, pos: nat,
      ws: seq<Window>, chunk: nat, overlap: nat, min: nat)
    requires min >= 1 && overlap < chunk && pos <= |wav|
    ensures var r := WindowsFrom(e, hook, home, call, wav, pos, ws, chunk, overlap, min);
      r.stopped.Some? ==> !r.stopped.value.Enhanced?
    decreases |wav| - pos
  {
    hide Adaptive;
    var end := Smaller(pos + chunk, |wav|);
    var run := Adaptive(e, hook, home, call, wav[pos..end], min);
    if run.result.Enhanced? && end < |wav| {
      var w := Window(pos, run.result.samples);
      StoppedIsNoAnswer(e, hook, home, run.calls, wav, pos + (chunk - overlap), ws + [w], chunk, overlap, min);
    }
  }

  /** Denoising keeps the length of the recording, and any bounds of the enhancer sample by sample,
      however the recording is cut into windows and halves and wherever the windows overlap. */
  lemma WindowedBetween(e: Enhancer, hook: Hook, home: Device, call: nat, wav: seq<real>, chunk: nat, overlap: nat,
      min: nat, lo: real -> real, hi: real -> real)
    requires min >= 1 && (overlap < chunk || |wav| <= chunk) && KeepsLength(e) && Between(e, lo, hi)
    ensures AnswersBetween(Windowed(e, hook, home, call, wav, chunk, overlap, min).0, wav, lo, hi)
  {
    if |wav| <= chunk {
      AdaptiveBetween(e, hook, home, call, wav, min, lo, hi);
    } else {
      var r := WindowsFrom(e, hook, home, call, wav, 0, [], chunk, overlap, min);
      StoppedIsNoAnswer(e, hook, home, call, wav, 0, [], chunk, overlap, min);
      WindowsFromLaid(e, hook, home, call, wav, 0, [], chunk, overlap, min);
      WindowsFromBetween(e, hook, home, call, wav, 0, [], chunk, overlap, min, lo, hi);
      if r.stopped.None? {
        AllBetweenStitched(r.windows, wav, chunk, overlap, lo, hi);
      }
    }
  }

  lemma AllBetweenStitched(ws: seq<Window>, wav: seq<real>, chunk: nat, overlap: nat, lo: real -> real,
      hi: real -> real)
    requires overlap < chunk && Laid(ws, |wav|, chunk, overlap) && ws != []
    requires ws[|ws| - 1].pos + |ws[|ws| - 1].samples| == |wav|
    requires AllBetween(ws, wav, lo, hi)
    ensures AnswersBetween(Enhanced(Stitched(ws, |wav|, chunk, overlap)), wav, lo, hi)
  {
    hide Stitched;
    forall p | 0 <= p < |wav|
      ensures lo(wav[p]) <= Stitched(ws, |wav|, chunk, overlap)[p] <= hi(wav[p])
    {
      forall k | 0 <= k < |ws| && Covers(ws[k], p)
        ensures lo(wav[p]) <= ws[k].samples[p - ws[k].pos] <= hi(wav[p])
      {
        assert WindowBetween(ws[k], wav, lo, hi);
      }
      StitchedHull(ws, |wav|, chunk, overlap, p, lo(wav[p]), hi(wav[p]));
    }
  }

  /** A pointwise enhancer's denoised recording is exactly the pointwise image: the crossfades
      leave no trace. In particular doing nothing stays doing nothing. */
  lemma WindowedPointwise(e: Enhancer, hook: Hook, home: Device, call: nat, wav: seq<real>, chunk: nat, overlap: nat,
      min: nat, f: real -> real)
    requires min >= 1 && (overlap < chunk || |wav| <= chunk) && KeepsLength(e) && Between(e, f, f)
    ensures var r := Windowed(e, hook, home, call, wav, chunk, overlap, min).0;
      r.Enhanced? ==> r.samples == seq(|wav|, k requires 0 <= k < |wav| => f(wav[k]))
  {
    WindowedBetween(e, hook, home, call, wav, chunk, overlap, min, f, f);
  }

  // ----- when the loop has an end

  /** Where pos stands in the t-th turn of the loop, if it gets that far, and where that turn's window ends. */
  function PositionAt(t: nat, chunk: nat, overlap: nat): int {
    if t == 0 then 0 else PositionAt(t - 1, chunk, overlap) + (chunk - overlap)
  }

  function EndAt(t: nat, n: nat, chunk: nat, overlap: nat): int {
    Smaller(PositionAt(t, chunk, overlap) + chunk, n)
  }

  /** The windows of the model stand where the loop's turns do. */
  lemma {:induction false} WindowPositions(ws: seq<Window>, n: nat, chunk: nat, overlap: nat, k: nat)
    requires overlap < chunk && Laid(ws, n, chunk, overlap) && k < |ws|
    ensures ws[k].pos == PositionAt(k, chunk, overlap)
    ensures ws[k].pos + |ws[k].samples| == EndAt(k, n, chunk, overlap)
  {
    if k > 0 {
      WindowPositions(ws, n, chunk, overlap, k - 1);
      assert Hops(ws[k - 1], ws[k], n, chunk, overlap);
    }
  }

  lemma {:induction false} Advances(t: nat, chunk: nat, overlap: nat)
    ensures overlap < chunk ==> PositionAt(t, chunk, overlap) >= t
    ensures overlap == chunk ==> PositionAt(t, chunk, overlap) == 0
    ensures overlap > chunk ==> PositionAt(t, chunk, overlap) + t <= 0
  {
    if t > 0 { Advances(t - 1, chunk, overlap); }
  }

  /** A turn in which the loop breaks off, its window having reached the end, exists exactly when the overlap is
      smaller than the window or one window is enough. With overlap == window every turn is the first again; with a
      greater one pos falls below 0 and keeps falling. */
  lemma ReachesEnd(n: nat, chunk: nat, overlap: nat)
    ensures (exists t: nat :: EndAt(t, n, chunk, overlap) >= n) <==> n <= chunk || overlap < chunk
    ensures overlap >= chunk ==> forall t: nat :: PositionAt(t, chunk, overlap) <= 0
    ensures overlap > chunk ==> forall t: nat :: t > 0 ==> PositionAt(t, chunk, overlap) < 0
  {
    forall t: nat
      ensures overlap >= chunk ==> PositionAt(t, chunk, overlap) <= 0
      ensures overlap > chunk && t > 0 ==> PositionAt(t, chunk, overlap) < 0
    {
      Advances(t, chunk, overlap);
    }
    if n <= chunk {
      assert EndAt(0, n, chunk, overlap) >= n;
    } else if overlap < chunk {
      Advances(n, chunk, overlap);
      assert EndAt(n, n, chunk, overlap) >= n;
    }
  }

  // ----- the denoiser

  class Denoiser {
    const enhance: Enhancer
    const home: Device
    var getDevice: Hook
    var modelOn: Device
    var calls: nat

    constructor (enhance: Enhancer, home: Device, hook: Hook)
      ensures this.enhance == enhance && this.home == home
      ensures getDevice == hook && modelOn == home && calls == 0
    {
      this.enhance, this.home := enhance, home;
      getDevice, modelOn, calls := hook, home, 0;
    }

    /** One slice; on every exit, failures included, hook and model are back where they were. */
    method EnhanceOne(slice: seq<real>, min: nat) returns (r: Outcome)
      requires min >= 1 && modelOn == home
      modifies this
      ensures getDevice == old(getDevice) && modelOn == old(modelOn)
      ensures var run := Adaptive(enhance, old(getDevice), home, old(calls), slice, min);
        r == run.result && calls == run.calls
      decreases |slice|
    {
      r := enhance(calls, getDevice, modelOn, slice);
      calls := calls + 1;
      if !r.OutOfMemory? { return; }
      var n := |slice|;
      if n / 2 >= min {
        var mid := n / 2;
        var left := EnhanceOne(slice[..mid], min);
        if !left.Enhanced? { return left; }
        var right := EnhanceOne(slice[mid..], min);
        if !right.Enhanced? { return right; }
        return Enhanced(left.samples + right.samples);
      }
      var original := getDevice;
      modelOn := Cpu;
      getDevice := ForcedCpu;
      r := enhance(calls, getDevice, modelOn, slice);
      calls := calls + 1;
      getDevice := original;
      if home != Cpu {
        modelOn := home;
      }
    }

    /** Overlapping windows written into one output buffer. */
    method EnhanceWindowed(wav: seq<real>, chunk: nat, overlap: nat, min: nat) returns (r: Outcome)
      requires min >= 1 && modelOn == home && KeepsLength(enhance)
      requires overlap < chunk || |wav| <= chunk
      modifies this
      ensures getDevice == old(getDevice) && modelOn == old(modelOn)
      ensures (r, calls) == Windowed(enhance, old(getDevice), home, old(calls), wav, chunk, overlap, min)
    {
      hide Adaptive, Blend, Laid, LaidTo, KeepsLength, WindowsFrom, Stitched;
      var n := |wav|;
      if n <= chunk {
        r := EnhanceOne(wav, min);
        return;
      }
      LaidEmpty(n, chunk, overlap);
      var hop := chunk - overlap;
      var out := new real[n](_ => 0.0);
      var pos := 0;
      ghost var ws: seq<Window> := [];
      ghost var whole := WindowsFrom(enhance, getDevice, home, calls, wav, 0, [], chunk, overlap, min);
      while pos < n
        invariant pos <= n
        invariant getDevice == old(getDevice) && modelOn == home
        invariant LaidTo(ws, n, chunk, overlap, pos) && Laid(ws, n, chunk, overlap)
        invariant out[..] == Stitched(ws, n, chunk, overlap)
        invariant whole == WindowsFrom(enhance, getDevice, home, calls, wav, pos, ws, chunk, overlap, min)
        invariant pos < n
        decreases n - pos
      {
        var end := Smaller(pos + chunk, n);
        AdaptiveLength(enhance, getDevice, home, calls, wav[pos..end], min);
        WindowsStep(enhance, getDevice, home, calls, wav, pos, ws, chunk, overlap, min);
        r := EnhanceOne(wav[pos..end], min);
        if !r.Enhanced? { return; }
        ghost var w := Window(pos, r.samples);
        LaidNext(ws, n, chunk, overlap, w);
        StitchedNext(ws, n, chunk, overlap, w);
        Paste(out, pos, r.samples, overlap);
        ws := ws + [w];
        if end >= n { break; }
        pos := pos + hop;
      }
      r := Enhanced(out[..]);
    }
  }

  /** One window into the buffer: crossfade of the leading overlap, copy of the rest. */
  method Paste(out: array<real>, pos: nat, enhanced: seq<real>, overlap: nat)
    requires pos + |enhanced| <= out.Length
    modifies out
    ensures out[..] == Blend(old(out[..]), Window(pos, enhanced), overlap)
    ensures FadesIn(old(out[..]), out[..], Window(pos, enhanced), overlap)
  {
    BlendFades(out[..], Window(pos, enhanced), overlap);
    if pos == 0 || overlap == 0 {
      forall k | 0 <= k < |enhanced| { out[pos + k] := enhanced[k]; }
    } else {
      var fade := Smaller(Smaller(overlap, |enhanced|), out.Length - pos);
      forall k | 0 <= k < |enhanced| {
        out[pos + k] := if k < fade then Mix(out[pos + k], enhanced[k], Ramp(k, overlap)) else enhanced[k];
      }
    }
  }
}
