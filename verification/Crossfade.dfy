/** What the denoised samples are: which call of the enhancer each slice came from, and how
    neighbouring windows fade into each other. */
module Crossfade {
  import opened Denoise

  // ----- one window

  /** The faded overlap begins with the old sample and ends with the new one. */
  lemma FadeEnds(s: seq<real>, r: seq<real>, w: Window, overlap: nat)
    requires |r| == |s| && w.pos + |w.samples| <= |s| && FadesIn(s, r, w, overlap)
    requires w.pos > 0 && 1 < overlap <= |w.samples|
    ensures r[w.pos] == s[w.pos] && r[w.pos + overlap - 1] == w.samples[overlap - 1]
  {
    var last, n := w.pos + overlap - 1, (overlap - 1) as real;
    assert FadesAt(s[w.pos], r[w.pos], w, overlap, 0);
    MixEnds(r[w.pos], s[w.pos], w.samples[0], n, 0.0);
    assert FadesAt(s[last], r[last], w, overlap, overlap - 1);
    MixEnds(r[last], s[last], w.samples[overlap - 1], n, n);
  }

  lemma MixEnds(x: real, old_: real, next: real, n: real, t: real)
    requires n > 0.0 && x * n == old_ * (n - t) + next * t
    ensures t == 0.0 ==> x == old_
    ensures t == n ==> x == next
  {
    if t == 0.0 { Cancel(x, old_, n); }
    if t == n { Cancel(x, next, n); }
  }

  lemma Cancel(x: real, y: real, n: real)
    requires n > 0.0 && x * n == y * n
    ensures x == y
  {
    assert (x - y) * n == 0.0;
  }

  // ----- all windows

  lemma {:induction false} LaidPrefix(ws: seq<Window>, n: nat, chunk: nat, overlap: nat, k: nat)
    requires Laid(ws, n, chunk, overlap) && k <= |ws|
    ensures Laid(ws[..k], n, chunk, overlap)
    decreases |ws|
  {
    hide Laid;
    if k == |ws| {
      assert ws[..k] == ws;
    } else {
      LaidInit(ws, n, chunk, overlap);
      LaidPrefix(ws[..|ws| - 1], n, chunk, overlap, k);
      assert ws[..|ws| - 1][..k] == ws[..k];
    }
  }

  /** Each window fades in over what the windows before it left. */
  lemma WindowFades(ws: seq<Window>, n: nat, chunk: nat, overlap: nat, k: nat)
    requires Laid(ws, n, chunk, overlap) && k < |ws|
    ensures Laid(ws[..k], n, chunk, overlap) && Laid(ws[..k + 1], n, chunk, overlap)
    ensures ws[k].pos + |ws[k].samples| <= n
    ensures FadesIn(Stitched(ws[..k], n, chunk, overlap), Stitched(ws[..k + 1], n, chunk, overlap), ws[k], overlap)
  {
    hide Laid, Blend, FadesIn;
    LaidPrefix(ws, n, chunk, overlap, k);
    LaidPrefix(ws, n, chunk, overlap, k + 1);
    assert ws[..k + 1] == ws[..k] + [ws[k]];
    StitchedNext(ws[..k], n, chunk, overlap, ws[k]);
    BlendFades(Stitched(ws[..k], n, chunk, overlap), ws[k], overlap);
  }

  /** k is the last window that covers p. */
  ghost predicate LastCover(ws: seq<Window>, k: nat, p: nat) {
    k < |ws| && Covers(ws[k], p) && (k + 1 < |ws| ==> p < ws[k + 1].pos)
  }

  lemma {:induction false} PositionsRise(ws: seq<Window>, n: nat, chunk: nat, overlap: nat, k: nat, m: nat)
    requires overlap < chunk && Laid(ws, n, chunk, overlap) && k <= m < |ws|
    ensures ws[k].pos <= ws[m].pos
    decreases m
  {
    if k < m {
      LaterWindow(ws, n, chunk, overlap, m);
      PositionsRise(ws, n, chunk, overlap, k, m - 1);
    }
  }

  /** Windows that begin after p leave its sample alone. */
  lemma {:induction false} SettledSample(ws: seq<Window>, n: nat, chunk: nat, overlap: nat, k: nat, m: nat, p: nat)
    requires overlap < chunk && Laid(ws, n, chunk, overlap) && LastCover(ws, k, p) && k < m <= |ws|
    ensures p < n && Laid(ws[..k + 1], n, chunk, overlap) && Laid(ws[..m], n, chunk, overlap)
    ensures Stitched(ws[..m], n, chunk, overlap)[p] == Stitched(ws[..k + 1], n, chunk, overlap)[p]
    decreases m
  {
    hide Laid, Stitched;
    WindowFades(ws, n, chunk, overlap, k);
    WindowFades(ws, n, chunk, overlap, m - 1);
    if k + 1 < m {
      SettledSample(ws, n, chunk, overlap, k, m - 1, p);
      PositionsRise(ws, n, chunk, overlap, k + 1, m - 1);
      assert !Covers(ws[m - 1], p);
    }
  }

  /** The k-th window is the last over p: past its overlap the sample is the window's own, and inside it the linear mix
      of the two windows that meet there. */
  ghost predicate Meets(ws: seq<Window>, out: seq<real>, hop: nat, overlap: nat, k: nat, p: nat)
    requires p < |out| && k < |ws| && Covers(ws[k], p)
  {
    var t := p - ws[k].pos;
    if k == 0 || t >= overlap then out[p] == ws[k].samples[t]
    else hop + t < |ws[k - 1].samples| && FadesAt(ws[k - 1].samples[hop + t], out[p], ws[k], overlap, t)
  }

  ghost predicate HasLast(ws: seq<Window>, p: nat) { exists k: nat :: LastCover(ws, k, p) }

  lemma OneMeets(ws: seq<Window>, n: nat, chunk: nat, overlap: nat, k: nat, p: nat)
    requires overlap < chunk && 2 * overlap <= chunk && Laid(ws, n, chunk, overlap) && LastCover(ws, k, p)
    ensures p < n && Meets(ws, Stitched(ws, n, chunk, overlap), chunk - overlap, overlap, k, p)
  {
    hide Laid, Stitched;
    var hop, t := chunk - overlap, p - ws[k].pos;
    SettledSample(ws, n, chunk, overlap, k, |ws|, p);
    assert ws[..|ws|] == ws;
    WindowFades(ws, n, chunk, overlap, k);
    assert FadesAt(Stitched(ws[..k], n, chunk, overlap)[p], Stitched(ws, n, chunk, overlap)[p], ws[k], overlap, t);
    FirstAtStart(ws, n, chunk, overlap);
    if k > 0 && t < overlap {
      LaterWindow(ws, n, chunk, overlap, k);
      HopBefore(ws, n, chunk, overlap, k);
      WindowFades(ws, n, chunk, overlap, k - 1);
      assert FadesAt(Stitched(ws[..k - 1], n, chunk, overlap)[p], Stitched(ws[..k], n, chunk, overlap)[p], ws[k - 1],
          overlap, hop + t);
    } else if k > 0 {
      LaterWindow(ws, n, chunk, overlap, k);
    }
  }

  lemma FirstAtStart(ws: seq<Window>, n: nat, chunk: nat, overlap: nat)
    requires Laid(ws, n, chunk, overlap)
    ensures ws != [] ==> ws[0].pos == 0
  {
  }

  lemma HopBefore(ws: seq<Window>, n: nat, chunk: nat, overlap: nat, k: nat)
    requires overlap < chunk && Laid(ws, n, chunk, overlap) && 0 < k < |ws|
    ensures ws[k].pos == ws[k - 1].pos + (chunk - overlap)
  {
    assert Hops(ws[k - 1], ws[k], n, chunk, overlap);
  }

  // ----- the denoised recording

  /** The window holds what the enhancer made of its own stretch of the recording. */
  ghost predicate OwnSlice(e: Enhancer, hook: Hook, home: Device, w: Window, wav: seq<real>, min: nat)
    requires min >= 1
  {
    exists call: nat :: Makes(e, hook, home, call, w, wav, min)
  }

  ghost predicate Makes(e: Enhancer, hook: Hook, home: Device, call: nat, w: Window, wav: seq<real>, min: nat)
    requires min >= 1
  {
    && w.pos + |w.samples| <= |wav|
    && Adaptive(e, hook, home, call, wav[w.pos..w.pos + |w.samples|], min).result == Enhanced(w.samples)
  }

  lemma {:induction false} WindowsAreOwn(e: Enhancer, hook: Hook, home: Device, call: nat, wav: seq<real>, pos: nat,
      ws: seq<Window>, chunk: nat, overlap: nat, min: nat)
    requires min >= 1 && overlap < chunk && pos <= |wav| && KeepsLength(e)
    requires forall w :: w in ws ==> OwnSlice(e, hook, home, w, wav, min)
    ensures forall w :: w in WindowsFrom(e, hook, home, call, wav, pos, ws, chunk, overlap, min).windows ==>
      OwnSlice(e, hook, home, w, wav, min)
    decreases |wav| - pos
  {
    hide Adaptive, OwnSlice, WindowsFrom, KeepsLength;
    var end := Smaller(pos + chunk, |wav|);
    var run := Adaptive(e, hook, home, call, wav[pos..end], min);
    AdaptiveLength(e, hook, home, call, wav[pos..end], min);
    WindowsStep(e, hook, home, call, wav, pos, ws, chunk, overlap, min);
    if run.result.Enhanced? {
      var w := Window(pos, run.result.samples);
      assert w.pos + |w.samples| == end;
      assert Makes(e, hook, home, call, w, wav, min);
      IsOwn(e, hook, home, call, w, wav, min);
      assert forall v :: v in ws + [w] ==> OwnSlice(e, hook, home, v, wav, min);
      if end < |wav| {
        WindowsAreOwn(e, hook, home, run.calls, wav, pos + (chunk - overlap), ws + [w], chunk, overlap, min);
      }
    }
  }

  lemma IsOwn(e: Enhancer, hook: Hook, home: Device, call: nat, w: Window, wav: seq<real>, min: nat)
    requires min >= 1 && Makes(e, hook, home, call, w, wav, min)
    ensures OwnSlice(e, hook, home, w, wav, min)
  {
  }

  /** A recording denoised in several windows, with an overlap of at most half a window: the windows are laid over the
      recording, each holds what the enhancer made of its own stretch, and every sample of the result is the one
      window's that covers it alone, or fades linearly from one window to the next. */
  lemma WindowedFades(e: Enhancer, hook: Hook, home: Device, call: nat, wav: seq<real>, chunk: nat, overlap: nat,
      min: nat) returns (ws: seq<Window>)
    requires min >= 1 && overlap < chunk < |wav| && 2 * overlap <= chunk && KeepsLength(e)
    requires Windowed(e, hook, home, call, wav, chunk, overlap, min).0.Enhanced?
    ensures Laid(ws, |wav|, chunk, overlap) && |ws| == WindowCount(|wav|, chunk, overlap)
    ensures forall w :: w in ws ==> OwnSlice(e, hook, home, w, wav, min)
    ensures var out := Windowed(e, hook, home, call, wav, chunk, overlap, min).0.samples;
      && |out| == |wav|
      && (forall p: nat :: p < |wav| ==> HasLast(ws, p))
      && (forall k: nat, p: nat :: LastCover(ws, k, p) && p < |out| ==> Meets(ws, out, chunk - overlap, overlap, k, p))
  {
    hide Adaptive, OwnSlice, WindowsFrom, KeepsLength, Stitched, Laid, Meets;
    LaidEmpty(|wav|, chunk, overlap);
    WindowsFromLaid(e, hook, home, call, wav, 0, [], chunk, overlap, min);
    WindowsAreOwn(e, hook, home, call, wav, 0, [], chunk, overlap, min);
    StoppedIsNoAnswer(e, hook, home, call, wav, 0, [], chunk, overlap, min);
    ws := WindowsFrom(e, hook, home, call, wav, 0, [], chunk, overlap, min).windows;
    forall p: nat | p < |wav|
      ensures HasLast(ws, p)
    {
      var k := LastOver(ws, |wav|, chunk, overlap, p);
      assert LastCover(ws, k, p);
    }
    forall k: nat, p: nat | LastCover(ws, k, p) && p < |wav|
      ensures Meets(ws, Stitched(ws, |wav|, chunk, overlap), chunk - overlap, overlap, k, p)
    {
      OneMeets(ws, |wav|, chunk, overlap, k, p);
    }
  }

  lemma {:induction false} LastOver(ws: seq<Window>, n: nat, chunk: nat, overlap: nat, p: nat) returns (k: nat)
    requires overlap < chunk && Laid(ws, n, chunk, overlap) && ws != []
    requires p < ws[|ws| - 1].pos + |ws[|ws| - 1].samples|
    ensures LastCover(ws, k, p)
  {
    hide Laid;
    k := |ws| - 1;
    FirstAtStart(ws, n, chunk, overlap);
    if p < ws[k].pos {
      LaidInit(ws, n, chunk, overlap);
      LaterWindow(ws, n, chunk, overlap, k);
      k := LastOver(ws[..k], n, chunk, overlap, p);
    }
  }

  // ----- which call each slice came from

  /** m samples are what n samples come to by halving, rounded either way. */
  ghost predicate Halved(n: nat, m: nat)
    decreases n
  {
    m == n || (n >= 2 && (Halved(n / 2, m) || Halved(n - n / 2, m)))
  }

  /** The n-th call, on the model's own device, answered the slice; or it ran out of memory, the slice could not be
      halved, and the next call answered it on the CPU. */
  ghost predicate AnsweredBy(e: Enhancer, hook: Hook, home: Device, n: nat, l: Leaf, min: nat) {
    || e(n, hook, home, l.input) == Enhanced(l.output)
    || (e(n, hook, home, l.input) == OutOfMemory && |l.input| / 2 < min
        && e(n + 1, ForcedCpu, Cpu, l.input) == Enhanced(l.output))
  }

  ghost predicate FromCalls(e: Enhancer, hook: Hook, home: Device, from: nat, to: nat, l: Leaf, size: nat, min: nat) {
    Halved(size, |l.input|) && exists n: nat :: from <= n < to && AnsweredBy(e, hook, home, n, l, min)
  }

  lemma MoreCalls(e: Enhancer, hook: Hook, home: Device, from: nat, to: nat, l: Leaf, size: nat, min: nat, from': nat,
      to': nat, size': nat)
    requires FromCalls(e, hook, home, from, to, l, size, min) && from' <= from && to <= to'
    requires size' >= 2 && (size == size' / 2 || size == size' - size' / 2)
    ensures FromCalls(e, hook, home, from', to', l, size', min)
  {
    hide AnsweredBy;
  }

  /** Every slice of the result was answered by one call, on the CPU only if its call on the model's device ran out of
      memory and the slice was too short to halve; slices arise by halving. */
  lemma {:induction false} SlicesFromCalls(e: Enhancer, hook: Hook, home: Device, call: nat, slice: seq<real>, min: nat)
    requires min >= 1
    ensures var run := Adaptive(e, hook, home, call, slice, min);
      && run.calls > call
      && forall l :: l in run.leaves ==> FromCalls(e, hook, home, call, run.calls, l, |slice|, min)
    decreases |slice|
  {
    hide FromCalls;
    var mid := |slice| / 2;
    var run, first := Adaptive(e, hook, home, call, slice, min), e(call, hook, home, slice);
    if first.OutOfMemory? && mid >= min {
      SlicesFromCalls(e, hook, home, call + 1, slice[..mid], min);
      var l := Adaptive(e, hook, home, call + 1, slice[..mid], min);
      SlicesFromCalls(e, hook, home, l.calls, slice[mid..], min);
      var r := Adaptive(e, hook, home, l.calls, slice[mid..], min);
      SlicesMore(e, hook, home, call + 1, l.calls, l.leaves, mid, min, call, run.calls, |slice|);
      SlicesMore(e, hook, home, l.calls, r.calls, r.leaves, |slice| - mid, min, call, r.calls, |slice|);
    } else if run.leaves != [] {
      OwnCall(e, hook, home, call, run.calls, run.leaves[0], min);
    }
  }

  lemma OwnCall(e: Enhancer, hook: Hook, home: Device, n: nat, to: nat, l: Leaf, min: nat)
    requires n < to && AnsweredBy(e, hook, home, n, l, min)
    ensures FromCalls(e, hook, home, n, to, l, |l.input|, min)
  {
    hide AnsweredBy;
  }

  lemma SlicesMore(e: Enhancer, hook: Hook, home: Device, from: nat, to: nat, leaves: seq<Leaf>, size: nat, min: nat,
      from': nat, to': nat, size': nat)
    requires forall l :: l in leaves ==> FromCalls(e, hook, home, from, to, l, size, min)
    requires from' <= from && to <= to' && size' >= 2 && (size == size' / 2 || size == size' - size' / 2)
    ensures forall l :: l in leaves ==> FromCalls(e, hook, home, from', to', l, size', min)
  {
    hide FromCalls;
    forall l | l in leaves
      ensures FromCalls(e, hook, home, from', to', l, size', min)
    {
      MoreCalls(e, hook, home, from, to, l, size, min, from', to', size');
    }
  }

  /** A slice that is given up was refused by a call: by one that failed, or by the CPU after the model's device ran
      out of memory. */
  lemma {:induction false} RefusedByCall(e: Enhancer, hook: Hook, home: Device, call: nat, slice: seq<real>, min: nat)
    returns (n: nat, part: seq<real>)
    requires min >= 1 && !Adaptive(e, hook, home, call, slice, min).result.Enhanced?
    ensures var r := Adaptive(e, hook, home, call, slice, min).result;
      || (r.Failed? && e(n, hook, home, part) == r)
      || (e(n, hook, home, part) == OutOfMemory && |part| / 2 < min && e(n + 1, ForcedCpu, Cpu, part) == r)
    decreases |slice|
  {
    var mid := |slice| / 2;
    n, part := call, slice;
    if e(call, hook, home, slice).OutOfMemory? && mid >= min {
      var l := Adaptive(e, hook, home, call + 1, slice[..mid], min);
      if !l.result.Enhanced? {
        n, part := RefusedByCall(e, hook, home, call + 1, slice[..mid], min);
      } else {
        n, part := RefusedByCall(e, hook, home, l.calls, slice[mid..], min);
      }
    }
  }
}
