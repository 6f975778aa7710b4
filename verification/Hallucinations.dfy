/** The anti-hallucination filter on a finished transcription. */
module Hallucinations {
  import opened Words
  import opened ParseText
  import JobProtocol
  import SegmentTexts

  /** A segment of an engine's answer. */
  datatype Spoken = Spoken(start: real, end: real, speaker: Option<string>, text: string, logprob: Option<real>)
  datatype Limits = Limits(minLogprob: Option<real>, maxCps: Option<real>)

  /** Characters per second; a segment without duration counts as silent. */
  function Cps(seg: Spoken): real {
    var duration := seg.end - seg.start;
    if duration > 0.0 then |seg.text| as real / duration else 0.0
  }

  predicate Rejected(seg: Spoken, l: Limits) {
    || (l.minLogprob.Some? && seg.logprob.Some? && seg.logprob.value < l.minLogprob.value)
    || (l.maxCps.Some? && Cps(seg) > l.maxCps.value)
  }

  function Kept(segs: seq<Spoken>, l: Limits): seq<Spoken> {
    if segs == [] then []
    else
      var last := segs[|segs| - 1];
      Kept(segs[..|segs| - 1], l) + if Rejected(last, l) then [] else [last]
  }

  function TextOf(segs: seq<Spoken>): string { Strip(Join(Texts(segs), ' ')) }

  function Texts(segs: seq<Spoken>): seq<string> {
    seq(|segs|, i requires 0 <= i < |segs| => Strip(segs[i].text))
  }

  datatype Result = Result(status: JobProtocol.Status, text: string, segments: seq<Spoken>)

  /** The text is rebuilt, and the status tells, only when something was rejected. */
  method Filter(text: string, segs: seq<Spoken>, l: Limits) returns (r: Result)
    ensures r.segments == Kept(segs, l)
    ensures if exists seg :: seg in segs && Rejected(seg, l)
      then r.status == JobProtocol.Filtered && r.text == TextOf(r.segments)
      else r == Result(JobProtocol.Completed, text, segs)
  {
    var filtered: seq<Spoken> := [];
    var isFiltered := false;
    for i := 0 to |segs|
      invariant filtered == Kept(segs[..i], l)
      invariant isFiltered <==> exists seg :: seg in segs[..i] && Rejected(seg, l)
    {
      var seg := segs[i];
      assert segs[..i + 1][..i] == segs[..i];
      assert segs[..i + 1] == segs[..i] + [seg];
      if Rejected(seg, l) { isFiltered := true; } else { filtered := filtered + [seg]; }
    }
    assert segs[..|segs|] == segs;
    if !isFiltered { NothingRejected(segs, l); }
    r := if isFiltered then Result(JobProtocol.Filtered, TextOf(filtered), filtered)
      else Result(JobProtocol.Completed, text, segs);
  }

  lemma {:induction false} NothingRejected(segs: seq<Spoken>, l: Limits)
    requires forall seg :: seg in segs ==> !Rejected(seg, l)
    ensures Kept(segs, l) == segs
  {
    if segs != [] {
      NothingRejected(segs[..|segs| - 1], l);
      assert segs == segs[..|segs| - 1] + [segs[|segs| - 1]];
    }
  }

  /** Where the kept segments stood: they keep their order, and each that passes stays, exactly as often. */
  lemma {:induction false} KeptPlaces(segs: seq<Spoken>, l: Limits) returns (at: seq<nat>)
    ensures |at| == |Kept(segs, l)|
    ensures forall k :: 0 <= k < |at| ==> at[k] < |segs| && Kept(segs, l)[k] == segs[at[k]] && !Rejected(segs[at[k]], l)
    ensures forall k, m :: 0 <= k < m < |at| ==> at[k] < at[m]
    ensures forall i: nat :: i < |segs| && !Rejected(segs[i], l) ==> i in at
  {
    if segs == [] { at := []; }
    else {
      var n := |segs| - 1;
      at := KeptPlaces(segs[..n], l);
      if !Rejected(segs[n], l) { at := at + [n]; }
    }
  }

  /** What was let through passes again: filtering twice is filtering once, and the second time nothing is reported. */
  lemma FilteredIsClean(segs: seq<Spoken>, l: Limits)
    ensures forall seg :: seg in Kept(segs, l) ==> seg in segs && !Rejected(seg, l)
    ensures Kept(Kept(segs, l), l) == Kept(segs, l)
  {
    var at := KeptPlaces(segs, l);
    NothingRejected(Kept(segs, l), l);
  }

  ghost predicate Looser(a: Limits, b: Limits) {
    && (b.minLogprob.Some? ==> a.minLogprob.Some? && b.minLogprob.value <= a.minLogprob.value)
    && (b.maxCps.Some? ==> a.maxCps.Some? && b.maxCps.value >= a.maxCps.value)
  }

  /** Looser limits keep at least as much: the stricter filter can be applied after the looser one. */
  lemma {:induction false} LooserKeepsMore(segs: seq<Spoken>, a: Limits, b: Limits)
    requires Looser(a, b)
    ensures Kept(Kept(segs, b), a) == Kept(segs, a)
  {
    if segs != [] {
      var init, last := segs[..|segs| - 1], segs[|segs| - 1];
      LooserKeepsMore(init, a, b);
      var kept := Kept(init, b);
      assert (kept + [last])[..|kept|] == kept;
      assert kept + [] == kept;
    }
  }

  /** The two limits work apart from each other: one after the other, in either order, is both at once. */
  lemma LimitsSeparate(segs: seq<Spoken>, l: Limits)
    ensures Kept(Kept(segs, Limits(l.minLogprob, None)), Limits(None, l.maxCps)) == Kept(segs, l)
    ensures Kept(Kept(segs, Limits(None, l.maxCps)), Limits(l.minLogprob, None)) == Kept(segs, l)
  {
    OneThenOther(segs, Limits(l.minLogprob, None), Limits(None, l.maxCps), l);
    OneThenOther(segs, Limits(None, l.maxCps), Limits(l.minLogprob, None), l);
  }

  lemma {:induction false} OneThenOther(segs: seq<Spoken>, a: Limits, b: Limits, both: Limits)
    requires forall seg :: Rejected(seg, both) <==> Rejected(seg, a) || Rejected(seg, b)
    ensures Kept(Kept(segs, a), b) == Kept(segs, both)
  {
    hide Rejected;
    if segs != [] {
      var init, last := segs[..|segs| - 1], segs[|segs| - 1];
      OneThenOther(init, a, b, both);
      var kept := Kept(init, a);
      assert (kept + [last])[..|kept|] == kept;
      assert kept + [] == kept;
    }
  }

  // ----- the limits and the text, in numbers and characters

  /** A segment is rejected when its log probability is under the limit, or when it has more characters than the
      limit allows for its duration; without duration it has no rate, and only a negative limit rejects it. */
  lemma RejectedMeans(seg: Spoken, l: Limits)
    ensures Rejected(seg, l) <==>
      || (l.minLogprob.Some? && seg.logprob.Some? && l.minLogprob.value > seg.logprob.value)
      || (l.maxCps.Some? && seg.end > seg.start && |seg.text| as real > l.maxCps.value * (seg.end - seg.start))
      || (l.maxCps.Some? && seg.end <= seg.start && l.maxCps.value < 0.0)
  {
    if l.maxCps.Some? && seg.end > seg.start {
      Faster(|seg.text| as real, seg.end - seg.start, l.maxCps.value);
    }
  }

  lemma Faster(n: real, d: real, limit: real)
    requires d > 0.0
    ensures n / d > limit <==> n > limit * d
  {
    var q := n / d;
    assert q * d == n;
    if q > limit { Grows(limit, q, d); } else { Grows(q, limit, d); }
  }

  lemma Grows(x: real, y: real, d: real)
    requires x <= y && d > 0.0
    ensures x * d <= y * d && (x < y ==> x * d < y * d)
  {
  }

  /** The rebuilt text is spelled by the texts that were let through, in order, one space between neighbours. */
  lemma RebuiltText(segs: seq<Spoken>) returns (at: seq<nat>)
    requires segs != [] && Strip(segs[0].text) != "" && Strip(segs[|segs| - 1].text) != ""
    ensures Spells(TextOf(segs), seq(|segs|, i requires 0 <= i < |segs| => Strip(segs[i].text)), ' ', at)
  {
    hide Strip, Spells;
    SegmentTexts.StripTrims(segs[0].text);
    SegmentTexts.StripTrims(segs[|segs| - 1].text);
    at := SegmentTexts.JoinedSpells(Texts(segs));
  }
}
