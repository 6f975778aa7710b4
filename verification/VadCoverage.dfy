/** Which stretches of a recording end up in its chunks: all detected speech but what a finer detection leaves
    out, and nothing else; and where a long stretch is cut. */
module VadCoverage {
  import opened VadChunking

  // ----- what the detector found

  /** The detected stretches over 0.05 s. */
  function Stretches(a: Stamps): seq<Interval> {
    if a.Found? then LongEnough(a.stamps) else []
  }

  ghost function Finer(vad: Detector, audio: seq<real>, start: nat, end: nat): seq<Interval>
    requires start <= end <= |audio|
  {
    Stretches(vad(audio[start..end], 100))
  }

  lemma StretchesParts(vad: Detector, audio: seq<real>, ms: nat)
    requires GoodDetector(vad)
    ensures var s := Stretches(vad(audio, ms));
      Inside(s, 0, |audio|) && NonEmpty(s) && (|s| > 1 ==> Parts(s, |audio|))
  {
    var a := vad(audio, ms);
    assert GoodAnswer(a, |audio|);
    if a.Found? {
      LongEnoughInside(a.stamps, |audio|);
      SeveralAreParts(LongEnough(a.stamps), |audio|);
    }
  }

  lemma {:induction false} StretchesAre(vad: Detector, audio: seq<real>, ms: nat)
    ensures forall x :: x in Stretches(vad(audio, ms)) <==>
      vad(audio, ms).Found? && x in vad(audio, ms).stamps && x.end - x.start > 800
  {
    if vad(audio, ms).Found? { LongEnoughKeeps(vad(audio, ms).stamps); }
  }

  // ----- which pieces a stretch comes to

  /** c is a piece of [start, end]: the whole if that is at most 24.9 s; else a piece of one of the finer stretches,
      if several are detected; else a piece of what is left or right of the cut. */
  ghost predicate PieceOf(vad: Detector, audio: seq<real>, start: nat, end: nat, c: Interval)
    requires GoodDetector(vad) && start <= end <= |audio|
    decreases end - start
  {
    if end - start <= MAX_CHUNK then c == Interval(start, end)
    else
      var finer := Finer(vad, audio, start, end);
      if |finer| > 1 then
        StretchesParts(vad, audio[start..end], 100);
        exists k :: 0 <= k < |finer| && PieceOf(vad, audio, start + finer[k].start, start + finer[k].end, c)
      else
        ForcedCut(audio, start, end);
        var cut := ForceSplitPoint(audio, start, end).sample;
        PieceOf(vad, audio, start, cut, c) || PieceOf(vad, audio, cut, end, c)
  }

  lemma PartFits(vad: Detector, audio: seq<real>, start: nat, end: nat, x: Interval)
    requires GoodDetector(vad) && start <= end <= |audio| && |Finer(vad, audio, start, end)| > 1
    requires x in Finer(vad, audio, start, end)
    ensures 0 <= x.start < x.end <= end - start && x.end - x.start < end - start
  {
    StretchesParts(vad, audio[start..end], 100);
  }

  lemma PieceOfSeveral(vad: Detector, audio: seq<real>, start: nat, end: nat, c: Interval)
    requires GoodDetector(vad) && start <= end <= |audio| && end - start > MAX_CHUNK
    requires |Finer(vad, audio, start, end)| > 1
    ensures var finer := Finer(vad, audio, start, end);
      && (forall k :: 0 <= k < |finer| ==> finer[k].start < finer[k].end <= end - start)
      && (PieceOf(vad, audio, start, end, c) <==>
            exists k :: 0 <= k < |finer| && PieceOf(vad, audio, start + finer[k].start, start + finer[k].end, c))
  {
    hide Finer, GoodDetector;
    forall k | 0 <= k < |Finer(vad, audio, start, end)|
      ensures var x := Finer(vad, audio, start, end)[k]; x.start < x.end <= end - start
    {
      PartFits(vad, audio, start, end, Finer(vad, audio, start, end)[k]);
    }
  }

  lemma {:induction false} SplitLongIs(vad: Detector, audio: seq<real>, start: nat, end: nat, c: Interval)
    requires GoodDetector(vad) && start <= end <= |audio|
    ensures c in SplitLong(vad, audio, start, end) <==> PieceOf(vad, audio, start, end, c)
    decreases end - start, 2
  {
    if end - start > MAX_CHUNK {
      SpeechIsFiner(vad, audio, start, end);
      if |Finer(vad, audio, start, end)| > 1 {
        SeveralPieces(vad, audio, start, end, c);
      } else {
        hide Finer, Speech;
        ForcedCut(audio, start, end);
        var cut := ForceSplitPoint(audio, start, end).sample;
        SplitLongIs(vad, audio, start, cut, c);
        SplitLongIs(vad, audio, cut, end, c);
      }
    }
  }

  lemma SpeechIsFiner(vad: Detector, audio: seq<real>, start: nat, end: nat)
    requires GoodDetector(vad) && start <= end <= |audio|
    ensures var f, finer := Speech(vad, audio[start..end], 100), Finer(vad, audio, start, end);
      && (f.Some? && |f.value| > 1 <==> |finer| > 1)
      && (|finer| > 1 ==> f.value == finer && Parts(finer, end - start))
  {
    hide LongEnough, Parts;
    StretchesParts(vad, audio[start..end], 100);
  }

  lemma {:induction false} SeveralPieces(vad: Detector, audio: seq<real>, start: nat, end: nat, c: Interval)
    requires GoodDetector(vad) && start <= end <= |audio| && end - start > MAX_CHUNK
    requires |Finer(vad, audio, start, end)| > 1
    ensures c in SplitLong(vad, audio, start, end) <==> PieceOf(vad, audio, start, end, c)
    decreases end - start, 1
  {
    hide SplitLong, Speech, Parts;
    SpeechIsFiner(vad, audio, start, end);
    FinerSplitIsTaken(vad, audio, start, end);
    SplitAllIs(vad, audio, start, end, |Finer(vad, audio, start, end)|, c);
  }

  /** The pieces of the first i finer stretches. */
  lemma {:induction false} SplitAllIs(vad: Detector, audio: seq<real>, start: nat, end: nat, i: nat, c: Interval)
    requires GoodDetector(vad) && start <= end <= |audio|
    requires Parts(Finer(vad, audio, start, end), end - start) && |Finer(vad, audio, start, end)| > 1
    requires i <= |Finer(vad, audio, start, end)|
    ensures var finer := Finer(vad, audio, start, end);
      c in SplitAll(vad, audio, start, end, finer, i) <==>
        exists k :: 0 <= k < i && PieceOf(vad, audio, start + finer[k].start, start + finer[k].end, c)
    decreases end - start, 0, i
  {
    hide SplitLong, GoodDetector, Finer, PieceOf;
    if i > 0 {
      var finer := Finer(vad, audio, start, end);
      PartAt(finer, end - start, i - 1);
      SplitAllIs(vad, audio, start, end, i - 1, c);
      SplitLongIs(vad, audio, start + finer[i - 1].start, start + finer[i - 1].end, c);
    }
  }

  // ----- which pieces the recording comes to

  /** What is cut into chunks: the detected stretches over 0.05 s, or the whole recording if there is none. */
  ghost predicate SpeechRegion(vad: Detector, audio: seq<real>, x: Interval) {
    if Stretches(vad(audio, 300)) == [] then x == Interval(0, |audio|) else x in Stretches(vad(audio, 300))
  }

  lemma RegionFits(vad: Detector, audio: seq<real>, x: Interval)
    requires GoodDetector(vad) && SpeechRegion(vad, audio, x)
    ensures 0 <= x.start <= x.end <= |audio|
  {
    StretchesParts(vad, audio, 300);
  }

  lemma SpeechIsRegions(vad: Detector, audio: seq<real>, x: Interval)
    requires vad(audio, 300).Found?
    ensures Speech(vad, audio, 300).Some?
    ensures x in Speech(vad, audio, 300).value <==> SpeechRegion(vad, audio, x)
  {
    hide LongEnough;
  }

  lemma {:induction false} SegmentsAre(vad: Detector, audio: seq<real>, raw: seq<Interval>, c: Interval)
    requires GoodDetector(vad) && Inside(raw, 0, |audio|)
    ensures c in SplitSegments(vad, audio, raw) <==>
      exists x :: x in raw && c in SplitLong(vad, audio, x.start, x.end)
  {
    hide SplitLong, GoodDetector;
    if raw != [] {
      var init, last := raw[..|raw| - 1], raw[|raw| - 1];
      assert raw == init + [last];
      SegmentsAre(vad, audio, init, c);
    }
  }

  /** The chunks of a recording are exactly the pieces of its regions. Being in order and disjoint, they are fixed by
      that. */
  lemma ChunksAre(vad: Detector, audio: seq<real>, c: Interval)
    requires GoodDetector(vad)
    ensures Chunks(vad, audio).Some? <==> vad(audio, 300).Found?
    ensures Chunks(vad, audio).Some? ==>
      (c in Chunks(vad, audio).value <==> PieceOfRegion(vad, audio, c))
  {
    hide SplitLong, PieceOf, SplitSegments, Region;
    if vad(audio, 300).Found? {
      SpeechInside(vad, audio, 300);
      var raw := Speech(vad, audio, 300).value;
      SegmentsAre(vad, audio, raw, c);
      forall x: Interval | 0 <= x.start <= x.end <= |audio|
        ensures c in SplitLong(vad, audio, x.start, x.end) <==> PieceOf(vad, audio, x.start, x.end, c)
        ensures x in raw <==> SpeechRegion(vad, audio, x)
      {
        SplitLongIs(vad, audio, x.start, x.end, c);
        SpeechIsRegions(vad, audio, x);
      }
      if x :| x in raw && c in SplitLong(vad, audio, x.start, x.end) {
        assert Holds(vad, audio, x, c);
      }
      if x :| Holds(vad, audio, x, c) {
        RegionFits(vad, audio, x);
        assert x in raw && c in SplitLong(vad, audio, x.start, x.end);
      }
    }
  }

  ghost predicate Holds(vad: Detector, audio: seq<real>, x: Interval, c: Interval)
    requires GoodDetector(vad)
  {
    SpeechRegion(vad, audio, x) && (RegionFits(vad, audio, x); PieceOf(vad, audio, x.start, x.end, c))
  }

  ghost predicate PieceOfRegion(vad: Detector, audio: seq<real>, c: Interval)
    requires GoodDetector(vad)
  {
    exists x :: Holds(vad, audio, x, c)
  }

  // ----- what that keeps of the speech

  ghost predicate CoveredAt(places: seq<Interval>, p: int) {
    exists k :: 0 <= k < |places| && places[k].start <= p < places[k].end
  }

  ghost predicate Covers(places: seq<Interval>, start: int, end: int) {
    forall p :: start <= p < end ==> CoveredAt(places, p)
  }

  lemma {:induction false} TilesCover(s: seq<Interval>, start: int, end: int, p: int) returns (k: nat)
    requires Tiles(s, start, end) && start <= p < end
    ensures k < |s| && s[k].start <= p < s[k].end
  {
    if p < s[0].end {
      k := 0;
    } else {
      k := TilesCover(s[1..], s[0].end, end, p);
      k := k + 1;
    }
  }

  /** A stretch whose chunks these are: it is one itself, or, with nothing finer detected in it, covered by them. */
  ghost predicate Kept(vad: Detector, audio: seq<real>, places: seq<Interval>, start: nat, end: nat)
    requires start <= end <= |audio|
  {
    && (end - start <= 398400 ==> Interval(start, end) in places)
    && (NothingFiner(vad, audio, start, end) ==> Covers(places, start, end))
  }

  lemma PiecesKeep(vad: Detector, audio: seq<real>, places: seq<Interval>, start: nat, end: nat)
    requires GoodDetector(vad) && start <= end <= |audio|
    requires forall c :: PieceOf(vad, audio, start, end, c) ==> c in places
    ensures Kept(vad, audio, places, start, end)
  {
    hide PieceOf, NothingFiner, SplitLong, GoodDetector;
    var pieces := SplitLong(vad, audio, start, end);
    forall c | c in pieces
      ensures c in places
    {
      SplitLongIs(vad, audio, start, end, c);
    }
    if end - start <= MAX_CHUNK {
      WholePiece(vad, audio, start, end);
    }
    if NothingFiner(vad, audio, start, end) {
      ForcedTiles(vad, audio, start, end);
      forall p | start <= p < end
        ensures CoveredAt(places, p)
      {
        var k := TilesCover(pieces, start, end, p);
        assert pieces[k] in pieces;
        var m :| 0 <= m < |places| && places[m] == pieces[k];
      }
    }
  }

  lemma WholePiece(vad: Detector, audio: seq<real>, start: nat, end: nat)
    requires GoodDetector(vad) && start <= end <= |audio| && end - start <= MAX_CHUNK
    ensures PieceOf(vad, audio, start, end, Interval(start, end))
  {
  }

  lemma {:induction false} PieceInside(vad: Detector, audio: seq<real>, start: nat, end: nat, c: Interval)
    requires GoodDetector(vad) && start <= end <= |audio| && PieceOf(vad, audio, start, end, c)
    ensures start <= c.start <= c.end <= end
  {
    hide PieceOf;
    SplitLongIs(vad, audio, start, end, c);
    SplitLongGood(vad, audio, start, end);
  }

  /** A stretch over 24.9 s in which the detector finds several finer ones. */
  ghost predicate Several(vad: Detector, audio: seq<real>, x: Interval) {
    && 0 <= x.start <= x.end <= |audio| && x.end - x.start > 398400
    && |Finer(vad, audio, x.start, x.end)| > 1
  }

  /** y, in the time of the recording, is one of the finer stretches of x. */
  ghost predicate FinerOf(vad: Detector, audio: seq<real>, x: Interval, y: Interval)
    requires Several(vad, audio, x)
  {
    && x.start <= y.start <= y.end
    && Interval(y.start - x.start, y.end - x.start) in Finer(vad, audio, x.start, x.end)
  }

  /** The chunks keep the detected speech and nothing else: every region is a chunk or covered by chunks unless several
      finer stretches are detected in it; then these are; and each chunk lies in a region, and in one of its finer
      stretches if there are several. */
  ghost predicate KeepsSpeech(vad: Detector, audio: seq<real>, places: seq<Interval>)
    requires GoodDetector(vad)
  {
    && (forall x :: SpeechRegion(vad, audio, x) ==>
          (RegionFits(vad, audio, x); Kept(vad, audio, places, x.start, x.end)))
    && (forall x, y :: SpeechRegion(vad, audio, x) && Several(vad, audio, x) && FinerOf(vad, audio, x, y) ==>
          (FinerFits(vad, audio, x, y); Kept(vad, audio, places, y.start, y.end)))
    && (forall c :: c in places ==> InRegion(vad, audio, c))
  }

  ghost predicate InRegion(vad: Detector, audio: seq<real>, c: Interval) {
    exists x :: SpeechRegion(vad, audio, x) && LiesIn(vad, audio, x, c)
  }

  ghost predicate LiesIn(vad: Detector, audio: seq<real>, x: Interval, c: Interval) {
    && x.start <= c.start <= c.end <= x.end
    && (Several(vad, audio, x) ==> exists y :: FinerOf(vad, audio, x, y) && y.start <= c.start <= c.end <= y.end)
  }

  lemma FinerFits(vad: Detector, audio: seq<real>, x: Interval, y: Interval)
    requires GoodDetector(vad) && Several(vad, audio, x) && FinerOf(vad, audio, x, y)
    ensures x.start <= y.start < y.end <= x.end
  {
    PartFits(vad, audio, x.start, x.end, Interval(y.start - x.start, y.end - x.start));
  }

  lemma FinerPiece(vad: Detector, audio: seq<real>, x: Interval, y: Interval, c: Interval)
    requires GoodDetector(vad) && Several(vad, audio, x) && FinerOf(vad, audio, x, y)
    requires x.start <= y.start <= y.end <= x.end && PieceOf(vad, audio, y.start, y.end, c)
    ensures PieceOf(vad, audio, x.start, x.end, c)
  {
    hide Finer, GoodDetector, PieceOf, Parts;
    PieceOfSeveral(vad, audio, x.start, x.end, c);
    var finer := Finer(vad, audio, x.start, x.end);
    var k :| 0 <= k < |finer| && finer[k] == Interval(y.start - x.start, y.end - x.start);
  }

  lemma PieceLiesIn(vad: Detector, audio: seq<real>, x: Interval, c: Interval)
    requires GoodDetector(vad) && 0 <= x.start <= x.end <= |audio| && PieceOf(vad, audio, x.start, x.end, c)
    ensures LiesIn(vad, audio, x, c)
  {
    hide PieceOf, Finer;
    PieceInside(vad, audio, x.start, x.end, c);
    if Several(vad, audio, x) { var y := FinerHolds(vad, audio, x, c); }
  }

  lemma FinerHolds(vad: Detector, audio: seq<real>, x: Interval, c: Interval) returns (y: Interval)
    requires GoodDetector(vad) && Several(vad, audio, x) && PieceOf(vad, audio, x.start, x.end, c)
    ensures FinerOf(vad, audio, x, y) && y.start <= c.start <= c.end <= y.end
  {
    hide Finer, GoodDetector, PieceOf, Parts;
    PieceOfSeveral(vad, audio, x.start, x.end, c);
    var finer := Finer(vad, audio, x.start, x.end);
    var k :| 0 <= k < |finer| && PieceOf(vad, audio, x.start + finer[k].start, x.start + finer[k].end, c);
    PartFits(vad, audio, x.start, x.end, finer[k]);
    y := Interval(x.start + finer[k].start, x.start + finer[k].end);
    PieceInside(vad, audio, y.start, y.end, c);
  }

  /** No detected speech is lost, and no chunk holds anything else. */
  lemma ChunksKeepSpeech(vad: Detector, audio: seq<real>)
    requires GoodDetector(vad) && Chunks(vad, audio).Some?
    ensures KeepsSpeech(vad, audio, Chunks(vad, audio).value)
  {
    hide PieceOf, SpeechRegion, Kept, Several, FinerOf, Chunks, GoodDetector, LiesIn;
    var places := Chunks(vad, audio).value;
    forall x | SpeechRegion(vad, audio, x)
      ensures 0 <= x.start <= x.end <= |audio| && Kept(vad, audio, places, x.start, x.end)
    {
      RegionFits(vad, audio, x);
      RegionPieces(vad, audio, x);
      PiecesKeep(vad, audio, places, x.start, x.end);
    }
    forall x, y | SpeechRegion(vad, audio, x) && Several(vad, audio, x) && FinerOf(vad, audio, x, y)
      ensures x.start <= y.start < y.end <= x.end && Kept(vad, audio, places, y.start, y.end)
    {
      RegionFits(vad, audio, x);
      RegionPieces(vad, audio, x);
      FinerFits(vad, audio, x, y);
      forall c | PieceOf(vad, audio, y.start, y.end, c)
        ensures c in places
      {
        FinerPiece(vad, audio, x, y, c);
      }
      PiecesKeep(vad, audio, places, y.start, y.end);
    }
    forall c | c in places
      ensures InRegion(vad, audio, c)
    {
      ChunksAre(vad, audio, c);
      var x :| Holds(vad, audio, x, c);
      RegionFits(vad, audio, x);
      PieceLiesIn(vad, audio, x, c);
    }
  }

  lemma RegionPieces(vad: Detector, audio: seq<real>, x: Interval)
    requires GoodDetector(vad) && Chunks(vad, audio).Some? && SpeechRegion(vad, audio, x)
    requires 0 <= x.start <= x.end <= |audio|
    ensures forall c :: PieceOf(vad, audio, x.start, x.end, c) ==> c in Chunks(vad, audio).value
  {
    hide PieceOf, SpeechRegion, Chunks, GoodDetector;
    forall c | PieceOf(vad, audio, x.start, x.end, c)
      ensures c in Chunks(vad, audio).value
    {
      ChunksAre(vad, audio, c);
      assert Holds(vad, audio, x, c);
    }
  }

  // ----- where a long stretch is cut

  /** Sums of squares add up over parts, and a sample counts with its square. */
  lemma {:induction false} SumSquaresAdds(a: seq<real>, b: seq<real>)
    ensures SumSquares(a + b) == SumSquares(a) + SumSquares(b)
    ensures forall x: real :: SumSquares([x]) == x * x
  {
    forall x: real
      ensures SumSquares([x]) == x * x
    {
      assert [x][..0] == [];
    }
    if b == [] {
      assert a + b == a;
    } else {
      SumSquaresAdds(a, b[..|b| - 1]);
      assert (a + b)[..|a + b| - 1] == a + b[..|b| - 1];
    }
  }

  /** The energy of the 0.15 s around a sample. */
  function Loudness(audio: seq<real>, centre: int): real
    requires 1200 <= centre <= |audio| - 1200
  {
    SumSquares(audio[centre - 1200..centre + 1200])
  }

  /** The places of the search: from 20 s, or the middle of the stretch if that comes first, to 24.9 s, or 0.1 s before
      the end, the centres of windows half a window apart. */
  ghost predicate Candidate(start: nat, end: nat, centre: int) {
    var first := start + if end - start < 640000 then (end - start) / 2 else 320000;
    var last := start + if end - start < 400000 then end - start - 1600 else 398400;
    first + 1200 <= centre < last - 1200 && (centre - first) % 1200 == 0
  }

  lemma RegionIs(audio: seq<real>, start: nat, end: nat)
    requires end - start > MAX_CHUNK && end <= |audio|
    ensures 0 <= SearchStart(start, end) < SearchEnd(start, end) <= |audio|
    ensures Region(audio, start, end) == audio[SearchStart(start, end)..SearchEnd(start, end)]
    ensures forall c :: Candidate(start, end, c) ==> 1200 <= c <= |audio| - 1200
  {
  }

  lemma EnergyIsLoudness(audio: seq<real>, start: nat, end: nat, k: nat)
    requires end - start > MAX_CHUNK && end <= |audio|
    requires k * RMS_HOP + RMS_WINDOW <= |Region(audio, start, end)|
    ensures var c := SearchStart(start, end) + k * 1200 + 1200;
      1200 <= c <= |audio| - 1200 && Energy(Region(audio, start, end), k) == Loudness(audio, c)
  {
    RegionIs(audio, start, end);
    var s, c := SearchStart(start, end), SearchStart(start, end) + k * 1200 + 1200;
    SliceOfSlice(audio, s, SearchEnd(start, end), k * 1200, k * 1200 + 2400);
    assert s + k * 1200 == c - 1200 && s + (k * 1200 + 2400) == c + 1200;
  }

  lemma SliceOfSlice(audio: seq<real>, s: nat, e: nat, i: nat, j: nat)
    requires s <= e <= |audio| && i <= j <= e - s
    ensures audio[s..e][i..j] == audio[s + i..s + j]
  {
    var a, b := audio[s..e][i..j], audio[s + i..s + j];
    forall k | 0 <= k < |a|
      ensures a[k] == b[k]
    {
      assert a[k] == audio[s..e][i + k] == audio[s + (i + k)];
    }
  }

  /** The cut is the first quietest of the candidates. */
  lemma QuietCut(audio: seq<real>, start: nat, end: nat)
    requires end - start > MAX_CHUNK && end <= |audio|
    ensures var p := ForceSplitPoint(audio, start, end);
      && p.QuietWindow? && Candidate(start, end, p.sample)
      && 1200 <= p.sample <= |audio| - 1200
      && (forall c :: Candidate(start, end, c) ==>
            && 1200 <= c <= |audio| - 1200
            && Loudness(audio, p.sample) <= Loudness(audio, c)
            && (c < p.sample ==> Loudness(audio, p.sample) < Loudness(audio, c)))
  {
    hide ForceSplitPoint, SearchStart, SearchEnd, Region, Energy, Loudness, Windows;
    ForcedCut(audio, start, end);
    RegionIs(audio, start, end);
    var region, p, s := Region(audio, start, end), ForceSplitPoint(audio, start, end), SearchStart(start, end);
    var q: nat :| q < Windows(|region|) && q * RMS_HOP + RMS_WINDOW <= |region|
      && p.sample == s + q * RMS_HOP + RMS_WINDOW / 2
      && (forall m :: 0 <= m < Windows(|region|) && m * RMS_HOP + RMS_WINDOW <= |region| ==>
            Energy(region, q) <= Energy(region, m) && (m < q ==> Energy(region, q) < Energy(region, m)));
    CandidateIs(start, end, p.sample, q);
    EnergyIsLoudness(audio, start, end, q);
    forall c | Candidate(start, end, c)
      ensures 1200 <= c <= |audio| - 1200
      ensures Loudness(audio, p.sample) <= Loudness(audio, c)
      ensures c < p.sample ==> Loudness(audio, p.sample) < Loudness(audio, c)
    {
      var m := CandidateIndex(start, end, c);
      EnergyIsLoudness(audio, start, end, m);
    }
  }

  lemma CandidateIs(start: nat, end: nat, centre: int, q: nat)
    requires end - start > MAX_CHUNK && centre == SearchStart(start, end) + q * 1200 + 1200
    requires var n := SearchEnd(start, end) - SearchStart(start, end); n > RMS_WINDOW && q < Windows(n)
    ensures Candidate(start, end, centre)
  {
    assert (centre - SearchStart(start, end)) % 1200 == 0;
  }

  lemma CandidateIndex(start: nat, end: nat, centre: int) returns (m: nat)
    requires end - start > MAX_CHUNK && Candidate(start, end, centre)
    ensures centre == SearchStart(start, end) + m * 1200 + 1200
    ensures var n := SearchEnd(start, end) - SearchStart(start, end); n > RMS_WINDOW && m < Windows(n)
    ensures m * 1200 + 2400 <= SearchEnd(start, end) - SearchStart(start, end)
  {
    m := (centre - SearchStart(start, end)) / 1200 - 1;
  }
}
