/** Cutting the recording into chunks of at most 24.9 s: voice activity first, finer
    activity inside long segments, and a forced cut at the quietest place otherwise.
    Times are sample positions at 16 kHz. */
module VadChunking {
  import opened Words

  const MAX_CHUNK: nat := 398400          // 24.9 s
  const WINDOW_START: nat := 320000       // 20 s
  const WINDOW_END: nat := 398400         // 24.9 s
  const TAIL_MARGIN: nat := 1600          // 0.1 s
  const RMS_WINDOW: nat := 2400           // 0.15 s
  const RMS_HOP: nat := 1200              // half a window
  const MIN_SPEECH: nat := 800            // 0.05 s

  datatype Interval = Interval(start: nat, end: nat) {
    function Length(): int { end - start }
  }

  /** The detector's answer on a stretch of audio; it may not be installed. */
  datatype Stamps = Unavailable | Found(stamps: seq<Interval>)
  type Detector = (seq<real>, nat) -> Stamps

  /** Ordered, disjoint intervals inside [lo, hi]. */
  ghost predicate Inside(s: seq<Interval>, lo: int, hi: int) {
    && (forall i :: 0 <= i < |s| ==> lo <= s[i].start <= s[i].end <= hi)
    && (forall i, j :: 0 <= i < j < |s| ==> s[i].end <= s[j].start)
  }

  ghost predicate NonEmpty(s: seq<Interval>) {
    forall i :: 0 <= i < |s| ==> s[i].start < s[i].end
  }

  /** What is assumed of the detector. */
  ghost predicate GoodDetector(vad: Detector) {
    forall audio: seq<real>, ms: nat :: GoodAnswer(vad(audio, ms), |audio|)
  }

  ghost predicate GoodAnswer(a: Stamps, n: nat) {
    a.Found? ==> Inside(a.stamps, 0, n)
  }

  function LongEnough(stamps: seq<Interval>): seq<Interval> {
    if stamps == [] then []
    else
      var last := stamps[|stamps| - 1];
      LongEnough(stamps[..|stamps| - 1]) + if last.Length() > MIN_SPEECH then [last] else []
  }

  /** Speech segments of a stretch; the whole stretch when nothing is long enough. */
  ghost function Speech(vad: Detector, audio: seq<real>, ms: nat): Option<seq<Interval>> {
    match vad(audio, ms)
    case Unavailable => None
    case Found(stamps) =>
      var segments := LongEnough(stamps);
      Some(if segments == [] then [Interval(0, |audio|)] else segments)
  }

  method SpeechSegments(vad: Detector, audio: seq<real>, ms: nat) returns (r: Option<seq<Interval>>)
    ensures r == Speech(vad, audio, ms)
  {
    var answer := vad(audio, ms);
    if answer.Unavailable? { return None; }
    var stamps := answer.stamps;
    if stamps == [] { return Some([Interval(0, |audio|)]); }
    var segments := [];
    for i := 0 to |stamps|
      invariant segments == LongEnough(stamps[..i])
    {
      assert stamps[..i + 1][..i] == stamps[..i];
      if stamps[i].Length() > MIN_SPEECH {
        segments := segments + [stamps[i]];
      }
    }
    assert stamps[..|stamps|] == stamps;
    r := Some(if segments == [] then [Interval(0, |audio|)] else segments);
  }

  lemma InsideAppend(s: seq<Interval>, x: Interval, lo: int, mid: int, hi: int)
    requires Inside(s, lo, mid) && mid <= x.start <= x.end <= hi && lo <= mid
    ensures Inside(s + [x], lo, hi)
  {
    var r := s + [x];
    forall i | 0 <= i < |r| - 1
      ensures r[i].end <= r[i + 1].start
    {
      if i + 1 < |s| { assert r[i] == s[i] && r[i + 1] == s[i + 1]; }
      else { assert r[i] == s[i] && r[i + 1] == x; }
    }
  }

  ghost function LastEnd(s: seq<Interval>): nat {
    if s == [] then 0 else s[|s| - 1].end
  }

  lemma {:induction false} LongEnoughInside(stamps: seq<Interval>, hi: nat)
    requires Inside(stamps, 0, hi)
    ensures var r := LongEnough(stamps);
      Inside(r, 0, LastEnd(stamps)) && Inside(r, 0, hi) && NonEmpty(r)
  {
    if stamps != [] {
      var init, last := stamps[..|stamps| - 1], stamps[|stamps| - 1];
      LongEnoughInside(init, hi);
      InsideAppend(LongEnough(init), last, 0, LastEnd(init), last.end);
    }
  }

  /** Exactly the stamps longer than 0.05 s are kept. */
  lemma {:induction false} LongEnoughKeeps(stamps: seq<Interval>)
    ensures forall x :: x in LongEnough(stamps) <==> x in stamps && x.Length() > MIN_SPEECH
  {
    if stamps != [] {
      LongEnoughKeeps(stamps[..|stamps| - 1]);
      assert stamps == stamps[..|stamps| - 1] + [stamps[|stamps| - 1]];
    }
  }

  /** Of several disjoint non-empty parts each is shorter than the whole. */
  lemma PartsAreShorter(s: seq<Interval>, n: nat, i: nat)
    requires Inside(s, 0, n) && NonEmpty(s) && |s| > 1 && i < |s|
    ensures s[i].Length() < n
  {
    if i + 1 < |s| { assert s[i].end <= s[i + 1].start < s[i + 1].end; }
    else { assert s[i - 1].start < s[i - 1].end <= s[i].start; }
  }

  /** Segments are ordered, disjoint and inside; non-empty unless the stretch is empty;
      if there is more than one, each is shorter than the stretch. */
  lemma SpeechInside(vad: Detector, audio: seq<real>, ms: nat)
    requires GoodDetector(vad)
    ensures var r := Speech(vad, audio, ms);
      r.Some? ==>
        && r.value != [] && Inside(r.value, 0, |audio|)
        && (|audio| > 0 ==> NonEmpty(r.value))
        && (|r.value| > 1 ==> Parts(r.value, |audio|))
  {
    assert GoodAnswer(vad(audio, ms), |audio|);
    var a := vad(audio, ms);
    if a.Found? {
      LongEnoughInside(a.stamps, |audio|);
      hide Inside, NonEmpty, Parts, LongEnough;
      WholeInside(|audio|);
      SeveralAreParts(LongEnough(a.stamps), |audio|);
    }
  }

  lemma WholeInside(n: nat)
    ensures Inside([Interval(0, n)], 0, n) && (n > 0 ==> NonEmpty([Interval(0, n)]))
  {
  }

  lemma SeveralAreParts(s: seq<Interval>, n: nat)
    requires Inside(s, 0, n) && NonEmpty(s)
    ensures |s| > 1 ==> Parts(s, n)
  {
    if |s| > 1 {
      forall i | 0 <= i < |s|
        ensures s[i].Length() < n
      {
        PartsAreShorter(s, n, i);
      }
    }
  }

  // ----- the forced cut

  /** The centre of a quiet window, or (for short or missing audio) the exact middle,
      which need not fall on a sample. */
  datatype SplitPoint = QuietWindow(sample: int) | Midpoint

  function SumSquares(s: seq<real>): real {
    if s == [] then 0.0 else SumSquares(s[..|s| - 1]) + s[|s| - 1] * s[|s| - 1]
  }

  /** Energy of the k-th scanned window; least where the root mean square is least. */
  function Energy(region: seq<real>, k: nat): real
    requires k * RMS_HOP + RMS_WINDOW <= |region|
  {
    SumSquares(region[k * RMS_HOP..k * RMS_HOP + RMS_WINDOW])
  }

  /** First of the windows 0..k with the least energy. */
  function Quietest(region: seq<real>, k: nat): (q: nat)
    requires k * RMS_HOP + RMS_WINDOW <= |region|
    ensures q <= k
    ensures forall m :: 0 <= m <= k ==> Energy(region, q) <= Energy(region, m)
    ensures forall m :: 0 <= m < q ==> Energy(region, q) < Energy(region, m)
  {
    if k == 0 then 0
    else
      var q := Quietest(region, k - 1);
      if Energy(region, k) < Energy(region, q) then k else q
  }

  function Clamp(i: int, n: nat): (r: nat)
    ensures r <= n
  {
    if i < 0 then 0 else if i > n then n else i
  }

  function SearchStart(start: nat, end: nat): int {
    start + if end - start < 2 * WINDOW_START then (end - start) / 2 else WINDOW_START
  }

  function SearchEnd(start: nat, end: nat): int {
    start + if end - start - TAIL_MARGIN < WINDOW_END then end - start - TAIL_MARGIN else WINDOW_END
  }

  function Region(audio: seq<real>, start: nat, end: nat): seq<real> {
    var s, e := Clamp(SearchStart(start, end), |audio|), Clamp(SearchEnd(start, end), |audio|);
    if s < e then audio[s..e] else []
  }

  /** Number of windows scanned in a region longer than one window. */
  function Windows(n: nat): nat
    requires n > RMS_WINDOW
  {
    (n - RMS_WINDOW + RMS_HOP - 1) / RMS_HOP
  }

  function ForceSplitPoint(audio: seq<real>, start: nat, end: nat): SplitPoint
    requires start <= end
  {
    var duration := end - start;
    var relStart2 := if duration < 2 * WINDOW_START then duration else 2 * WINDOW_START;
    if 2 * (SearchEnd(start, end) - start) <= relStart2 then Midpoint
    else
      var region := Region(audio, start, end);
      if |region| <= RMS_WINDOW then Midpoint
      else QuietWindow(SearchStart(start, end) + Quietest(region, Windows(|region|) - 1) * RMS_HOP + RMS_HOP)
  }

  /** For a segment over the limit and inside the audio neither midpoint fallback is taken:
      the cut is the centre of the first least-energy window, strictly inside the segment. The left
      part is under the limit, and never short; the right part is not empty. */
  lemma ForcedCut(audio: seq<real>, start: nat, end: nat)
    requires end - start > MAX_CHUNK && end <= |audio|
    ensures var region := Region(audio, start, end);
      var p := ForceSplitPoint(audio, start, end);
      && |region| > RMS_WINDOW && p.QuietWindow?
      && (exists q: nat ::
            && q < Windows(|region|) && q * RMS_HOP + RMS_WINDOW <= |region|
            && p.sample == SearchStart(start, end) + q * RMS_HOP + RMS_WINDOW / 2
            && (forall m :: 0 <= m < Windows(|region|) && m * RMS_HOP + RMS_WINDOW <= |region| ==>
                  Energy(region, q) <= Energy(region, m) && (m < q ==> Energy(region, q) < Energy(region, m))))
      && 200400 <= p.sample - start < MAX_CHUNK
      && end - p.sample > TAIL_MARGIN
  {
    var region := Region(audio, start, end);
    var w := Windows(|region|);
    assert (w - 1) * RMS_HOP < |region| - RMS_WINDOW;
    var q := Quietest(region, w - 1);
    assert q * RMS_HOP <= (w - 1) * RMS_HOP;
    assert ForceSplitPoint(audio, start, end) == QuietWindow(SearchStart(start, end) + q * RMS_HOP + RMS_HOP);
  }

  // ----- recursive splitting

  /** Pieces of the segment [start, end], as the recursion produces them. */
  ghost function SplitLong(vad: Detector, audio: seq<real>, start: nat, end: nat): seq<Interval>
    requires GoodDetector(vad)
    requires start <= end <= |audio|
    decreases end - start, 1
  {
    if end - start <= MAX_CHUNK then [Interval(start, end)]
    else
      var finer := Speech(vad, audio[start..end], 100);
      SpeechInside(vad, audio[start..end], 100);
      if finer.Some? && |finer.value| > 1 then
        var out := SplitAll(vad, audio, start, end, finer.value, |finer.value|);
        if AllShort(out) then out else SplitForced(vad, audio, start, end)
      else SplitForced(vad, audio, start, end)
  }

  ghost predicate AllShort(s: seq<Interval>) {
    forall i :: 0 <= i < |s| ==> s[i].Length() <= MAX_CHUNK
  }

  ghost function SplitForced(vad: Detector, audio: seq<real>, start: nat, end: nat): seq<Interval>
    requires GoodDetector(vad)
    requires start <= end <= |audio| && end - start > MAX_CHUNK
    decreases end - start, 0
  {
    ForcedCut(audio, start, end);
    var mid := ForceSplitPoint(audio, start, end).sample;
    SplitLong(vad, audio, start, mid) + SplitLong(vad, audio, mid, end)
  }

  /** The first i finer segments, each split in turn, back in the recording's time. */
  ghost function SplitAll(vad: Detector, audio: seq<real>, start: nat, end: nat, finer: seq<Interval>,
      i: nat): seq<Interval>
    requires GoodDetector(vad)
    requires start <= end <= |audio| && i <= |finer|
    requires Parts(finer, end - start)
    decreases end - start, 0, i
  {
    if i == 0 then []
    else
      SplitAll(vad, audio, start, end, finer, i - 1)
      + SplitLong(vad, audio, start + finer[i - 1].start, start + finer[i - 1].end)
  }

  /** Disjoint non-empty parts, each shorter than the whole. */
  ghost predicate Parts(s: seq<Interval>, n: nat) {
    Inside(s, 0, n) && NonEmpty(s) && forall i :: 0 <= i < |s| ==> s[i].Length() < n
  }

  lemma InsideConcat(a: seq<Interval>, b: seq<Interval>, lo: int, mid: int, mid': int, hi: int)
    requires Inside(a, lo, mid) && Inside(b, mid', hi) && lo <= mid <= mid' <= hi
    ensures Inside(a + b, lo, hi)
  {
    var c := a + b;
    forall i | 0 <= i < |c|
      ensures lo <= c[i].start <= c[i].end <= hi && (i + 1 < |c| ==> c[i].end <= c[i + 1].start)
    {
      if i < |a| {
        assert c[i] == a[i];
        if i + 1 < |a| { assert c[i + 1] == a[i + 1]; } else if i + 1 < |c| { assert c[i + 1] == b[0]; }
      } else {
        assert c[i] == b[i - |a|];
        if i + 1 < |c| { assert c[i + 1] == b[i + 1 - |a|]; }
      }
    }
  }

  /** A good splitting of [start, end]: at least one piece, in order, disjoint and inside,
      none over 24.9 s, and none empty unless the segment is. */
  ghost predicate GoodPieces(s: seq<Interval>, start: int, end: int) {
    && Inside(s, start, end)
    && AllShort(s)
    && (start < end ==> NonEmpty(s))
  }

  /** Good pieces of a stretch that is not empty. */
  ghost predicate Solid(s: seq<Interval>, lo: int, hi: int) {
    Inside(s, lo, hi) && AllShort(s) && NonEmpty(s)
  }

  lemma SolidConcat(a: seq<Interval>, b: seq<Interval>, lo: int, mid: int, mid': int, hi: int)
    requires Solid(a, lo, mid) && Solid(b, mid', hi) && lo <= mid <= mid' <= hi
    ensures Solid(a + b, lo, hi)
  {
    InsideConcat(a, b, lo, mid, mid', hi);
  }

  lemma GoodIsSolid(s: seq<Interval>, lo: int, hi: int)
    requires lo < hi
    ensures GoodPieces(s, lo, hi) <==> Solid(s, lo, hi)
  {
  }

  /** Every splitting is good; the re-check of finer pieces always succeeds. */
  lemma {:induction false} SplitLongGood(vad: Detector, audio: seq<real>, start: nat, end: nat)
    requires GoodDetector(vad)
    requires start <= end <= |audio|
    ensures var r := SplitLong(vad, audio, start, end);
      r != [] && GoodPieces(r, start, end)
    decreases end - start, 1
  {
    if end - start > MAX_CHUNK {
      var finer := Speech(vad, audio[start..end], 100);
      SpeechInside(vad, audio[start..end], 100);
      if finer.Some? && |finer.value| > 1 {
        SplitAllGood(vad, audio, start, end, finer.value, |finer.value|);
      } else {
        SplitForcedGood(vad, audio, start, end);
      }
    }
  }

  lemma {:induction false} SplitForcedGood(vad: Detector, audio: seq<real>, start: nat, end: nat)
    requires GoodDetector(vad)
    requires start <= end <= |audio| && end - start > MAX_CHUNK
    ensures var r := SplitForced(vad, audio, start, end);
      r != [] && GoodPieces(r, start, end)
    decreases end - start, 0
  {
    ForcedCut(audio, start, end);
    var mid := ForceSplitPoint(audio, start, end).sample;
    SplitLongGood(vad, audio, start, mid);
    SplitLongGood(vad, audio, mid, end);
    InsideConcat(SplitLong(vad, audio, start, mid), SplitLong(vad, audio, mid, end), start, mid, mid, end);
  }

  lemma NothingSolid(at: int)
    ensures Solid([], at, at)
  {
  }

  lemma PartAt(s: seq<Interval>, n: nat, i: nat)
    requires Parts(s, n) && i < |s|
    ensures s[i].start < s[i].end <= n && s[i].Length() < n
    ensures i > 0 ==> s[i - 1].end <= s[i].start
  {
  }

  /** The first i finer segments give good pieces up to where the i-th ends. */
  lemma {:induction false} SplitAllGood(vad: Detector, audio: seq<real>, start: nat, end: nat, finer: seq<Interval>,
      i: nat)
    requires GoodDetector(vad)
    requires start <= end <= |audio| && i <= |finer|
    requires Parts(finer, end - start)
    ensures var r := SplitAll(vad, audio, start, end, finer, i);
      && (i > 0 ==> r != [])
      && Solid(r, start, start + if i == 0 then 0 else finer[i - 1].end)
    decreases end - start, 0, i
  {
    hide SplitLong, Inside, AllShort, NonEmpty, GoodPieces;
    if i == 0 {
      NothingSolid(start);
    } else {
      PartAt(finer, end - start, i - 1);
      var cut := if i == 1 then 0 else finer[i - 2].end;
      var from, to := start + finer[i - 1].start, start + finer[i - 1].end;
      SplitAllGood(vad, audio, start, end, finer, i - 1);
      SplitLongGood(vad, audio, from, to);
      var a, b := SplitAll(vad, audio, start, end, finer, i - 1), SplitLong(vad, audio, from, to);
      GoodIsSolid(b, from, to);
      SolidConcat(a, b, start, start + cut, from, to);
    }
  }

  /** Several finer segments are always used: their pieces pass the re-check. */
  lemma FinerSplitIsTaken(vad: Detector, audio: seq<real>, start: nat, end: nat)
    requires GoodDetector(vad)
    requires start <= end <= |audio| && end - start > MAX_CHUNK
    requires var finer := Speech(vad, audio[start..end], 100); finer.Some? && |finer.value| > 1
    ensures var finer := Speech(vad, audio[start..end], 100).value;
      && Parts(finer, end - start)
      && AllShort(SplitAll(vad, audio, start, end, finer, |finer|))
      && SplitLong(vad, audio, start, end) == SplitAll(vad, audio, start, end, finer, |finer|)
  {
    hide Speech;
    SpeechInside(vad, audio[start..end], 100);
    var finer := Speech(vad, audio[start..end], 100).value;
    SplitAllGood(vad, audio, start, end, finer, |finer|);
  }

  // ----- when the detector finds nothing finer

  /** The detector finds at most one finer segment in [start, end] if that is over the limit,
      and in what each cut of it then leaves to its right. */
  ghost predicate NothingFiner(vad: Detector, audio: seq<real>, start: nat, end: nat)
    requires start <= end <= |audio|
    decreases end - start
  {
    end - start <= MAX_CHUNK || (
      && AtMostOne(Speech(vad, audio[start..end], 100))
      && (ForcedCut(audio, start, end);
          NothingFiner(vad, audio, ForceSplitPoint(audio, start, end).sample, end)))
  }

  ghost predicate AtMostOne(r: Option<seq<Interval>>) {
    r.Some? ==> |r.value| <= 1
  }

  /** The pieces cover [start, end] without gap or overlap. */
  ghost predicate Tiles(s: seq<Interval>, start: int, end: int) {
    && s != [] && s[0].start == start && s[|s| - 1].end == end
    && forall i, j :: 0 <= i && j == i + 1 && j < |s| ==> s[i].end == s[j].start
  }

  /** Without a finer split the pieces tile the segment, and there are at most
      1 + length / 12.525 s of them: only the part right of each cut is cut again. */
  lemma {:induction false} ForcedTiles(vad: Detector, audio: seq<real>, start: nat, end: nat)
    requires GoodDetector(vad)
    requires start <= end <= |audio| && NothingFiner(vad, audio, start, end)
    ensures var r := SplitLong(vad, audio, start, end);
      Tiles(r, start, end) && (|r| - 1) * 200400 <= end - start
    decreases end - start
  {
    if end - start > MAX_CHUNK {
      ForcedCut(audio, start, end);
      var mid := ForceSplitPoint(audio, start, end).sample;
      ForcedTiles(vad, audio, mid, end);
      var right := SplitLong(vad, audio, mid, end);
      assert SplitLong(vad, audio, start, mid) == [Interval(start, mid)];
      assert SplitForced(vad, audio, start, end) == [Interval(start, mid)] + right;
      TilesCons(Interval(start, mid), right, end);
    }
  }

  lemma TilesCons(x: Interval, s: seq<Interval>, end: int)
    requires Tiles(s, x.end, end)
    ensures Tiles([x] + s, x.start, end)
  {
    var r := [x] + s;
    forall i | 0 <= i < |r| - 1
      ensures r[i].end == r[i + 1].start
    {
      if i > 0 { assert r[i] == s[i - 1] && r[i + 1] == s[i]; }
    }
  }

  // ----- the methods

  method SplitLongSegment(vad: Detector, audio: seq<real>, start: nat, end: nat) returns (r: seq<Interval>)
    requires GoodDetector(vad)
    requires start <= end <= |audio|
    ensures r == SplitLong(vad, audio, start, end)
    decreases end - start, 1
  {
    if end - start <= MAX_CHUNK {
      return [Interval(start, end)];
    }
    var finer := SpeechSegments(vad, audio[start..end], 100);
    SpeechInside(vad, audio[start..end], 100);
    if finer.Some? && |finer.value| > 1 {
      r := SplitFiner(vad, audio, start, end, finer.value);
      if forall p :: p in r ==> p.Length() <= MAX_CHUNK {
        assert AllShort(r);
        return;
      }
      assert !AllShort(r);
    }
    ForcedCut(audio, start, end);
    var mid := ForceSplitPoint(audio, start, end).sample;
    var left := SplitLongSegment(vad, audio, start, mid);
    var right := SplitLongSegment(vad, audio, mid, end);
    r := left + right;
  }

  method SplitFiner(vad: Detector, audio: seq<real>, start: nat, end: nat, finer: seq<Interval>)
    returns (out: seq<Interval>)
    requires GoodDetector(vad)
    requires start <= end <= |audio|
    requires Parts(finer, end - start)
    ensures out == SplitAll(vad, audio, start, end, finer, |finer|)
    decreases end - start, 0
  {
    hide SplitLong;
    out := [];
    for i := 0 to |finer|
      invariant out == SplitAll(vad, audio, start, end, finer, i)
    {
      assert finer[i].Length() < end - start;
      var pieces := SplitLongSegment(vad, audio, start + finer[i].start, start + finer[i].end);
      out := out + pieces;
    }
  }

  ghost function SplitSegments(vad: Detector, audio: seq<real>, raw: seq<Interval>): seq<Interval>
    requires GoodDetector(vad) && Inside(raw, 0, |audio|)
  {
    if raw == [] then []
    else
      var last := raw[|raw| - 1];
      SplitSegments(vad, audio, raw[..|raw| - 1]) + SplitLong(vad, audio, last.start, last.end)
  }

  /** All chunks of a recording; none without a detector. */
  ghost function Chunks(vad: Detector, audio: seq<real>): Option<seq<Interval>>
    requires GoodDetector(vad)
  {
    SpeechInside(vad, audio, 300);
    var raw := Speech(vad, audio, 300);
    if raw.None? then None else Some(SplitSegments(vad, audio, raw.value))
  }

  lemma NothingSplit()
    ensures Inside([], 0, 0) && AllShort([]) && NonEmpty([])
  {
  }

  lemma RawInit(raw: seq<Interval>, hi: int)
    requires Inside(raw, 0, hi) && raw != []
    ensures var init, last := raw[..|raw| - 1], raw[|raw| - 1];
      && Inside(init, 0, hi) && 0 <= LastEnd(init) <= last.start <= last.end <= hi
      && (NonEmpty(raw) ==> NonEmpty(init) && last.start < last.end)
  {
  }

  lemma BothShort(a: seq<Interval>, b: seq<Interval>)
    requires AllShort(a) && AllShort(b)
    ensures AllShort(a + b)
    ensures NonEmpty(a) && NonEmpty(b) ==> NonEmpty(a + b)
  {
  }

  lemma {:induction false} SplitSegmentsGood(vad: Detector, audio: seq<real>, raw: seq<Interval>)
    requires GoodDetector(vad) && Inside(raw, 0, |audio|)
    ensures var r := SplitSegments(vad, audio, raw);
      && Inside(r, 0, LastEnd(raw)) && AllShort(r)
      && (NonEmpty(raw) ==> NonEmpty(r))
      && (raw != [] ==> r != [])
  {
    hide SplitLong, Inside, AllShort, NonEmpty;
    if raw == [] {
      NothingSplit();
    } else {
      var init, last := raw[..|raw| - 1], raw[|raw| - 1];
      RawInit(raw, |audio|);
      SplitSegmentsGood(vad, audio, init);
      SplitLongGood(vad, audio, last.start, last.end);
      BothShort(SplitSegments(vad, audio, init), SplitLong(vad, audio, last.start, last.end));
      InsideConcat(SplitSegments(vad, audio, init), SplitLong(vad, audio, last.start, last.end),
        0, LastEnd(init), last.start, last.end);
    }
  }

  /** Chunks of any recording: ordered, disjoint, inside it and at most 24.9 s long; at least
      one, and no empty one unless the recording is empty. */
  lemma ChunksGood(vad: Detector, audio: seq<real>)
    requires GoodDetector(vad)
    ensures var r := Chunks(vad, audio);
      r.Some? ==> r.value != [] && GoodPieces(r.value, 0, |audio|)
  {
    SpeechInside(vad, audio, 300);
    var raw := Speech(vad, audio, 300);
    if raw.Some? {
      SplitSegmentsGood(vad, audio, raw.value);
      assert LastEnd(raw.value) <= |audio|;
    }
  }

  /** A chunk file: its number, its place and its samples. */
  datatype AudioChunk = AudioChunk(chunkId: nat, place: Interval, samples: seq<real>)

  method SplitRaw(vad: Detector, audio: seq<real>, raw: seq<Interval>) returns (final: seq<Interval>)
    requires GoodDetector(vad) && Inside(raw, 0, |audio|)
    ensures final == SplitSegments(vad, audio, raw)
  {
    hide SplitLong;
    final := [];
    for i := 0 to |raw|
      invariant final == SplitSegments(vad, audio, raw[..i])
    {
      assert raw[..i + 1][..i] == raw[..i];
      var pieces := SplitLongSegment(vad, audio, raw[i].start, raw[i].end);
      final := final + pieces;
    }
    assert raw[..|raw|] == raw;
  }

  /** The first n chunk records, numbered in order, each with its own stretch of samples. */
  ghost predicate Cut(chunks: seq<AudioChunk>, pieces: seq<Interval>, audio: seq<real>, n: nat) {
    && |chunks| == n <= |pieces|
    && forall i :: 0 <= i < n ==> IsChunk(chunks[i], i, pieces[i], audio)
  }

  ghost predicate IsChunk(c: AudioChunk, i: nat, p: Interval, audio: seq<real>) {
    p.start <= p.end <= |audio| && c == AudioChunk(i, p, audio[p.start..p.end])
  }

  /** The records of these pieces. */
  ghost function Records(pieces: seq<Interval>, audio: seq<real>): (r: seq<AudioChunk>)
    requires GoodPieces(pieces, 0, |audio|)
    ensures Cut(r, pieces, audio, |pieces|)
  {
    seq(|pieces|, i requires 0 <= i < |pieces| => AudioChunk(i, pieces[i], audio[pieces[i].start..pieces[i].end]))
  }

  /** What chunking makes of a recording. */
  ghost function ChunkRecords(vad: Detector, audio: seq<real>): Option<seq<AudioChunk>>
    requires GoodDetector(vad)
  {
    ChunksGood(vad, audio);
    if Chunks(vad, audio).None? then None else Some(Records(Chunks(vad, audio).value, audio))
  }

  lemma CutUnique(a: seq<AudioChunk>, b: seq<AudioChunk>, pieces: seq<Interval>, audio: seq<real>)
    requires Cut(a, pieces, audio, |pieces|) && Cut(b, pieces, audio, |pieces|)
    ensures a == b
  {
    forall i | 0 <= i < |a|
      ensures a[i] == b[i]
    {
      assert IsChunk(a[i], i, pieces[i], audio) && IsChunk(b[i], i, pieces[i], audio);
    }
  }

  lemma PieceFits(s: seq<Interval>, n: nat, i: nat)
    requires GoodPieces(s, 0, n) && i < |s|
    ensures s[i].start <= s[i].end <= n && s[i].Length() <= MAX_CHUNK
  {
  }

  method WriteChunks(audio: seq<real>, final: seq<Interval>) returns (chunks: seq<AudioChunk>)
    requires GoodPieces(final, 0, |audio|)
    ensures Cut(chunks, final, audio, |final|)
  {
    hide GoodPieces;
    chunks := [];
    for idx := 0 to |final|
      invariant Cut(chunks, final, audio, idx)
    {
      PieceFits(final, |audio|, idx);
      var p := final[idx];
      assert p.Length() <= MAX_CHUNK;   // the assertion of chunk_audio, which never fires
      chunks := chunks + [AudioChunk(idx, p, audio[p.start..p.end])];
    }
  }

  method ChunkAudio(vad: Detector, audio: seq<real>) returns (chunks: Option<seq<AudioChunk>>)
    requires GoodDetector(vad)
    ensures chunks.None? <==> Chunks(vad, audio).None?
    ensures chunks.Some? ==> Cut(chunks.value, Chunks(vad, audio).value, audio, |Chunks(vad, audio).value|)
    ensures chunks == ChunkRecords(vad, audio)
  {
    var raw := SpeechSegments(vad, audio, 300);
    SpeechInside(vad, audio, 300);
    ChunksGood(vad, audio);
    if raw.None? { return None; }
    var final := SplitRaw(vad, audio, raw.value);
    var list := WriteChunks(audio, final);
    CutUnique(list, Records(final, audio), final, audio);
    chunks := Some(list);
  }
}
