/** What the nodes of an aligned chunk say: which targets each word has among the aligner's, and the times,
    the score and the tag that come of it on every branch. */
module AlignedTimes {
  import opened Words
  import opened ParseText
  import opened SpreadClusters
  import opened SpreadTimes
  import opened Anchors
  import opened Interpolation
  import opened Alignment
  import opened AlignChunks

  // ----- the targets

  /** The characters of a word that are aligned: all of them, in lower case, if the vocabulary covers the word. */
  function Aligns(lex: Lexicon, tw: TokenWord): string {
    if InVocab(lex, tw.letters) then lex.lower(tw.letters) else ""
  }

  /** How many targets the words before position i have. */
  function FirstTarget(lex: Lexicon, tokens: seq<TokenWord>, i: nat): nat
    requires i <= |tokens|
  {
    if i == 0 then 0 else FirstTarget(lex, tokens, i - 1) + |Aligns(lex, tokens[i - 1])|
  }

  ghost function Targets(lex: Lexicon, tokens: seq<TokenWord>, n: nat): seq<int>
    requires n <= |tokens|
  {
    Ids(lex, Seconds(Alignable(lex, tokens, n)))
  }

  lemma {:induction false} WordIdsAre(lex: Lexicon, s: string)
    requires forall c :: c in s ==> c in lex.vocab
    ensures |WordIds(lex, s)| == |s| && forall k :: 0 <= k < |s| ==> WordIds(lex, s)[k] == lex.vocab[s[k]]
  {
    if s != "" {
      WordIdsAre(lex, s[..|s| - 1]);
      assert s[|s| - 1] in s;
    }
  }

  lemma TargetsNext(lex: Lexicon, tokens: seq<TokenWord>, n: nat)
    requires n < |tokens|
    ensures Targets(lex, tokens, n + 1) == Targets(lex, tokens, n) + WordIds(lex, Aligns(lex, tokens[n]))
  {
    hide InVocab, WordIds;
    var a, b := Alignable(lex, tokens, n), Alignable(lex, tokens, n + 1);
    if InVocab(lex, tokens[n].letters) {
      assert Seconds(b)[..|b| - 1] == Seconds(a);
    } else {
      assert b == a;
      NoWordIds(lex);
    }
  }

  lemma NoWordIds(lex: Lexicon)
    ensures WordIds(lex, "") == []
  {
  }

  lemma AlignsInVocab(lex: Lexicon, tw: TokenWord)
    ensures forall c :: c in Aligns(lex, tw) ==> c in lex.vocab
  {
  }

  /** The aligner is asked for the vocabulary's ids of the words' characters, word after word and character after
      character: word i's begin where those of the words before it end. */
  lemma {:induction false} TargetsAre(lex: Lexicon, tokens: seq<TokenWord>, n: nat)
    requires n <= |tokens|
    ensures |Targets(lex, tokens, n)| == CharsBefore(lex, tokens, n) == FirstTarget(lex, tokens, n)
    ensures forall i, k :: 0 <= i < n && 0 <= k < |Aligns(lex, tokens[i])| ==>
      TargetAt(lex, tokens, Targets(lex, tokens, n), i, k)
  {
    hide Targets, Aligns, WordIds, Ids, Alignable;
    if n == 0 {
      NoTargets(lex, tokens);
    } else {
      TargetsAre(lex, tokens, n - 1);
      TargetsNext(lex, tokens, n - 1);
      AlignsInVocab(lex, tokens[n - 1]);
      WordIdsAre(lex, Aligns(lex, tokens[n - 1]));
      CharsAreTargets(lex, tokens, n);
      forall i, k | 0 <= i < n && 0 <= k < |Aligns(lex, tokens[i])|
        ensures TargetAt(lex, tokens, Targets(lex, tokens, n), i, k)
      {
        if i < n - 1 { assert TargetAt(lex, tokens, Targets(lex, tokens, n - 1), i, k); }
      }
    }
  }

  ghost predicate TargetAt(lex: Lexicon, tokens: seq<TokenWord>, ids: seq<int>, i: nat, k: nat)
    requires i < |tokens| && k < |Aligns(lex, tokens[i])|
  {
    var at, c := FirstTarget(lex, tokens, i) + k, Aligns(lex, tokens[i])[k];
    at < |ids| && c in lex.vocab && ids[at] == lex.vocab[c]
  }

  lemma NoTargets(lex: Lexicon, tokens: seq<TokenWord>)
    ensures Targets(lex, tokens, 0) == [] && CharsBefore(lex, tokens, 0) == 0
  {
  }

  lemma CharsAreTargets(lex: Lexicon, tokens: seq<TokenWord>, n: nat)
    requires n <= |tokens|
    ensures CharsBefore(lex, tokens, n) == |Targets(lex, tokens, n)|
  {
  }

  lemma {:induction false} TargetsRise(lex: Lexicon, tokens: seq<TokenWord>, i: nat, j: nat)
    requires i <= j <= |tokens|
    ensures FirstTarget(lex, tokens, i) <= FirstTarget(lex, tokens, j)
    decreases j
  {
    if i < j { TargetsRise(lex, tokens, i, j - 1); }
  }

  // ----- the aligner has answered every target

  /** What the aligner is asked, and what it answers. */
  ghost function Answer(lex: Lexicon, chunk: Chunk): AlignerRun {
    var tokens := Parse(lex.isWord, chunk.text);
    chunk.aligner(Targets(lex, tokens, |tokens|))
  }

  /** Some word has targets, and the aligner answers with as many spans as there are targets. */
  ghost predicate AllAnswered(lex: Lexicon, chunk: Chunk) {
    var tokens := Parse(lex.isWord, chunk.text);
    var n, outcome := FirstTarget(lex, tokens, |tokens|), Answer(lex, chunk).outcome;
    n > 0 && outcome.Merged? && |outcome.spans| == n
  }

  lemma AnsweredIsAnchored(lex: Lexicon, chunk: Chunk)
    requires AllAnswered(lex, chunk)
    ensures var tokens := Parse(lex.isWord, chunk.text);
      var unit := FrameDur(Answer(lex, chunk).frames, chunk.audioDur);
      PlacementOf(lex, chunk, tokens) ==
        Anchored(AnchorMap(lex, tokens, Answer(lex, chunk).outcome.spans, unit, chunk.audioDur))
  {
    hide Parse, AnchorMap, FrameDur;
    var tokens := Parse(lex.isWord, chunk.text);
    TargetsAre(lex, tokens, |tokens|);
    NoneAlignable(lex, tokens);
  }

  lemma NoneAlignable(lex: Lexicon, tokens: seq<TokenWord>)
    ensures Alignable(lex, tokens, |tokens|) == [] ==> Targets(lex, tokens, |tokens|) == []
  {
  }

  /** Each word's spans are its own targets'. */
  lemma OwnSpans(lex: Lexicon, tokens: seq<TokenWord>, spans: seq<Span>, i: nat)
    requires i < |tokens| && |spans| == FirstTarget(lex, tokens, |tokens|)
    ensures var from, to := FirstTarget(lex, tokens, i), FirstTarget(lex, tokens, i + 1);
      from <= to <= |spans| && WordSpans(lex, tokens, spans, i) == spans[from..to]
  {
    hide Aligns, CharsBefore;
    TargetsAre(lex, tokens, i);
    TargetsAre(lex, tokens, i + 1);
    TargetsRise(lex, tokens, i + 1, |tokens|);
    TargetsRise(lex, tokens, i, i + 1);
  }

  /** The frames of a chunk share its audio equally. */
  lemma FrameTime(frame: nat, frames: nat, audioDur: real)
    requires frames > 0
    ensures Time(frame, FrameDur(frames, audioDur)) * frames as real == frame as real * audioDur
  {
    var n, f := frames as real, frame as real;
    var unit := audioDur / n;
    assert unit * n == audioDur;
    Regroup(f, unit, n);
  }

  lemma Regroup(f: real, unit: real, n: real)
    ensures f * unit * n == f * (unit * n)
  {
  }

  /** The word's node is the anchor of its own spans. */
  lemma AlignedNode(lex: Lexicon, chunk: Chunk, i: nat)
    requires AllAnswered(lex, chunk) && i < |Parse(lex.isWord, chunk.text)|
    ensures var tokens, run := Parse(lex.isWord, chunk.text), Answer(lex, chunk);
      var from, to := FirstTarget(lex, tokens, i), FirstTarget(lex, tokens, i + 1);
      && run.outcome.Merged? && from <= to <= |run.outcome.spans| && to - from == |Aligns(lex, tokens[i])|
      && |Aligned(lex, chunk)| == |tokens|
      && (from < to ==>
            Aligned(lex, chunk)[i] == AnchorNode(tokens[i], run.outcome.spans[from..to],
              FrameDur(run.frames, chunk.audioDur), chunk.audioDur))
  {
    hide Parse, Aligns, AnchorNode, FrameDur, Aligned, Completed, AnchorMap, WordSpans;
    var tokens, run := Parse(lex.isWord, chunk.text), Answer(lex, chunk);
    AlignedIs(lex, chunk);
    OwnSpans(lex, tokens, run.outcome.spans, i);
    var unit := FrameDur(run.frames, chunk.audioDur);
    InMap(lex, tokens, run.outcome.spans, unit, chunk.audioDur, i);
    CompletedAt(tokens, AnchorMap(lex, tokens, run.outcome.spans, unit, chunk.audioDur), chunk.audioDur, i);
  }

  lemma AlignedIs(lex: Lexicon, chunk: Chunk)
    requires AllAnswered(lex, chunk)
    ensures var tokens, run := Parse(lex.isWord, chunk.text), Answer(lex, chunk);
      Aligned(lex, chunk) == Completed(tokens, AnchorMap(lex, tokens, run.outcome.spans,
        FrameDur(run.frames, chunk.audioDur), chunk.audioDur), chunk.audioDur)
  {
    hide Parse, FrameDur, Completed, AnchorMap, PlacementOf;
    AnsweredIsAnchored(lex, chunk);
  }

  lemma InMap(lex: Lexicon, tokens: seq<TokenWord>, spans: seq<Span>, unit: real, audioDur: real, i: nat)
    requires i < |tokens|
    ensures var own, anchors := WordSpans(lex, tokens, spans, i), AnchorMap(lex, tokens, spans, unit, audioDur);
      (i in anchors <==> own != []) && (own != [] ==> anchors[i] == AnchorNode(tokens[i], own, unit, audioDur))
  {
    hide WordSpans, AnchorNode;
  }

  lemma NodeTimes(tw: TokenWord, own: seq<Span>, frames: nat, audioDur: real)
    requires own != [] && Monotone(own, frames) && audioDur >= 0.0
    ensures var n := AnchorNode(tw, own, FrameDur(frames, audioDur), audioDur);
      && frames > 0
      && n.start * frames as real == own[0].start as real * audioDur
      && n.end * frames as real == own[|own| - 1].end as real * audioDur
  {
    assert own[0].start < own[0].end <= frames;
    hide AnchorNode, Time, FrameDur;
    UnitFits(frames, audioDur);
    AnchorBounds(tw, own, frames, FrameDur(frames, audioDur), audioDur);
    FrameTime(own[0].start, frames, audioDur);
    FrameTime(own[|own| - 1].end, frames, audioDur);
  }

  /** Every word that the aligner was asked for begins with the first frame of its first character and ends with the
      last frame of its last one, the frames sharing the chunk's audio equally. */
  lemma AlignedTimes(lex: Lexicon, chunk: Chunk, i: nat)
    requires GoodChunk(chunk) && AllAnswered(lex, chunk)
    requires i < |Parse(lex.isWord, chunk.text)| && Aligns(lex, Parse(lex.isWord, chunk.text)[i]) != ""
    ensures var tokens, run := Parse(lex.isWord, chunk.text), Answer(lex, chunk);
      var from, to := FirstTarget(lex, tokens, i), FirstTarget(lex, tokens, i + 1);
      && from < to <= |run.outcome.spans| && i < |Aligned(lex, chunk)| && run.frames > 0
      && Aligned(lex, chunk)[i].start * run.frames as real == run.outcome.spans[from].start as real * chunk.audioDur
      && Aligned(lex, chunk)[i].end * run.frames as real == run.outcome.spans[to - 1].end as real * chunk.audioDur
  {
    hide Parse, Aligns, AnchorNode, FrameDur, Aligned, Answer, AllAnswered, GoodChunk, FirstTarget, Monotone;
    var tokens, run := Parse(lex.isWord, chunk.text), Answer(lex, chunk);
    AnsweredSpans(lex, chunk);
    AlignedNode(lex, chunk, i);
    var from, to := FirstTarget(lex, tokens, i), FirstTarget(lex, tokens, i + 1);
    SliceIs(run.outcome.spans, run.frames, from, to);
    NodeTimes(tokens[i], run.outcome.spans[from..to], run.frames, chunk.audioDur);
  }

  ghost predicate MeanOf(s: real, sum: real, n: nat) {
    0.0 <= s <= 1.0 && if sum < 0.0 then s == 0.0 else if sum > n as real then s == 1.0 else s * n as real == sum
  }

  /** A score is the mean, cut off at 0 and 1. */
  lemma ScoreMeans(spans: seq<Span>)
    requires spans != []
    ensures MeanOf(Score(spans), ScoreSum(spans), |spans|)
  {
    hide ScoreSum;
    var sum, n := ScoreSum(spans), |spans| as real;
    var m := sum / n;
    assert m * n == sum;
    if m < 0.0 { Scaled(m, 0.0, n); }
    if m > 1.0 { Scaled(1.0, m, n); }
  }

  /** Its score is the mean of its characters' scores, cut off at 0 and 1, and it is marked exactly when that is below
      0.60. */
  lemma AlignedScores(lex: Lexicon, chunk: Chunk, i: nat)
    requires AllAnswered(lex, chunk)
    requires i < |Parse(lex.isWord, chunk.text)| && Aligns(lex, Parse(lex.isWord, chunk.text)[i]) != ""
    ensures var tokens, run := Parse(lex.isWord, chunk.text), Answer(lex, chunk);
      var from, to := FirstTarget(lex, tokens, i), FirstTarget(lex, tokens, i + 1);
      && from < to <= |run.outcome.spans| && i < |Aligned(lex, chunk)|
      && MeanOf(Aligned(lex, chunk)[i].score, ScoreSum(run.outcome.spans[from..to]), |Aligns(lex, tokens[i])|)
      && Aligned(lex, chunk)[i].tag == if Aligned(lex, chunk)[i].score < 0.60 then Some("low_conf") else None
  {
    hide Parse, Aligns, Time, FrameDur, Aligned, Answer, AllAnswered, FirstTarget, ScoreSum, Score;
    var tokens, run := Parse(lex.isWord, chunk.text), Answer(lex, chunk);
    AlignedNode(lex, chunk, i);
    var own := run.outcome.spans[FirstTarget(lex, tokens, i)..FirstTarget(lex, tokens, i + 1)];
    ScoreMeans(own);
  }

  lemma SliceIs(spans: seq<Span>, frames: nat, from: nat, to: nat)
    requires Monotone(spans, frames) && from <= to <= |spans|
    ensures Monotone(spans[from..to], frames)
  {
    var s := spans[from..to];
    assert forall k :: 0 <= k < |s| ==> s[k] == spans[from + k];
  }

  lemma AnsweredSpans(lex: Lexicon, chunk: Chunk)
    requires GoodChunk(chunk) && AllAnswered(lex, chunk)
    ensures Answer(lex, chunk).outcome.Merged? && chunk.audioDur >= 0.0
    ensures Monotone(Answer(lex, chunk).outcome.spans, Answer(lex, chunk).frames)
  {
    assert GoodRun(Answer(lex, chunk));
  }

  lemma UnitFits(frames: nat, audioDur: real)
    requires audioDur >= 0.0
    ensures FrameDur(frames, audioDur) >= 0.0 && Time(frames, FrameDur(frames, audioDur)) <= audioDur
  {
    FrameDurFits(frames, audioDur);
  }

  /** Scores add up over spans. */
  lemma {:induction false} ScoreSumAdds(a: seq<Span>, b: seq<Span>)
    ensures ScoreSum(a + b) == ScoreSum(a) + ScoreSum(b)
    ensures forall x: Span :: ScoreSum([x]) == x.score
  {
    forall x: Span
      ensures ScoreSum([x]) == x.score
    {
      assert [x][..0] == [];
    }
    if b == [] {
      assert a + b == a;
    } else {
      ScoreSumAdds(a, b[..|b| - 1]);
      assert (a + b)[..|a + b| - 1] == a + b[..|b| - 1];
    }
  }

  // ----- words without targets

  /** Between the word before and the one after, or the chunk's ends, as far from the one as from the other; marked as
      unaligned, with score 0.5. */
  ghost predicate Midway(r: seq<Node>, i: nat, audioDur: real)
    requires i < |r|
  {
    var before := if i == 0 then 0.0 else r[i - 1].end;
    var after := if i + 1 == |r| then audioDur else r[i + 1].start;
    && r[i].start == r[i].end && r[i].start - before == after - r[i].start
    && r[i].score == 0.5 && r[i].tag == Some("unaligned")
  }

  lemma GapEdges(tokens: seq<TokenWord>, anchors: map<nat, Node>, audioDur: real, i: nat)
    requires audioDur >= 0.0 && AnchorsOrdered(anchors, audioDur)
    requires i < |tokens| && i !in anchors
    ensures var g := GapAt(tokens, anchors, audioDur, i);
      && (i == 0 ==> g.lo == 0 && g.prevEnd == 0.0)
      && (i + 1 == |tokens| ==> g.hi == i && g.nextStart == audioDur)
      && (i > 0 && i - 1 in anchors ==> g.lo == i && g.prevEnd == anchors[i - 1].end)
      && (i + 1 < |tokens| && i + 1 in anchors ==> g.hi == i && g.nextStart == anchors[i + 1].start)
  {
    GapAround(tokens, anchors, audioDur, i);
  }

  lemma CompletedAt(tokens: seq<TokenWord>, anchors: map<nat, Node>, audioDur: real, i: nat)
    requires i < |tokens|
    ensures Completed(tokens, anchors, audioDur)[i] ==
      if i in anchors then anchors[i] else GapNode(tokens, GapAt(tokens, anchors, audioDur, i), i)
  {
    hide GapNode;
  }

  lemma SlotStep(base: real, k: nat, step: real)
    ensures Slot(base, k + 1, step) == Slot(base, k, step) + step
    ensures Slot(base, 0, step) == base
  {
  }

  /** The words of a gap, and its two ends, are one step apart. */
  lemma CompletedMidway(tokens: seq<TokenWord>, anchors: map<nat, Node>, audioDur: real, i: nat)
    requires audioDur >= 0.0 && AnchorsOrdered(anchors, audioDur)
    requires i < |tokens| && i !in anchors
    ensures Midway(Completed(tokens, anchors, audioDur), i, audioDur)
  {
    hide Completed, GapAt, AnchorsOrdered, Slot, StepIn;
    var g := GapAt(tokens, anchors, audioDur, i);
    var count, k := g.hi - g.lo + 1, i - g.lo;
    var step := StepIn(g.prevEnd, g.nextStart, count);
    GapEdges(tokens, anchors, audioDur, i);
    GapAround(tokens, anchors, audioDur, i);
    CompletedAt(tokens, anchors, audioDur, i);
    StepFills(g.prevEnd, g.nextStart, count);
    SlotStep(g.prevEnd, k, step);
    SlotStep(g.prevEnd, k + 1, step);
    if i > 0 {
      CompletedAt(tokens, anchors, audioDur, i - 1);
      if i - 1 !in anchors { SameGap(tokens, anchors, audioDur, i - 1); }
    }
    if i + 1 < |tokens| {
      CompletedAt(tokens, anchors, audioDur, i + 1);
      if i + 1 !in anchors { SameGap(tokens, anchors, audioDur, i); }
    }
  }

  /** Whether or not any word has targets: a word that has none, on the branch where all targets were answered or there
      was no word to align, stands midway between its neighbours. */
  lemma AlignedMidway(lex: Lexicon, chunk: Chunk, i: nat)
    requires GoodChunk(chunk) && i < |Parse(lex.isWord, chunk.text)|
    requires AllAnswered(lex, chunk) || (forall tw :: tw in Parse(lex.isWord, chunk.text) ==> !InVocab(lex, tw.letters))
    requires Aligns(lex, Parse(lex.isWord, chunk.text)[i]) == ""
    ensures |Aligned(lex, chunk)| == |Parse(lex.isWord, chunk.text)| && Midway(Aligned(lex, chunk), i, chunk.audioDur)
  {
    hide Parse, Completed, AnchorMap, FrameDur, Midway;
    var tokens := Parse(lex.isWord, chunk.text);
    PlacementOrdered(lex, chunk, tokens);
    if AllAnswered(lex, chunk) {
      AnsweredIsAnchored(lex, chunk);
      OwnSpans(lex, tokens, Answer(lex, chunk).outcome.spans, i);
      InMap(lex, tokens, Answer(lex, chunk).outcome.spans, FrameDur(Answer(lex, chunk).frames, chunk.audioDur),
        chunk.audioDur, i);
      CompletedMidway(tokens, PlacementOf(lex, chunk, tokens).anchors, chunk.audioDur, i);
    } else {
      NoneInVocab(lex, tokens, |tokens|);
      CompletedMidway(tokens, map[], chunk.audioDur, i);
    }
  }

  lemma {:induction false} NoneInVocab(lex: Lexicon, tokens: seq<TokenWord>, n: nat)
    requires n <= |tokens| && forall tw :: tw in tokens ==> !InVocab(lex, tw.letters)
    ensures Alignable(lex, tokens, n) == []
  {
    if n > 0 { NoneInVocab(lex, tokens, n - 1); }
  }

  // ----- the other branches

  /** With words to align but no targets, or no span for each of them, whichever call of the aligner failed, all words
      share the chunk equally, from its start to its end. */
  lemma AlignedEvenly(lex: Lexicon, chunk: Chunk) returns (step: real)
    requires exists tw :: tw in Parse(lex.isWord, chunk.text) && InVocab(lex, tw.letters)
    requires !AllAnswered(lex, chunk) && chunk.audioDur > 0.0
    ensures var r := Aligned(lex, chunk);
      && |r| as real * step == chunk.audioDur && r != []
      && r[0].start == 0.0 && r[|r| - 1].end == chunk.audioDur
      && (forall i, j :: 0 <= i && j == i + 1 && j < |r| ==> r[i].end == r[j].start)
      && (forall i :: 0 <= i < |r| ==>
            r[i].end == r[i].start + step && r[i].score == 0.5 && r[i].tag == Some("unaligned"))
  {
    hide Parse, Evenly, PlacementOf, AllAnswered;
    PlacedEvenly(lex, chunk);
    var tokens := Parse(lex.isWord, chunk.text);
    step := EvenlyTiles(tokens, chunk.audioDur);
    EvenMarks(tokens, chunk.audioDur);
  }

  lemma PlacedEvenly(lex: Lexicon, chunk: Chunk)
    requires exists tw :: tw in Parse(lex.isWord, chunk.text) && InVocab(lex, tw.letters)
    requires !AllAnswered(lex, chunk)
    ensures PlacementOf(lex, chunk, Parse(lex.isWord, chunk.text)) == Even && Parse(lex.isWord, chunk.text) != []
  {
    hide Parse, InVocab, FirstTarget, AnchorMap;
    var tokens := Parse(lex.isWord, chunk.text);
    TargetsAre(lex, tokens, |tokens|);
    SomeAlignable(lex, tokens);
  }

  lemma SomeAlignable(lex: Lexicon, tokens: seq<TokenWord>)
    requires exists tw :: tw in tokens && InVocab(lex, tw.letters)
    ensures Alignable(lex, tokens, |tokens|) != [] && tokens != []
  {
    hide InVocab, Alignable;
    var tw :| tw in tokens && InVocab(lex, tw.letters);
    var i :| 0 <= i < |tokens| && tokens[i] == tw;
    var k := AlignableCovers(lex, tokens, |tokens|, i);
  }

  lemma EvenMarks(tokens: seq<TokenWord>, dur: real)
    ensures var r := Evenly(tokens, dur);
      forall i :: 0 <= i < |r| ==> r[i].score == 0.5 && r[i].tag == Some("unaligned")
  {
    hide Slot;
  }

  // ----- what every node carries

  /** On every branch a node has its own word's text and marks, and no speaker yet. */
  lemma AlignedFields(lex: Lexicon, chunk: Chunk, i: nat)
    requires i < |Parse(lex.isWord, chunk.text)|
    ensures var tw := Parse(lex.isWord, chunk.text)[i];
      && |Aligned(lex, chunk)| == |Parse(lex.isWord, chunk.text)|
      && var n := Aligned(lex, chunk)[i];
        n.word == tw.leading + tw.letters + tw.trailing
        && n.leading == tw.leading && n.trailing == tw.trailing && n.speaker == None
  {
    hide Parse, Slot;
  }

  // ----- in the time of the recording

  /** A word that is not crammed keeps its times, and is reported at the chunk's start plus these. */
  lemma GlobalTimes(lex: Lexicon, c: Chunk, i: nat)
    requires GoodChunk(c) && i < |Aligned(lex, c)| && !Crammed(Aligned(lex, c), i)
    ensures |ChunkWords(lex, c)| == |Aligned(lex, c)|
    ensures var n, a := ChunkWords(lex, c)[i], Aligned(lex, c)[i];
      n.start - c.startTime == a.start && n.end - c.startTime == a.end
  {
    hide Aligned, Spread, Crammed;
    AlignedOrdered(lex, c);
    SpreadLands(Aligned(lex, c), c.endTime - c.startTime, i);
    SpreadEnds(Aligned(lex, c), c.endTime - c.startTime, i);
  }

  /** The nodes of a chunk in the time of the recording, before any is moved. */
  ghost function InRecording(lex: Lexicon, c: Chunk): (r: seq<Node>)
    ensures |r| == |Aligned(lex, c)|
  {
    var a := Aligned(lex, c);
    seq(|a|, i requires 0 <= i < |a| => a[i].(start := a[i].start + c.startTime, end := a[i].end + c.startTime))
  }

  lemma LandsLater(w: seq<Node>, r: seq<Node>, v: seq<Node>, s: seq<Node>, m: nat, dur: real, offset: real)
    requires |w| == |r| == |v| == |s| && m < |w| && Lands(w, r, m, dur)
    requires forall i :: 0 <= i < |w| ==> v[i] == w[i].(start := w[i].start + offset, end := w[i].end + offset)
    requires forall i :: 0 <= i < |w| ==> s[i] == r[i].(start := r[i].start + offset, end := r[i].end + offset)
    ensures Lands(v, s, m, dur + offset)
  {
    if m > 0 { assert s[m - 1].start == r[m - 1].start + offset; }
  }

  /** A crammed word is spread within its chunk, in the time of the recording: up to where the chunk ends. */
  lemma GlobalLands(lex: Lexicon, c: Chunk, m: nat)
    requires m < |Aligned(lex, c)|
    ensures |ChunkWords(lex, c)| == |Aligned(lex, c)| && Lands(InRecording(lex, c), ChunkWords(lex, c), m, c.endTime)
  {
    hide Aligned, Spread, Lands;
    var a, dur := Aligned(lex, c), c.endTime - c.startTime;
    SpreadLands(a, dur, m);
    LandsLater(a, Spread(a, dur), InRecording(lex, c), ChunkWords(lex, c), m, dur, c.startTime);
  }
}
