/** The stages put together: from the cleaned recording to the reported segments. */
module Pipeline {
  import opened Words
  import opened ParseText
  import Anchors
  import Alignment
  import AlignChunks
  import VadChunking
  import VadCoverage
  import SpeakerLabels
  import Segments
  import SegmentTexts

  type Recogniser = VadChunking.AudioChunk -> string
  type Aligner = VadChunking.AudioChunk -> (seq<int> -> Anchors.AlignerRun)

  /** Seconds at 16 kHz. */
  function Seconds(samples: int): real { samples as real / 16000.0 }

  function RecognisedChunk(c: VadChunking.AudioChunk, text: Recogniser, align: Aligner): Alignment.Chunk {
    Alignment.Chunk(Seconds(c.place.start), Seconds(c.place.end), Seconds(|c.samples|), text(c), align(c))
  }

  function RecognisedChunks(chunks: seq<VadChunking.AudioChunk>, text: Recogniser,
      align: Aligner): (r: seq<Alignment.Chunk>)
    ensures |r| == |chunks|
  {
    seq(|chunks|, i requires 0 <= i < |chunks| => RecognisedChunk(chunks[i], text, align))
  }

  ghost predicate GoodAligner(align: Aligner) {
    forall c: VadChunking.AudioChunk, ids: seq<int> :: Alignment.GoodRun(align(c)(ids))
  }

  lemma OneChunkFits(p: VadChunking.Interval, c: VadChunking.AudioChunk, i: nat, audio: seq<real>, text: Recogniser,
      align: Aligner)
    requires VadChunking.IsChunk(c, i, p, audio) && GoodAligner(align)
    ensures var r := RecognisedChunk(c, text, align);
      && Alignment.GoodChunk(r) && r.audioDur <= r.endTime - r.startTime
      && r.startTime == Seconds(p.start) && r.endTime == Seconds(p.end)
  {
    hide Alignment.GoodRun;
    var r := RecognisedChunk(c, text, align);
    forall ids: seq<int>
      ensures Alignment.GoodRun(r.aligner(ids))
    {
      assert r.aligner(ids) == align(c)(ids);
    }
  }

  /** Chunking's result is what alignment needs: ordered, disjoint chunks whose audio ends with them. */
  lemma ChunkingFeedsAlignment(pieces: seq<VadChunking.Interval>, chunks: seq<VadChunking.AudioChunk>, audio: seq<real>,
      text: Recogniser, align: Aligner)
    requires VadChunking.GoodPieces(pieces, 0, |audio|)
    requires VadChunking.Cut(chunks, pieces, audio, |pieces|)
    requires GoodAligner(align)
    ensures AlignChunks.GoodChunks(RecognisedChunks(chunks, text, align))
  {
    hide RecognisedChunk, VadChunking.IsChunk, Alignment.GoodChunk, GoodAligner;
    var r := RecognisedChunks(chunks, text, align);
    forall i | 0 <= i < |r|
      ensures Alignment.GoodChunk(r[i]) && r[i].audioDur <= r[i].endTime - r[i].startTime
    {
      OneChunkFits(pieces[i], chunks[i], i, audio, text, align);
    }
    forall i, j | 0 <= i && j == i + 1 && j < |r|
      ensures r[i].endTime <= r[j].startTime
    {
      OneChunkFits(pieces[i], chunks[i], i, audio, text, align);
      OneChunkFits(pieces[j], chunks[j], j, audio, text, align);
    }
  }

  /** The chunks stand where the places do, at 16000 samples a second. */
  ghost predicate StandAt(chunks: seq<Alignment.Chunk>, places: seq<VadChunking.Interval>) {
    && |chunks| == |places|
    && forall i :: 0 <= i < |chunks| ==>
         && chunks[i].startTime * 16000.0 == places[i].start as real
         && chunks[i].endTime * 16000.0 == places[i].end as real
         && chunks[i].audioDur * 16000.0 == places[i].Length() as real
  }

  lemma RecognisedStand(pieces: seq<VadChunking.Interval>, chunks: seq<VadChunking.AudioChunk>, audio: seq<real>,
      text: Recogniser, align: Aligner)
    requires VadChunking.Cut(chunks, pieces, audio, |pieces|)
    ensures StandAt(RecognisedChunks(chunks, text, align), pieces)
  {
    hide VadChunking.IsChunk;
    var r := RecognisedChunks(chunks, text, align);
    forall i | 0 <= i < |r|
      ensures r[i].startTime * 16000.0 == pieces[i].start as real && r[i].endTime * 16000.0 == pieces[i].end as real
      ensures r[i].audioDur * 16000.0 == pieces[i].Length() as real
    {
      OneStands(pieces[i], chunks[i], i, audio, text, align);
    }
  }

  lemma OneStands(p: VadChunking.Interval, c: VadChunking.AudioChunk, i: nat, audio: seq<real>, text: Recogniser,
      align: Aligner)
    requires VadChunking.IsChunk(c, i, p, audio)
    ensures var r := RecognisedChunk(c, text, align);
      && r.startTime * 16000.0 == p.start as real && r.endTime * 16000.0 == p.end as real
      && r.audioDur * 16000.0 == p.Length() as real
  {
  }

  // ----- no word is blank

  lemma TokenNotBlank(isWord: char -> bool, text: string, t: TokenWord)
    requires t in Parse(isWord, text)
    ensures Strip(t.Text()) != ""
  {
    MatchesNonEmptyLetters(isWord, text, 0);
    var s, at := t.Text(), |t.leading|;
    assert s[at] == t.letters[0];
    if Matches(isWord, text, 0) != [] { assert !IsSpace(t.letters[0]); }
  }

  lemma {:induction false} ParsedNotBlank(lex: Anchors.Lexicon, chunks: seq<Alignment.Chunk>)
    ensures forall s :: s in AlignChunks.ParsedTexts(lex, chunks) ==> Strip(s) != ""
  {
    hide Strip, Parse;
    if chunks != [] {
      ParsedNotBlank(lex, chunks[..|chunks| - 1]);
      var text := chunks[|chunks| - 1].text;
      var tokens := Parse(lex.isWord, text);
      forall s | s in Alignment.TokenTexts(tokens)
        ensures Strip(s) != ""
      {
        var i :| 0 <= i < |tokens| && Alignment.TokenTexts(tokens)[i] == s;
        assert tokens[i] in tokens;
        TokenNotBlank(lex.isWord, text, tokens[i]);
      }
    }
  }

  // ----- words to segments

  ghost function Labelled(w: seq<Node>, diarize: bool, diar: seq<SpeakerLabels.DiarizationNode>): (r: seq<Node>)
    ensures |r| == |w|
  {
    if diarize then SpeakerLabels.Assigned(w, diar) else w
  }

  function WordTexts(r: seq<Segments.WordOut>): (t: seq<string>)
    ensures |t| == |r|
  {
    seq(|r|, i requires 0 <= i < |r| => r[i].word)
  }

  lemma LabelledSame(w: seq<Node>, diarize: bool, diar: seq<SpeakerLabels.DiarizationNode>)
    ensures var r := Labelled(w, diarize, diar);
      && Texts(r) == Texts(w)
      && (Ordered(w) ==> Ordered(r))
      && WordTexts(Segments.Reports(r)) == Texts(w)
  {
  }

  lemma LabelledNotBlank(lex: Anchors.Lexicon, chunks: seq<Alignment.Chunk>, diarize: bool,
      diar: seq<SpeakerLabels.DiarizationNode>)
    ensures Segments.NoBlankWord(Labelled(AlignChunks.AllWords(lex, chunks), diarize, diar))
  {
    hide AlignChunks.AllWords, Strip, AlignChunks.ParsedTexts, Labelled;
    var w := AlignChunks.AllWords(lex, chunks);
    var l := Labelled(w, diarize, diar);
    AlignChunks.AllWordsKept(lex, chunks);
    LabelledSame(w, diarize, diar);
    ParsedNotBlank(lex, chunks);
    forall x | x in l
      ensures Strip(x.word) != ""
    {
      var i :| 0 <= i < |l| && l[i] == x;
      assert Texts(l)[i] == x.word;
      assert Texts(l)[i] in Texts(l);
    }
  }

  /** Each segment reads as its words do: one after the other, one space between neighbours. It begins with the first
      and ends with the last of them. */
  lemma EndToEndText(lex: Anchors.Lexicon, chunks: seq<Alignment.Chunk>, diarize: bool,
      diar: seq<SpeakerLabels.DiarizationNode>, k: nat) returns (at: seq<nat>)
    requires k < |Segments.Assembled(Labelled(AlignChunks.AllWords(lex, chunks), diarize, diar), diarize)|
    ensures var s := Segments.Assembled(Labelled(AlignChunks.AllWords(lex, chunks), diarize, diar), diarize)[k];
      && s.words != [] && s.start == s.words[0].start && s.end == s.words[|s.words| - 1].end
      && Spells(s.text, SegmentTexts.Bare(WordTexts(s.words)), ' ', at)
  {
    hide AlignChunks.AllWords, Segments.Assembled, Labelled, SegmentTexts.Bare, Spells;
    var l := Labelled(AlignChunks.AllWords(lex, chunks), diarize, diar);
    LabelledNotBlank(lex, chunks, diarize, diar);
    at := SegmentTexts.AssembledText(l, diarize, k);
    assert WordTexts(Segments.Assembled(l, diarize)[k].words)
      == SegmentTexts.ReportedTexts(Segments.Assembled(l, diarize)[k].words);
  }

  /** With diarization a segment's speaker is the label of each of its words, at the word's times; without it has
      none. */
  lemma EndToEndSpeaker(lex: Anchors.Lexicon, chunks: seq<Alignment.Chunk>, diarize: bool,
      diar: seq<SpeakerLabels.DiarizationNode>, k: nat, i: nat)
    requires k < |Segments.Assembled(Labelled(AlignChunks.AllWords(lex, chunks), diarize, diar), diarize)|
    requires i < |Segments.Assembled(Labelled(AlignChunks.AllWords(lex, chunks), diarize, diar), diarize)[k].words|
    ensures var s := Segments.Assembled(Labelled(AlignChunks.AllWords(lex, chunks), diarize, diar), diarize)[k];
      s.speaker == if diarize then Some(SpeakerLabels.Label(s.words[i].start, s.words[i].end, diar)) else None
  {
    hide AlignChunks.AllWords, Segments.Assembled, Segments.Kept, Segments.Groups, SpeakerLabels.Label;
    var w := AlignChunks.AllWords(lex, chunks);
    var l := Labelled(w, diarize, diar);
    Segments.AssembledSegments(l, diarize, k);
    var g := Segments.Kept(Segments.Groups(l, diarize))[k];
    Segments.KeptGroups(Segments.Groups(l, diarize));
    assert g in Segments.Kept(Segments.Groups(l, diarize));
    var m: nat :| m < |Segments.Groups(l, diarize)| && Segments.Groups(l, diarize)[m] == g;
    assert g[i] in g;
    SegmentTexts.InFlatten(Segments.Groups(l, diarize), m, g[i]);
    Segments.GroupsPartition(l, diarize);
    var j :| 0 <= j < |l| && l[j] == g[i];
  }

  /** End to end, for any recording, detector, recogniser and aligner: the segments report every
      recognised word exactly once and in order, with diarization or without. If every
      chunk's crammed tail has room they are in time order and do not overlap either. */
  lemma EndToEnd(lex: Anchors.Lexicon, chunks: seq<Alignment.Chunk>, diarize: bool,
      diar: seq<SpeakerLabels.DiarizationNode>)
    requires AlignChunks.GoodChunks(chunks)
    ensures var segments := Segments.Assembled(Labelled(AlignChunks.AllWords(lex, chunks), diarize, diar), diarize);
      && WordTexts(Segments.AllReports(segments)) == AlignChunks.ParsedTexts(lex, chunks)
      && ((forall i :: 0 <= i < |chunks| ==> AlignChunks.HasRoom(lex, chunks[i])) ==>
            Segments.SegmentsOrdered(segments))
  {
    hide AlignChunks.AllWords, AlignChunks.HasRoom, Segments.Assembled, Strip, AlignChunks.ParsedTexts;
    hide AlignChunks.GoodChunks, Segments.AllReports, Segments.Reports, Labelled;
    var w := AlignChunks.AllWords(lex, chunks);
    var l := Labelled(w, diarize, diar);
    AlignChunks.AllWordsOrder(lex, chunks);
    AlignChunks.AllWordsKept(lex, chunks);
    LabelledSame(w, diarize, diar);
    LabelledNotBlank(lex, chunks, diarize, diar);
    Segments.AssembledKeepsWords(l, diarize);
    if Ordered(l) { Segments.AssembledOrdered(l, diarize); }
  }

  // ----- the orchestration

  /** A chunk as it is, for want of words. */
  function ChunkSegment(id: nat, c: Alignment.Chunk, diarize: bool): Segments.Segment {
    Segments.Segment(id, c.startTime, c.endTime, c.text, if diarize then Some("UNKNOWN_SPEAKER") else None, [])
  }

  /** When no chunk has any word, the chunks with any text go out as they are. */
  ghost function Fallback(chunks: seq<Alignment.Chunk>, diarize: bool): seq<Segments.Segment> {
    if chunks == [] then []
    else
      var before, c := Fallback(chunks[..|chunks| - 1], diarize), chunks[|chunks| - 1];
      if c.text == "" then before
      else before + [ChunkSegment(|before|, c, diarize)]
  }

  /** These segments are numbered from 0, in time order without overlap. */
  lemma {:induction false} FallbackOrdered(chunks: seq<Alignment.Chunk>, diarize: bool)
    requires AlignChunks.GoodChunks(chunks)
    ensures var s := Fallback(chunks, diarize);
      && Segments.SegmentsOrdered(s)
      && (forall k :: 0 <= k < |s| ==>
            && s[k].id == k && s[k].text != "" && s[k].words == []
            && s[k].speaker == if diarize then Some("UNKNOWN_SPEAKER") else None)
      && (chunks != [] ==> forall k :: 0 <= k < |s| ==> s[k].end <= chunks[|chunks| - 1].endTime)
  {
    if chunks != [] {
      var init, last := chunks[..|chunks| - 1], chunks[|chunks| - 1];
      FallbackOrdered(init, diarize);
      assert last.startTime <= last.endTime;
      var before := Fallback(init, diarize);
      assert forall k :: 0 <= k < |before| ==> before[k].end <= last.startTime;
      assert Fallback(chunks, diarize) == if last.text == "" then before
        else before + [ChunkSegment(|before|, last, diarize)];
      hide Fallback;
    }
  }

  /** And each chunk with text has its own. */
  lemma {:induction false} FallbackKeepsTexts(chunks: seq<Alignment.Chunk>, diarize: bool, i: nat) returns (k: nat)
    requires i < |chunks| && chunks[i].text != ""
    ensures var s, c := Fallback(chunks, diarize), chunks[i];
      k < |s| && s[k].start == c.startTime && s[k].end == c.endTime && s[k].text == c.text
  {
    if i == |chunks| - 1 { k := |Fallback(chunks, diarize)| - 1; }
    else { k := FallbackKeepsTexts(chunks[..|chunks| - 1], diarize, i); }
  }

  method FallbackSegments(chunks: seq<Alignment.Chunk>, diarize: bool) returns (segments: seq<Segments.Segment>)
    ensures segments == Fallback(chunks, diarize)
  {
    segments := [];
    for i := 0 to |chunks|
      invariant segments == Fallback(chunks[..i], diarize)
    {
      assert chunks[..i + 1][..i] == chunks[..i];
      var c := chunks[i];
      if c.text != "" {
        segments := segments + [ChunkSegment(|segments|, c, diarize)];
      }
    }
    assert chunks[..|chunks|] == chunks;
  }

  method Snapshot(words: seq<WordNode>) returns (nodes: seq<Node>)
    ensures nodes == Views(words)
  {
    hide Views;
    nodes := [];
    for i := 0 to |words|
      invariant |nodes| == i && forall k :: 0 <= k < i ==> nodes[k] == words[k].View()
    {
      var w := words[i];
      nodes := nodes + [Node(w.word, w.start, w.end, w.score, w.tag, w.leading, w.trailing, w.speaker)];
    }
  }

  /** Words, speakers and segments of the recognised chunks. */
  method Transcribe(lex: Anchors.Lexicon, chunks: seq<Alignment.Chunk>, diarize: bool,
      diar: seq<SpeakerLabels.DiarizationNode>)
    returns (segments: seq<Segments.Segment>)
    ensures var w := AlignChunks.AllWords(lex, chunks);
      segments == if w == [] then Fallback(chunks, diarize) else Segments.Assembled(Labelled(w, diarize, diar), diarize)
  {
    hide AlignChunks.AllWords, Segments.Assembled, SpeakerLabels.Assigned, Views;
    var words := AlignChunks.AlignAll(lex, chunks);
    if words == [] {
      segments := FallbackSegments(chunks, diarize);
      return;
    }
    if diarize {
      SpeakerLabels.AssignSpeakers(words, diar);
    }
    var nodes := Snapshot(words);
    segments := Segments.AssembleSegments(nodes, diarize);
  }

  /** The recording's chunks, each with what the recogniser and the aligner make of it. */
  ghost function Recognised(vad: VadChunking.Detector, audio: seq<real>, text: Recogniser, align: Aligner)
    : Option<seq<Alignment.Chunk>>
    requires VadChunking.GoodDetector(vad)
  {
    var cut := VadChunking.ChunkRecords(vad, audio);
    if cut.None? then None else Some(RecognisedChunks(cut.value, text, align))
  }

  /** There are as many as there are pieces, at least one, and alignment can work on them. */
  lemma RecognisedGood(vad: VadChunking.Detector, audio: seq<real>, text: Recogniser, align: Aligner)
    requires VadChunking.GoodDetector(vad) && GoodAligner(align)
    ensures var chunks := Recognised(vad, audio, text, align);
      && (chunks.None? <==> VadChunking.Chunks(vad, audio).None?)
      && (chunks.Some? ==>
            |chunks.value| == |VadChunking.Chunks(vad, audio).value| > 0 && AlignChunks.GoodChunks(chunks.value))
  {
    hide VadChunking.Chunks, VadChunking.Records, AlignChunks.GoodChunks;
    VadChunking.ChunksGood(vad, audio);
    if VadChunking.Chunks(vad, audio).Some? {
      var pieces := VadChunking.Chunks(vad, audio).value;
      ChunkingFeedsAlignment(pieces, VadChunking.Records(pieces, audio), audio, text, align);
    }
  }

  /** The whole run, whatever recogniser, aligner and detector answer. It works on the recording's own chunks. Every
      word recognised in them is reported, once and in order; with room in every chunk the segments are in
      time order without overlap. Without any word the chunks' texts go out as they are. */
  method RunPipeline(vad: VadChunking.Detector, audio: seq<real>, text: Recogniser, align: Aligner,
      lex: Anchors.Lexicon, diarize: bool, diar: seq<SpeakerLabels.DiarizationNode>)
    returns (chunks: Option<seq<Alignment.Chunk>>, segments: seq<Segments.Segment>)
    requires VadChunking.GoodDetector(vad) && GoodAligner(align)
    ensures chunks == Recognised(vad, audio, text, align)
    ensures chunks.None? ==> segments == []
    ensures chunks.Some? <==> VadChunking.Chunks(vad, audio).Some?
    ensures chunks.Some? ==>
      StandAt(chunks.value, VadChunking.Chunks(vad, audio).value)
      && VadCoverage.KeepsSpeech(vad, audio, VadChunking.Chunks(vad, audio).value)
    ensures chunks.Some? && AlignChunks.ParsedTexts(lex, chunks.value) == [] ==>
      segments == Fallback(chunks.value, diarize)
    ensures chunks.Some? && AlignChunks.ParsedTexts(lex, chunks.value) != [] ==>
      WordTexts(Segments.AllReports(segments)) == AlignChunks.ParsedTexts(lex, chunks.value)
    ensures chunks.Some? && (forall c :: c in chunks.value ==> AlignChunks.HasRoom(lex, c)) ==>
      Segments.SegmentsOrdered(segments)
  {
    hide AlignChunks.AllWords, AlignChunks.HasRoom, AlignChunks.ParsedTexts, AlignChunks.GoodChunks;
    hide Segments.Assembled, Segments.AllReports, Segments.SegmentsOrdered, Labelled, Fallback;
    hide VadChunking.ChunkRecords, VadChunking.Chunks, GoodAligner, VadCoverage.KeepsSpeech, StandAt;
    segments := [];
    var cut := VadChunking.ChunkAudio(vad, audio);
    RecognisedGood(vad, audio, text, align);
    if cut.None? { return None, []; }
    var recognised := RecognisedChunks(cut.value, text, align);
    VadCoverage.ChunksKeepSpeech(vad, audio);
    RecognisedStand(VadChunking.Chunks(vad, audio).value, cut.value, audio, text, align);
    chunks := Some(recognised);
    segments := Transcribe(lex, recognised, diarize, diar);
    EndToEnd(lex, recognised, diarize, diar);
    AlignChunks.AllWordsKept(lex, recognised);
    FallbackOrdered(recognised, diarize);
  }
}
