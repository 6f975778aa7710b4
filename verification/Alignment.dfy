/** Aligning one chunk, on every branch, and the loop over all chunks with its
    global time offset. */
module Alignment {
  import opened Words
  import opened ParseText
  import opened SpreadClusters
  import opened Anchors
  import opened Interpolation

  /** A recognised chunk: its place in the recording, the length of its audio, its text,
      and what the aligner answers for a list of targets. */
  datatype Chunk = Chunk(
    startTime: real, endTime: real, audioDur: real, text: string, aligner: seq<int> -> AlignerRun)

  // ----- even distribution

  ghost function Evenly(tokens: seq<TokenWord>, dur: real): (r: seq<Node>)
    ensures |r| == |tokens|
  {
    var d := Max(dur, 0.0);
    seq(|tokens|, i requires 0 <= i < |tokens| => EvenNode(tokens[i], i, d / |tokens| as real, d))
  }

  ghost function EvenNode(tw: TokenWord, i: nat, step: real, d: real): Node {
    var start := Slot(0.0, i, step);
    Unaligned(tw, start, Max(if d > 0.0 then Min(Slot(0.0, i + 1, step), d) else start, start))
  }

  method EvenlyDistribute(tokens: seq<TokenWord>, dur: real) returns (out: seq<WordNode>)
    ensures Views(out) == Evenly(tokens, dur)
    ensures Distinct(out) && forall i :: 0 <= i < |out| ==> fresh(out[i])
  {
    out := [];
    var n := |tokens|;
    if n == 0 { return; }
    var d := Max(dur, 0.0);
    var step := d / n as real;
    for i := 0 to n
      invariant |out| == i
      invariant forall k :: 0 <= k < i ==> fresh(out[k]) && out[k].View() == EvenNode(tokens[k], k, step, d)
      invariant Distinct(out)
    {
      var start := TimeAt(0.0, i, step);
      var next := TimeAt(0.0, i + 1, step);
      var end := if d > 0.0 then Min(next, d) else start;
      var node := new WordNode(Unaligned(tokens[i], start, Max(end, start)));
      out := out + [node];
    }
  }

  lemma {:induction false} SlotsFromZero(step: real, i: nat, n: nat)
    requires step >= 0.0 && i <= n
    ensures 0.0 <= Slot(0.0, i, step) <= Slot(0.0, n, step)
    decreases n
  {
    if i < n { SlotsFromZero(step, i, n - 1); }
    else if i > 0 { SlotsFromZero(step, i - 1, i - 1); }
  }

  lemma EvenlyOrdered(tokens: seq<TokenWord>, dur: real)
    requires dur >= 0.0
    ensures Ordered(Evenly(tokens, dur)) && Within(Evenly(tokens, dur), 0.0, dur)
  {
    if tokens != [] {
      var step := dur / |tokens| as real;
      SlotIsProduct(0.0, |tokens|, step);
      assert Slot(0.0, |tokens|, step) == dur;
      var r := Evenly(tokens, dur);
      forall i | 0 <= i < |tokens|
        ensures 0.0 <= r[i].start <= r[i].end <= dur && (i + 1 < |tokens| ==> r[i].end <= r[i + 1].start)
      {
        SlotsFromZero(step, i, |tokens|);
        SlotsFromZero(step, i + 1, |tokens|);
      }
    }
  }

  lemma EvenAt(tokens: seq<TokenWord>, dur: real, step: real, i: nat)
    requires dur > 0.0 && i < |tokens| && step == dur / |tokens| as real && step > 0.0
    requires Slot(0.0, |tokens|, step) == dur
    ensures var w := Evenly(tokens, dur)[i];
      w.start == Slot(0.0, i, step) && w.end == Slot(0.0, i + 1, step) == w.start + step
  {
    SlotsFromZero(step, i, |tokens|);
    SlotsFromZero(step, i + 1, |tokens|);
  }

  /** The fallback words tile the chunk: equal shares of it, one right after the other, from 0 to its end. */
  lemma EvenlyTiles(tokens: seq<TokenWord>, dur: real) returns (step: real)
    requires dur > 0.0 && tokens != []
    ensures |tokens| as real * step == dur
    ensures var r := Evenly(tokens, dur);
      && r[0].start == 0.0 && r[|r| - 1].end == dur
      && (forall i, j :: 0 <= i && j == i + 1 && j < |r| ==> r[i].end == r[j].start)
      && (forall i :: 0 <= i < |r| ==> r[i].end == r[i].start + step)
  {
    hide Evenly;
    var n := |tokens|;
    step := Share(dur, n);
    SlotIsProduct(0.0, n, step);
    assert Slot(0.0, n, step) == dur;
    var r := Evenly(tokens, dur);
    forall i | 0 <= i < n
      ensures r[i].end == r[i].start + step
    {
      EvenAt(tokens, dur, step, i);
    }
    forall i, j | 0 <= i && j == i + 1 && j < n
      ensures r[i].end == r[j].start
    {
      EvenAt(tokens, dur, step, i);
      EvenAt(tokens, dur, step, j);
    }
    EvenAt(tokens, dur, step, 0);
    EvenAt(tokens, dur, step, n - 1);
  }

  lemma Share(dur: real, n: nat) returns (step: real)
    requires dur > 0.0 && n > 0
    ensures step == dur / n as real && step > 0.0 && n as real * step == dur
  {
    step := dur / n as real;
  }

  // ----- anchors completed by interpolation

  ghost function Unmapped(anchors: set<nat>, n: nat): (s: set<nat>)
    ensures forall i: nat :: i in s <==> i < n && i !in anchors
  {
    set i: nat | i < n && i !in anchors
  }

  ghost function Completed(tokens: seq<TokenWord>, anchors: map<nat, Node>, audioDur: real): (r: seq<Node>)
    ensures |r| == |tokens|
  {
    seq(|tokens|, i requires 0 <= i < |tokens| =>
      if i in anchors then anchors[i]
      else Interpolated(Unmapped(anchors.Keys, |tokens|), tokens, anchors, audioDur, i))
  }

  ghost function GapAt(tokens: seq<TokenWord>, anchors: map<nat, Node>, audioDur: real, i: nat): (g: Gap)
    requires i < |tokens|
    ensures g.lo <= i <= g.hi < |tokens|
  {
    var s := Unmapped(anchors.Keys, |tokens|);
    GapOfRun(anchors, |tokens|, audioDur, RunLo(s, i), RunHi(s, i, |tokens|))
  }

  /** Where the run of unmapped words around i begins and ends, and its gap. */
  lemma GapAround(tokens: seq<TokenWord>, anchors: map<nat, Node>, audioDur: real, i: nat)
    requires audioDur >= 0.0
    requires AnchorsOrdered(anchors, audioDur)
    requires i < |tokens| && i !in anchors
    ensures var g := GapAt(tokens, anchors, audioDur, i);
      && (i > 0 && i - 1 in anchors ==> g.prevEnd == anchors[i - 1].end)
      && (i + 1 < |tokens| && i + 1 in anchors ==> g.nextStart == anchors[i + 1].start)
      && 0.0 <= g.prevEnd <= g.nextStart <= audioDur
  {
    var s := Unmapped(anchors.Keys, |tokens|);
    LoIsFirst(s, i);
    HiIsLast(s, i, |tokens|);
    var lo, hi := RunLo(s, i), RunHi(s, i, |tokens|);
    if lo > 0 { assert lo - 1 in anchors; }
    if hi + 1 < |tokens| { assert hi + 1 in anchors; }
  }

  /** Neighbouring unmapped words belong to the same run. */
  lemma SameGap(tokens: seq<TokenWord>, anchors: map<nat, Node>, audioDur: real, i: nat)
    requires i + 1 < |tokens| && i !in anchors && i + 1 !in anchors
    ensures GapAt(tokens, anchors, audioDur, i) == GapAt(tokens, anchors, audioDur, i + 1)
  {
    var s := Unmapped(anchors.Keys, |tokens|);
    assert i in s && i + 1 in s;
    assert RunLo(s, i + 1) == RunLo(s, i) && RunHi(s, i, |tokens|) == RunHi(s, i + 1, |tokens|);
  }

  lemma {:induction false} LoIsFirst(s: set<nat>, i: nat)
    requires i in s
    ensures var lo := RunLo(s, i); (forall k :: lo <= k <= i ==> k in s) && (lo > 0 ==> lo - 1 !in s)
  {
    if i > 0 && i - 1 in s { LoIsFirst(s, i - 1); }
  }

  lemma {:induction false} HiIsLast(s: set<nat>, i: nat, n: nat)
    requires i in s && i < n
    ensures var hi := RunHi(s, i, n); (forall k :: i <= k <= hi ==> k in s) && (hi + 1 < n ==> hi + 1 !in s)
    decreases n - i
  {
    if i + 1 < n && i + 1 in s { HiIsLast(s, i + 1, n); }
  }

  lemma StepFills(prevEnd: real, nextStart: real, count: nat)
    requires prevEnd <= nextStart
    ensures var step := StepIn(prevEnd, nextStart, count);
      step >= 0.0 && Slot(prevEnd, count + 1, step) == nextStart
  {
    SlotIsProduct(prevEnd, count + 1, StepIn(prevEnd, nextStart, count));
  }

  lemma {:induction false} SlotsBetween(base: real, step: real, k: nat, n: nat)
    requires step >= 0.0 && k <= n
    ensures base <= Slot(base, k, step) <= Slot(base, n, step)
    decreases n
  {
    if k < n { SlotsBetween(base, step, k, n - 1); }
    else if k > 0 { SlotsBetween(base, step, k - 1, k - 1); }
  }

  /** A node in a gap lies inside it, and before the gap's next node. */
  lemma NodeInGap(tokens: seq<TokenWord>, g: Gap, i: nat)
    requires g.lo <= i <= g.hi < |tokens| && g.prevEnd <= g.nextStart
    ensures var n := GapNode(tokens, g, i);
      && g.prevEnd <= n.start == n.end <= g.nextStart
      && (i < g.hi ==> n.end <= GapNode(tokens, g, i + 1).start)
  {
    var k := i - g.lo + 1;
    var count := g.hi - g.lo + 1;
    StepFills(g.prevEnd, g.nextStart, count);
    SlotsBetween(g.prevEnd, StepIn(g.prevEnd, g.nextStart, count), k, count + 1);
  }

  /** An interpolated word sits between the nodes before and after it. */
  lemma InterpolatedBetween(tokens: seq<TokenWord>, anchors: map<nat, Node>, audioDur: real, i: nat)
    requires audioDur >= 0.0
    requires AnchorsOrdered(anchors, audioDur)
    requires i < |tokens| && i !in anchors
    ensures var r := Completed(tokens, anchors, audioDur);
      && 0.0 <= r[i].start == r[i].end <= audioDur
      && (i + 1 < |tokens| ==> r[i].end <= r[i + 1].start)
      && (i > 0 && i - 1 in anchors ==> r[i - 1].end <= r[i].start)
  {
    var g := GapAt(tokens, anchors, audioDur, i);
    GapAround(tokens, anchors, audioDur, i);
    NodeInGap(tokens, g, i);
    if i + 1 < |tokens| && i + 1 !in anchors {
      SameGap(tokens, anchors, audioDur, i);
    }
  }

  /** Anchors and interpolated words together are in order, inside the audio. */
  lemma CompletedOrdered(tokens: seq<TokenWord>, anchors: map<nat, Node>, audioDur: real)
    requires audioDur >= 0.0
    requires AnchorsOrdered(anchors, audioDur)
    ensures var r := Completed(tokens, anchors, audioDur); Ordered(r) && Within(r, 0.0, audioDur)
  {
    var r := Completed(tokens, anchors, audioDur);
    forall i | 0 <= i < |tokens|
      ensures 0.0 <= r[i].start <= r[i].end <= audioDur
      ensures i + 1 < |tokens| ==> r[i].end <= r[i + 1].start
    {
      if i !in anchors {
        InterpolatedBetween(tokens, anchors, audioDur, i);
      } else if i + 1 < |tokens| && i + 1 !in anchors {
        InterpolatedBetween(tokens, anchors, audioDur, i + 1);
      }
    }
  }

  // ----- one chunk

  function FrameDur(frames: nat, audioDur: real): real {
    audioDur / (if frames < 1 then 1 else frames) as real
  }

  datatype Placement = Even | Anchored(anchors: map<nat, Node>)

  /** How the words of a chunk are placed, branch by branch. */
  ghost function PlacementOf(lex: Lexicon, chunk: Chunk, tokens: seq<TokenWord>): Placement {
    var ids := Ids(lex, Seconds(Alignable(lex, tokens, |tokens|)));
    if Alignable(lex, tokens, |tokens|) == [] then Anchored(map[])
    else if ids == [] then Even
    else match chunk.aligner(ids).outcome
      case ForcedAlignFailed => Even
      case MergeFailed => Even
      case Merged(spans) =>
        if |spans| != |ids| then Even
        else
          var unit := FrameDur(chunk.aligner(ids).frames, chunk.audioDur);
          Anchored(AnchorMap(lex, tokens, spans, unit, chunk.audioDur))
  }

  ghost function Placed(p: Placement, tokens: seq<TokenWord>, audioDur: real): (r: seq<Node>)
    ensures |r| == |tokens|
  {
    match p
    case Even => Evenly(tokens, audioDur)
    case Anchored(anchors) => Completed(tokens, anchors, audioDur)
  }

  /** The local nodes of a chunk. */
  ghost function Aligned(lex: Lexicon, chunk: Chunk): seq<Node> {
    var tokens := Parse(lex.isWord, chunk.text);
    Placed(PlacementOf(lex, chunk, tokens), tokens, chunk.audioDur)
  }

  /** What is assumed of the chunk's audio and of the aligner. */
  ghost predicate GoodChunk(chunk: Chunk) {
    && chunk.audioDur >= 0.0
    && forall ids: seq<int> :: GoodRun(chunk.aligner(ids))
  }

  ghost predicate GoodRun(run: AlignerRun) {
    run.outcome.Merged? ==> Monotone(run.outcome.spans, run.frames)
  }

  lemma PlacementOrdered(lex: Lexicon, chunk: Chunk, tokens: seq<TokenWord>)
    requires GoodChunk(chunk)
    ensures var p := PlacementOf(lex, chunk, tokens);
      p.Anchored? ==> AnchorsOrdered(p.anchors, chunk.audioDur)
  {
    var run := chunk.aligner(Ids(lex, Seconds(Alignable(lex, tokens, |tokens|))));
    assert GoodRun(run);
    if run.outcome.Merged? {
      FrameDurFits(run.frames, chunk.audioDur);
      AnchorMapOrdered(lex, tokens, run.outcome.spans, run.frames, FrameDur(run.frames, chunk.audioDur),
        chunk.audioDur);
    }
  }

  /** On every branch the nodes do not overlap and stay inside the chunk's audio. */
  lemma AlignedOrdered(lex: Lexicon, chunk: Chunk)
    requires GoodChunk(chunk)
    ensures Ordered(Aligned(lex, chunk)) && Within(Aligned(lex, chunk), 0.0, chunk.audioDur)
  {
    var tokens := Parse(lex.isWord, chunk.text);
    PlacementOrdered(lex, chunk, tokens);
    match PlacementOf(lex, chunk, tokens)
    case Even => EvenlyOrdered(tokens, chunk.audioDur);
    case Anchored(anchors) => CompletedOrdered(tokens, anchors, chunk.audioDur);
  }

  function TokenTexts(tokens: seq<TokenWord>): (t: seq<string>)
    ensures |t| == |tokens| && forall i :: 0 <= i < |tokens| ==> t[i] == tokens[i].Text()
  {
    seq(|tokens|, i requires 0 <= i < |tokens| => tokens[i].Text())
  }

  lemma PlacedText(lex: Lexicon, chunk: Chunk, tokens: seq<TokenWord>, i: nat)
    requires i < |tokens|
    ensures Placed(PlacementOf(lex, chunk, tokens), tokens, chunk.audioDur)[i].word == tokens[i].Text()
  {
  }

  /** On every branch: one node per parsed word, in spoken order, with the word's text. */
  lemma AlignedKeepsWords(lex: Lexicon, chunk: Chunk)
    ensures Texts(Aligned(lex, chunk)) == TokenTexts(Parse(lex.isWord, chunk.text))
  {
    var tokens := Parse(lex.isWord, chunk.text);
    forall i | 0 <= i < |tokens|
      ensures Aligned(lex, chunk)[i].word == tokens[i].Text()
    {
      PlacedText(lex, chunk, tokens, i);
    }
  }

  /** The words split by whether the vocabulary covers them, positions kept. */
  method Classify(lex: Lexicon, tokens: seq<TokenWord>) returns (alignable: seq<(nat, TokenWord)>, oovIdx: seq<nat>)
    ensures alignable == Alignable(lex, tokens, |tokens|)
    ensures Ascending(oovIdx)
    ensures forall i: nat :: i in oovIdx <==> i < |tokens| && !InVocab(lex, tokens[i].letters)
  {
    alignable, oovIdx := [], [];
    for i := 0 to |tokens|
      invariant alignable == Alignable(lex, tokens, i)
      invariant Ascending(oovIdx) && forall k :: 0 <= k < |oovIdx| ==> oovIdx[k] < i
      invariant forall p: nat :: p in oovIdx <==> p < i && !InVocab(lex, tokens[p].letters)
    {
      if InVocab(lex, tokens[i].letters) {
        alignable := alignable + [(i, tokens[i])];
      } else {
        oovIdx := oovIdx + [i];
      }
    }
  }

  /** Each word's anchor decides by its own spans, wherever it stands in the list. */
  lemma AnchorsAreAnchorMap(lex: Lexicon, tokens: seq<TokenWord>, spans: seq<(nat, nat)>, tokenSpans: seq<Span>, i: nat,
      k: nat)
    requires var a := Alignable(lex, tokens, |tokens|);
      && k < |a| == |spans| && a[k].0 == i
      && spans[k] == (|Ids(lex, Seconds(a)[..k])|, |Ids(lex, Seconds(a)[..k + 1])|)
    ensures i < |tokens| && Slice(tokenSpans, spans[k].0, spans[k].1) == WordSpans(lex, tokens, tokenSpans, i)
  {
    hide Alignable, Ids, Slice;
    var a := Alignable(lex, tokens, |tokens|);
    AlignablePrefix(lex, tokens, |tokens|, k);
    assert Seconds(a)[..k] == Seconds(a[..k]);
    assert Seconds(a)[..k + 1] == Seconds(a[..k + 1]);
  }

  lemma {:induction false} AlignableCovers(lex: Lexicon, tokens: seq<TokenWord>, n: nat, i: nat) returns (k: nat)
    requires i < n <= |tokens| && InVocab(lex, tokens[i].letters)
    ensures k < |Alignable(lex, tokens, n)| && Alignable(lex, tokens, n)[k].0 == i
  {
    if i == n - 1 { k := |Alignable(lex, tokens, n)| - 1; }
    else { k := AlignableCovers(lex, tokens, n - 1, i); }
  }

  lemma OovHasNoSpans(lex: Lexicon, tokens: seq<TokenWord>, spans: seq<Span>, i: nat)
    requires i < |tokens| && !InVocab(lex, tokens[i].letters)
    ensures WordSpans(lex, tokens, spans, i) == []
  {
    assert Alignable(lex, tokens, i + 1) == Alignable(lex, tokens, i);
  }

  method Gather(nodes: map<nat, WordNode>, n: nat, ghost goal: seq<Node>) returns (words: seq<WordNode>)
    requires |goal| == n && Injective(nodes)
    requires forall i: nat :: i < n ==> i in nodes && nodes[i].View() == goal[i]
    ensures |words| == n && Views(words) == goal
    ensures Distinct(words)
    ensures forall i: nat :: i < n ==> words[i] == nodes[i]
  {
    words := [];
    for i := 0 to n
      invariant |words| == i
      invariant forall k :: 0 <= k < i ==> words[k] == nodes[k]
    {
      if i in nodes {
        words := words + [nodes[i]];
      }
    }
  }

  lemma CompletedLookup(tokens: seq<TokenWord>, anchors: map<nat, Node>, audioDur: real, i: nat)
    requires i < |tokens|
    ensures var goal := InterpolatedMap(Unmapped(anchors.Keys, |tokens|), tokens, anchors, audioDur);
      && (i in anchors ==> Completed(tokens, anchors, audioDur)[i] == anchors[i])
      && (i !in anchors ==> i in goal && Completed(tokens, anchors, audioDur)[i] == goal[i])
  {
  }

  lemma TogetherCompleted(tokens: seq<TokenWord>, anchors: map<nat, WordNode>, oovNodes: map<nat, WordNode>,
      oovIdx: seq<nat>, audioDur: real, i: nat)
    requires Members(oovIdx) == Unmapped(anchors.Keys, |tokens|)
    requires forall k :: k in oovNodes <==> k in oovIdx
    requires var goal := InterpolatedMap(Members(oovIdx), tokens, ViewMap(anchors), audioDur);
      forall k :: k in oovNodes ==> k in goal && oovNodes[k].View() == goal[k]
    requires i < |tokens|
    ensures i in anchors + oovNodes
    ensures (anchors + oovNodes)[i].View() == Completed(tokens, ViewMap(anchors), audioDur)[i]
  {
    assert ViewMap(anchors).Keys == anchors.Keys;
    CompletedLookup(tokens, ViewMap(anchors), audioDur, i);
    assert i in oovIdx <==> i in Unmapped(anchors.Keys, |tokens|);
  }

  lemma AllCompleted(tokens: seq<TokenWord>, anchors: map<nat, WordNode>, oovNodes: map<nat, WordNode>,
      oovIdx: seq<nat>, audioDur: real)
    requires Members(oovIdx) == Unmapped(anchors.Keys, |tokens|)
    requires forall k :: k in oovNodes <==> k in oovIdx
    requires var goal := InterpolatedMap(Members(oovIdx), tokens, ViewMap(anchors), audioDur);
      forall k :: k in oovNodes ==> k in goal && oovNodes[k].View() == goal[k]
    ensures var all, goal := anchors + oovNodes, Completed(tokens, ViewMap(anchors), audioDur);
      forall i: nat :: i < |tokens| ==> i in all && all[i].View() == goal[i]
  {
    hide Completed, InterpolatedMap, Members, Unmapped, ViewMap;
    var all, goal := anchors + oovNodes, Completed(tokens, ViewMap(anchors), audioDur);
    forall i: nat | i < |tokens|
      ensures i in all && all[i].View() == goal[i]
    {
      TogetherCompleted(tokens, anchors, oovNodes, oovIdx, audioDur, i);
    }
  }

  /** Interpolation of everything without an anchor, joined with the anchors. */
  method CompleteAnchors(tokens: seq<TokenWord>, anchors: map<nat, WordNode>, oovIdx: seq<nat>, audioDur: real)
    returns (all: map<nat, WordNode>)
    requires Distinct(oovIdx) && Members(oovIdx) == Unmapped(anchors.Keys, |tokens|)
    requires forall i :: i in oovIdx ==> i < |tokens|
    requires Injective(anchors)
    ensures forall i: nat :: i < |tokens| ==> i in all
    ensures forall i: nat :: i < |tokens| ==> all[i].View() == Completed(tokens, ViewMap(anchors), audioDur)[i]
    ensures forall i: nat :: i in all && i !in anchors ==> fresh(all[i])
    ensures forall i: nat :: i in all && i in anchors ==> all[i] == anchors[i]
    ensures Injective(all)
  {
    var oovNodes, goal := InterpolateOov(oovIdx, tokens, anchors, audioDur);
    UnionInjective(anchors, oovNodes);
    forall i: nat | i in oovNodes
      ensures i !in anchors
    {
      assert i in Members(oovIdx);
    }
    all := anchors + oovNodes;
    AllCompleted(tokens, anchors, oovNodes, oovIdx, audioDur);
  }

  /** Positions of the alignable words that got no anchor. */
  function Unanchored(alignable: seq<(nat, TokenWord)>, keys: set<nat>): (r: seq<nat>)
    ensures forall i: nat :: i in r <==> i !in keys && exists k :: 0 <= k < |alignable| && alignable[k].0 == i
  {
    if alignable == [] then []
    else
      var (i, _) := alignable[|alignable| - 1];
      var rest := Unanchored(alignable[..|alignable| - 1], keys);
      if i in keys then rest else rest + [i]
  }

  lemma {:induction false} UnanchoredDistinct(alignable: seq<(nat, TokenWord)>, keys: set<nat>)
    requires forall k, m :: 0 <= k < m < |alignable| ==> alignable[k].0 < alignable[m].0
    ensures Distinct(Unanchored(alignable, keys))
  {
    if alignable != [] {
      var init := alignable[..|alignable| - 1];
      UnanchoredDistinct(init, keys);
      assert forall x: nat :: x in Unanchored(init, keys) ==> x != alignable[|alignable| - 1].0;
    }
  }

  lemma DistinctConcat(a: seq<nat>, b: seq<nat>)
    requires Distinct(a) && Distinct(b) && forall x :: x in a ==> x !in b
    ensures Distinct(a + b)
  {
    var c := a + b;
    forall i, j | 0 <= i < j < |c|
      ensures c[i] != c[j]
    {
      if i < |a| <= j { assert c[i] in a && c[j] in b; }
    }
  }

  /** The words left to interpolate: those outside the vocabulary and those without an anchor. */
  lemma TargetsAreUnmapped(lex: Lexicon, tokens: seq<TokenWord>, oovIdx: seq<nat>, keys: set<nat>)
    requires Ascending(oovIdx)
    requires forall i: nat :: i in oovIdx <==> i < |tokens| && !InVocab(lex, tokens[i].letters)
    requires forall i: nat :: i in keys ==> i < |tokens| && InVocab(lex, tokens[i].letters)
    ensures var t := oovIdx + Unanchored(Alignable(lex, tokens, |tokens|), keys);
      && Distinct(t)
      && Members(t) == Unmapped(keys, |tokens|)
      && forall i :: i in t ==> i < |tokens|
  {
    var a := Alignable(lex, tokens, |tokens|);
    UnanchoredDistinct(a, keys);
    DistinctConcat(oovIdx, Unanchored(a, keys));
    var t := oovIdx + Unanchored(a, keys);
    forall i: nat
      ensures i in t <==> i < |tokens| && i !in keys
    {
      if i < |tokens| && InVocab(lex, tokens[i].letters) {
        var k := AlignableCovers(lex, tokens, |tokens|, i);
      }
    }
  }

  ghost predicate SpansOf(lex: Lexicon, words: seq<TokenWord>, spans: seq<(nat, nat)>) {
    && |spans| == |words|
    && forall k :: 0 <= k < |words| ==> spans[k] == (|Ids(lex, words[..k])|, |Ids(lex, words[..k + 1])|)
  }

  /** The anchor map is what the loop over the alignable words has to produce. */
  lemma AnchorMapIsGoal(lex: Lexicon, tokens: seq<TokenWord>, spans: seq<(nat, nat)>, tokenSpans: seq<Span>,
      frameDur: real, audioDur: real)
    requires SpansOf(lex, Seconds(Alignable(lex, tokens, |tokens|)), spans)
    ensures var goal := AnchorMap(lex, tokens, tokenSpans, frameDur, audioDur);
      && AnchorGoal(Alignable(lex, tokens, |tokens|), spans, tokenSpans, frameDur, audioDur, goal)
      && forall i: nat :: i in goal ==> i < |tokens| && InVocab(lex, tokens[i].letters)
  {
    var a, goal := Alignable(lex, tokens, |tokens|), AnchorMap(lex, tokens, tokenSpans, frameDur, audioDur);
    forall i: nat | i in goal
      ensures InVocab(lex, tokens[i].letters) && Reached(a, |a|, i)
    {
      if !InVocab(lex, tokens[i].letters) { OovHasNoSpans(lex, tokens, tokenSpans, i); }
      var k := AlignableCovers(lex, tokens, |tokens|, i);
      ReachedAt(a, |a|, k);
    }
    forall k | 0 <= k < |a|
      ensures AnchorGoalAt(a[k].1, Slice(tokenSpans, spans[k].0, spans[k].1), frameDur, audioDur, goal, a[k].0)
    {
      AnchorsAreAnchorMap(lex, tokens, spans, tokenSpans, a[k].0, k);
    }
  }

  /** The anchors, and the positions that are left to interpolate. */
  method AnchorsAndTargets(lex: Lexicon, tokens: seq<TokenWord>, alignable: seq<(nat, TokenWord)>, oovIdx: seq<nat>,
      spans: seq<(nat, nat)>, tokenSpans: seq<Span>, frameDur: real, audioDur: real, ghost goal: map<nat, Node>)
    returns (anchors: map<nat, WordNode>, targets: seq<nat>)
    requires alignable == Alignable(lex, tokens, |tokens|) && |spans| == |alignable|
    requires AnchorGoal(alignable, spans, tokenSpans, frameDur, audioDur, goal)
    requires forall i: nat :: i in goal ==> i < |tokens| && InVocab(lex, tokens[i].letters)
    requires Ascending(oovIdx)
    requires forall i: nat :: i in oovIdx <==> i < |tokens| && !InVocab(lex, tokens[i].letters)
    ensures ViewMap(anchors) == goal && Injective(anchors)
    ensures forall i :: i in anchors ==> fresh(anchors[i])
    ensures Distinct(targets) && Members(targets) == Unmapped(anchors.Keys, |tokens|)
    ensures forall i :: i in targets ==> i < |tokens|
  {
    anchors := MapAlignable(alignable, spans, tokenSpans, frameDur, audioDur, goal);
    assert anchors.Keys == ViewMap(anchors).Keys == goal.Keys;
    targets := oovIdx + Unanchored(alignable, anchors.Keys);
    TargetsAreUnmapped(lex, tokens, oovIdx, anchors.Keys);
  }

  /** Interpolation around the anchors, and all nodes in order of position. */
  method NodesInOrder(tokens: seq<TokenWord>, anchors: map<nat, WordNode>, targets: seq<nat>, audioDur: real)
    returns (words: seq<WordNode>)
    requires Injective(anchors)
    requires Distinct(targets) && Members(targets) == Unmapped(anchors.Keys, |tokens|)
    requires forall i :: i in targets ==> i < |tokens|
    ensures Views(words) == Completed(tokens, ViewMap(anchors), audioDur)
    ensures Distinct(words)
    ensures forall i: nat :: i < |words| && i in anchors ==> words[i] == anchors[i]
    ensures forall i: nat :: i < |words| && i !in anchors ==> fresh(words[i])
  {
    var all := CompleteAnchors(tokens, anchors, targets, audioDur);
    words := Gather(all, |tokens|, Completed(tokens, ViewMap(anchors), audioDur));
  }

  lemma NoAnchorsLeavesAll(lex: Lexicon, tokens: seq<TokenWord>, oovIdx: seq<nat>)
    requires Alignable(lex, tokens, |tokens|) == []
    requires Ascending(oovIdx)
    requires forall i: nat :: i in oovIdx <==> i < |tokens| && !InVocab(lex, tokens[i].letters)
    ensures Distinct(oovIdx) && Members(oovIdx) == Unmapped({}, |tokens|)
    ensures forall i :: i in oovIdx ==> i < |tokens|
  {
    TargetsAreUnmapped(lex, tokens, oovIdx, {});
    assert Unanchored([], {}) == [];
    assert oovIdx + [] == oovIdx;
  }

  /** The normal case: as many spans as targets. */
  method AlignBySpans(lex: Lexicon, tokens: seq<TokenWord>, alignable: seq<(nat, TokenWord)>, oovIdx: seq<nat>,
      spans: seq<(nat, nat)>, tokenSpans: seq<Span>, frameDur: real, audioDur: real)
    returns (words: seq<WordNode>)
    requires alignable == Alignable(lex, tokens, |tokens|)
    requires SpansOf(lex, Seconds(alignable), spans)
    requires Ascending(oovIdx)
    requires forall i: nat :: i in oovIdx <==> i < |tokens| && !InVocab(lex, tokens[i].letters)
    ensures Views(words) == Completed(tokens, AnchorMap(lex, tokens, tokenSpans, frameDur, audioDur), audioDur)
    ensures Distinct(words) && forall i :: 0 <= i < |words| ==> fresh(words[i])
  {
    AnchorMapIsGoal(lex, tokens, spans, tokenSpans, frameDur, audioDur);
    var anchors, targets := AnchorsAndTargets(lex, tokens, alignable, oovIdx, spans, tokenSpans, frameDur, audioDur,
                                              AnchorMap(lex, tokens, tokenSpans, frameDur, audioDur));
    words := NodesInOrder(tokens, anchors, targets, audioDur);
  }

  /** A chunk with words, branch by branch: nothing alignable, no targets, the aligner failing
      in either of its two calls, a span count that does not match, and the normal case. */
  method AlignTokens(lex: Lexicon, chunk: Chunk, tokens: seq<TokenWord>) returns (words: seq<WordNode>)
    ensures Views(words) == Placed(PlacementOf(lex, chunk, tokens), tokens, chunk.audioDur)
    ensures Distinct(words) && forall i :: 0 <= i < |words| ==> fresh(words[i])
  {
    ghost var p := PlacementOf(lex, chunk, tokens);
    var alignable, oovIdx := Classify(lex, tokens);
    if alignable == [] {
      assert p == Anchored(map[]);
      NoAnchorsLeavesAll(lex, tokens, oovIdx);
      words := NodesInOrder(tokens, map[], oovIdx, chunk.audioDur);
      return;
    }
    var ids, spans := BuildCharTargets(lex, Seconds(alignable));
    var run := chunk.aligner(ids);
    if ids == [] || !run.outcome.Merged? || |run.outcome.spans| != |ids| {
      assert p == Even;
      words := EvenlyDistribute(tokens, chunk.audioDur);
      return;
    }
    var frameDur := FrameDur(run.frames, chunk.audioDur);
    assert p == Anchored(AnchorMap(lex, tokens, run.outcome.spans, frameDur, chunk.audioDur));
    words := AlignBySpans(lex, tokens, alignable, oovIdx, spans, run.outcome.spans, frameDur, chunk.audioDur);
  }

  method AlignChunk(lex: Lexicon, chunk: Chunk) returns (words: seq<WordNode>)
    ensures Views(words) == Aligned(lex, chunk)
    ensures Distinct(words) && forall i :: 0 <= i < |words| ==> fresh(words[i])
  {
    ParseEmptyIffBlank(lex.isWord, chunk.text);
    if Strip(chunk.text) == "" {
      words := [];
      return;
    }
    words := AlignTokens(lex, chunk, Parse(lex.isWord, chunk.text));
  }
}
