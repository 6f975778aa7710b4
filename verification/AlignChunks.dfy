/** The loop over all chunks: align, spread clusters, shift to global time. */
module AlignChunks {
  import opened Words
  import opened ParseText
  import opened SpreadClusters
  import opened Anchors
  import opened Alignment

  ghost function ShiftNode(n: Node, offset: real): Node {
    n.(start := n.start + offset, end := n.end + offset)
  }

  ghost function Shifted(w: seq<Node>, offset: real): (r: seq<Node>)
    ensures |r| == |w|
  {
    seq(|w|, i requires 0 <= i < |w| => ShiftNode(w[i], offset))
  }

  /** The global words of one chunk. */
  ghost function ChunkWords(lex: Lexicon, c: Chunk): seq<Node> {
    Shifted(Spread(Aligned(lex, c), c.endTime - c.startTime), c.startTime)
  }

  ghost function AllWords(lex: Lexicon, chunks: seq<Chunk>): seq<Node> {
    if chunks == [] then []
    else AllWords(lex, chunks[..|chunks| - 1]) + ChunkWords(lex, chunks[|chunks| - 1])
  }

  method ShiftInPlace(words: seq<WordNode>, offset: real)
    requires Distinct(words)
    modifies words
    ensures Views(words) == Shifted(old(Views(words)), offset)
  {
    for i := 0 to |words|
      invariant forall k :: 0 <= k < i ==> words[k].View() == ShiftNode(old(words[k].View()), offset)
      invariant forall k :: i <= k < |words| ==> words[k].View() == old(words[k].View())
    {
      words[i].start := words[i].start + offset;
      words[i].end := words[i].end + offset;
    }
  }

  lemma ViewsConcat(a: seq<WordNode>, b: seq<WordNode>)
    ensures Views(a + b) == Views(a) + Views(b)
  {
    hide Views;
    var c := a + b;
    assert forall i :: 0 <= i < |a| ==> c[i] == a[i];
    assert forall i :: 0 <= i < |b| ==> c[|a| + i] == b[i];
  }

  /** One turn of the loop: the chunk's words, spread and in global time. */
  method AlignGlobally(lex: Lexicon, chunk: Chunk) returns (words: seq<WordNode>)
    ensures Views(words) == ChunkWords(lex, chunk)
    ensures Distinct(words) && forall i :: 0 <= i < |words| ==> fresh(words[i])
  {
    hide Aligned, Spread, Shifted, Views;
    words := AlignChunk(lex, chunk);
    SpreadInPlace(words, chunk.endTime - chunk.startTime);
    ShiftInPlace(words, chunk.startTime);
  }

  method AlignAll(lex: Lexicon, chunks: seq<Chunk>) returns (all: seq<WordNode>)
    ensures Views(all) == AllWords(lex, chunks)
    ensures Distinct(all) && forall i :: 0 <= i < |all| ==> fresh(all[i])
  {
    hide ChunkWords, Views;
    all := [];
    for c := 0 to |chunks|
      invariant Views(all) == AllWords(lex, chunks[..c])
      invariant Distinct(all) && forall i :: 0 <= i < |all| ==> fresh(all[i])
    {
      var words := AlignGlobally(lex, chunks[c]);
      ViewsConcat(all, words);
      AllWordsNext(lex, chunks, c);
      all := all + words;
    }
    assert chunks[..|chunks|] == chunks;
  }

  lemma AllWordsNext(lex: Lexicon, chunks: seq<Chunk>, c: nat)
    requires c < |chunks|
    ensures AllWords(lex, chunks[..c + 1]) == AllWords(lex, chunks[..c]) + ChunkWords(lex, chunks[c])
  {
    assert chunks[..c + 1][..c] == chunks[..c];
  }

  // ----- the whole list

  /** Chunks as chunking leaves them: in order, disjoint, no audio beyond their end. */
  ghost predicate GoodChunks(chunks: seq<Chunk>) {
    && (forall i :: 0 <= i < |chunks| ==>
         GoodChunk(chunks[i]) && chunks[i].audioDur <= chunks[i].endTime - chunks[i].startTime)
    && (forall i, j :: 0 <= i && j == i + 1 && j < |chunks| ==> chunks[i].endTime <= chunks[j].startTime)
  }

  /** The crammed tail of a chunk, if any, has room: decided before any word is moved. */
  ghost predicate HasRoom(lex: Lexicon, c: Chunk) {
    TailFits(Aligned(lex, c), 0, c.endTime - c.startTime)
  }

  lemma ChunkWordsOrder(lex: Lexicon, c: Chunk)
    requires GoodChunk(c) && c.audioDur <= c.endTime - c.startTime
    ensures var r := ChunkWords(lex, c);
      && Chained(r)
      && Within(r, c.startTime, c.endTime)
      && (Ordered(r) <==> HasRoom(lex, c))
  {
    hide Aligned, Spread, TailFits;
    var w, dur := Aligned(lex, c), c.endTime - c.startTime;
    AlignedOrdered(lex, c);
    SpreadOrder(w, 0.0, dur);
    var s, r := Spread(w, dur), ChunkWords(lex, c);
    assert forall i :: 0 <= i < |r| ==> r[i] == ShiftNode(s[i], c.startTime);
    if Ordered(r) {
      forall i | 0 <= i < |s|
        ensures s[i].start <= s[i].end
      {
        assert r[i].start <= r[i].end;
      }
    }
  }

  lemma ChainedConcat(a: seq<Node>, b: seq<Node>, mid: real)
    requires Chained(a) && Chained(b)
    requires forall i :: 0 <= i < |a| ==> a[i].end <= mid
    requires forall i :: 0 <= i < |b| ==> mid <= b[i].start
    ensures Chained(a + b)
  {
    var c := a + b;
    forall i | 0 <= i < |c| - 1
      ensures c[i].end <= c[i + 1].start
    {
      if i + 1 < |a| {
        assert c[i] == a[i] && c[i + 1] == a[i + 1];
      } else if i >= |a| {
        assert c[i] == b[i - |a|] && c[i + 1] == b[i - |a| + 1];
      }
    }
  }

  lemma OrderedSplit(a: seq<Node>, b: seq<Node>)
    requires Chained(a + b)
    ensures Ordered(a + b) <==> Ordered(a) && Ordered(b)
  {
    var c := a + b;
    assert forall i :: 0 <= i < |a| ==> c[i] == a[i];
    assert forall i :: 0 <= i < |b| ==> c[|a| + i] == b[i];
    if Ordered(a) && Ordered(b) {
      forall i | 0 <= i < |c|
        ensures c[i].start <= c[i].end
      {
        if i >= |a| { assert c[i] == b[i - |a|]; }
      }
    }
    if Ordered(c) {
      forall i | 0 <= i < |b|
        ensures b[i].start <= b[i].end && (i + 1 < |b| ==> b[i].end <= b[i + 1].start)
      {
        assert c[|a| + i].start <= c[|a| + i].end;
        if i + 1 < |b| { assert c[|a| + i].end <= c[|a| + i + 1].start; }
      }
    }
  }

  /** Over any list of chunks, words never overlap, across chunk borders too, and stay between
      the chunks' times. Every word has start <= end exactly when every chunk's tail has room. */
  lemma {:induction false} AllWordsOrder(lex: Lexicon, chunks: seq<Chunk>)
    requires GoodChunks(chunks)
    ensures var r := AllWords(lex, chunks);
      && Chained(r)
      && (Ordered(r) <==> forall i :: 0 <= i < |chunks| ==> HasRoom(lex, chunks[i]))
      && (chunks != [] ==> forall i :: 0 <= i < |r| ==> r[i].end <= chunks[|chunks| - 1].endTime)
  {
    hide ChunkWords, HasRoom;
    if chunks != [] {
      var init, c := chunks[..|chunks| - 1], chunks[|chunks| - 1];
      AllWordsOrder(lex, init);
      ChunkWordsOrder(lex, c);
      var a, b := AllWords(lex, init), ChunkWords(lex, c);
      if init != [] { assert init[|init| - 1] == chunks[|chunks| - 2]; }
      ChainedConcat(a, b, c.startTime);
      OrderedSplit(a, b);
      assert forall i :: 0 <= i < |init| ==> init[i] == chunks[i];
    }
  }

  ghost function ParsedTexts(lex: Lexicon, chunks: seq<Chunk>): seq<string> {
    if chunks == [] then []
    else ParsedTexts(lex, chunks[..|chunks| - 1]) + TokenTexts(Parse(lex.isWord, chunks[|chunks| - 1].text))
  }

  lemma ChunkWordsKept(lex: Lexicon, c: Chunk)
    ensures Texts(ChunkWords(lex, c)) == TokenTexts(Parse(lex.isWord, c.text))
  {
    hide Aligned, Spread, Parse;
    AlignedKeepsWords(lex, c);
    SpreadKeepsWords(Aligned(lex, c), c.endTime - c.startTime);
    assert Texts(ChunkWords(lex, c)) == Texts(Spread(Aligned(lex, c), c.endTime - c.startTime));
  }

  lemma TextsConcat(a: seq<Node>, b: seq<Node>)
    ensures Texts(a + b) == Texts(a) + Texts(b)
  {
  }

  /** Every parsed word of every chunk, exactly once and in order, whatever the aligner did. */
  lemma {:induction false} AllWordsKept(lex: Lexicon, chunks: seq<Chunk>)
    ensures Texts(AllWords(lex, chunks)) == ParsedTexts(lex, chunks)
  {
    hide ChunkWords, Texts, TokenTexts, Parse;
    if chunks == [] {
      assert Texts([]) == [];
    } else {
      AllWordsKept(lex, chunks[..|chunks| - 1]);
      ChunkWordsKept(lex, chunks[|chunks| - 1]);
      TextsConcat(AllWords(lex, chunks[..|chunks| - 1]), ChunkWords(lex, chunks[|chunks| - 1]));
    }
  }
}
