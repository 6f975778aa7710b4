/** Target characters of the alignable words, and the anchors the aligner's token
    spans give them by target position. */
module Anchors {
  import opened Words
  import opened ParseText

  const LOW_CONF_THRESHOLD: real := 0.60

  /** What the model brings along: character classes, lower-casing and the vocabulary. */
  datatype Lexicon = Lexicon(isWord: char -> bool, lower: string -> string, vocab: map<char, int>)

  datatype Span = Span(start: nat, end: nat, score: real)
  datatype AlignerOutcome = ForcedAlignFailed | MergeFailed | Merged(spans: seq<Span>)
  datatype AlignerRun = AlignerRun(frames: nat, outcome: AlignerOutcome)

  function MakeNode(tw: TokenWord, start: real, end: real, score: real, tag: Option<string>): Node {
    Node(tw.Text(), start, end, score, tag, tw.leading, tw.trailing, None)
  }

  // ----- targets

  predicate InVocab(lex: Lexicon, letters: string) {
    var lowered := lex.lower(letters);
    forall c :: c in lowered ==> c in lex.vocab
  }

  function WordIds(lex: Lexicon, lowered: string): seq<int> {
    if lowered == "" then []
    else
      var c := lowered[|lowered| - 1];
      WordIds(lex, lowered[..|lowered| - 1]) + if c in lex.vocab then [lex.vocab[c]] else []
  }

  ghost function Ids(lex: Lexicon, words: seq<TokenWord>): seq<int> {
    if words == [] then []
    else Ids(lex, words[..|words| - 1]) + WordIds(lex, lex.lower(words[|words| - 1].letters))
  }

  method BuildCharTargets(lex: Lexicon, words: seq<TokenWord>) returns (ids: seq<int>, spans: seq<(nat, nat)>)
    ensures ids == Ids(lex, words)
    ensures |spans| == |words|
    ensures forall k :: 0 <= k < |words| ==> spans[k] == (|Ids(lex, words[..k])|, |Ids(lex, words[..k + 1])|)
  {
    ids, spans := [], [];
    for k := 0 to |words|
      invariant ids == Ids(lex, words[..k])
      invariant |spans| == k
      invariant forall m :: 0 <= m < k ==> spans[m] == (|Ids(lex, words[..m])|, |Ids(lex, words[..m + 1])|)
    {
      var start := |ids|;
      var lowered := lex.lower(words[k].letters);
      for c := 0 to |lowered|
        invariant ids == Ids(lex, words[..k]) + WordIds(lex, lowered[..c])
      {
        assert lowered[..c + 1][..c] == lowered[..c];
        if lowered[c] in lex.vocab {
          ids := ids + [lex.vocab[lowered[c]]];
        }
      }
      assert lowered[..|lowered|] == lowered;
      assert words[..k + 1][..k] == words[..k];
      spans := spans + [(start, |ids|)];
    }
    assert words[..|words|] == words;
  }

  /** The alignable words among the first i, with their positions. */
  ghost function Alignable(lex: Lexicon, tokens: seq<TokenWord>, i: nat): (a: seq<(nat, TokenWord)>)
    requires i <= |tokens|
    ensures forall k :: 0 <= k < |a| ==> a[k].0 < i && a[k].1 == tokens[a[k].0] && InVocab(lex, a[k].1.letters)
    ensures forall k, m :: 0 <= k < m < |a| ==> a[k].0 < a[m].0
  {
    if i == 0 then []
    else
      var own := if InVocab(lex, tokens[i - 1].letters) then [(i - 1, tokens[i - 1])] else [];
      Alignable(lex, tokens, i - 1) + own
  }

  function Seconds(a: seq<(nat, TokenWord)>): (w: seq<TokenWord>)
    ensures |w| == |a| && forall k :: 0 <= k < |a| ==> w[k] == a[k].1
  {
    seq(|a|, k requires 0 <= k < |a| => a[k].1)
  }

  /** Number of target characters that belong to words before position i. */
  ghost function CharsBefore(lex: Lexicon, tokens: seq<TokenWord>, i: nat): nat
    requires i <= |tokens|
  {
    |Ids(lex, Seconds(Alignable(lex, tokens, i)))|
  }

  lemma {:induction false} CharsMonotone(lex: Lexicon, tokens: seq<TokenWord>, i: nat, j: nat)
    requires i <= j <= |tokens|
    ensures CharsBefore(lex, tokens, i) <= CharsBefore(lex, tokens, j)
    decreases j
  {
    if i < j {
      CharsMonotone(lex, tokens, i, j - 1);
      var a, b := Alignable(lex, tokens, j - 1), Alignable(lex, tokens, j);
      if InVocab(lex, tokens[j - 1].letters) {
        assert Seconds(b)[..|b| - 1] == Seconds(a);
      } else {
        assert b == a;
      }
    }
  }

  /** The k-th alignable word splits the list at its own position. */
  lemma {:induction false} AlignablePrefix(lex: Lexicon, tokens: seq<TokenWord>, i: nat, k: nat)
    requires i <= |tokens| && k < |Alignable(lex, tokens, i)|
    ensures var a := Alignable(lex, tokens, i);
      && Alignable(lex, tokens, a[k].0) == a[..k]
      && Alignable(lex, tokens, a[k].0 + 1) == a[..k + 1]
  {
    var a, b := Alignable(lex, tokens, i), Alignable(lex, tokens, i - 1);
    if k < |b| {
      AlignablePrefix(lex, tokens, i - 1, k);
      assert a[..k] == b[..k] && a[..k + 1] == b[..k + 1];
    } else {
      assert a[..k] == b && a[..k + 1] == a;
    }
  }

  // ----- anchors

  /** A slice that, like Python's, stops at the end of the list. */
  function Slice<T>(s: seq<T>, a: nat, b: nat): seq<T> {
    if a >= b || a >= |s| then [] else s[a..if b < |s| then b else |s|]
  }

  function ScoreSum(spans: seq<Span>): real {
    if spans == [] then 0.0 else ScoreSum(spans[..|spans| - 1]) + spans[|spans| - 1].score
  }

  /** Start of a frame in seconds. */
  function Time(frame: nat, frameDur: real): real { frame as real * frameDur }

  function Score(spans: seq<Span>): real
    requires spans != []
  {
    Max(0.0, Min(ScoreSum(spans) / |spans| as real, 1.0))
  }

  function AnchorNode(tw: TokenWord, spans: seq<Span>, frameDur: real, audioDur: real): (n: Node)
    requires spans != []
  {
    var start := Time(spans[0].start, frameDur);
    var end := Min(Time(spans[|spans| - 1].end, frameDur), audioDur);
    var score := Score(spans);
    MakeNode(tw, start, Max(end, start), score, if score < LOW_CONF_THRESHOLD then Some("low_conf") else None)
  }

  lemma {:induction false} ScoresBetween(spans: seq<Span>, lo: real, hi: real)
    requires forall k :: 0 <= k < |spans| ==> lo <= spans[k].score <= hi
    ensures |spans| as real * lo <= ScoreSum(spans) <= |spans| as real * hi
  {
    if spans != [] {
      var n := |spans| - 1;
      ScoresBetween(spans[..n], lo, hi);
      assert |spans| as real * lo == n as real * lo + lo && |spans| as real * hi == n as real * hi + hi;
    }
  }

  lemma Mean(sum: real, n: real, lo: real, hi: real)
    requires n > 0.0 && n * lo <= sum <= n * hi
    ensures lo <= sum / n <= hi && sum / n * n == sum
  {
    var m := sum / n;
    assert m * n == sum;
    if m < lo { Scaled(m, lo, n); }
    if hi < m { Scaled(hi, m, n); }
  }

  lemma Scaled(x: real, y: real, n: real)
    requires x < y && n > 0.0
    ensures x * n < y * n
  {
  }

  lemma ScoreIsMean(spans: seq<Span>, lo: real, hi: real)
    requires spans != [] && 0.0 <= lo <= hi <= 1.0
    requires forall k :: 0 <= k < |spans| ==> lo <= spans[k].score <= hi
    ensures lo <= Score(spans) <= hi && Score(spans) * |spans| as real == ScoreSum(spans)
  {
    hide ScoreSum;
    ScoresBetween(spans, lo, hi);
    Mean(ScoreSum(spans), |spans| as real, lo, hi);
  }

  /** The confidence of a word is the mean of its characters' scores when these are probabilities, so it lies
      between any bounds on them; the word is marked exactly when it is under the threshold. */
  lemma AnchorConfidence(tw: TokenWord, spans: seq<Span>, frameDur: real, audioDur: real, lo: real, hi: real)
    requires spans != [] && 0.0 <= lo <= hi <= 1.0
    requires forall k :: 0 <= k < |spans| ==> lo <= spans[k].score <= hi
    ensures var n := AnchorNode(tw, spans, frameDur, audioDur);
      && n.score * |spans| as real == ScoreSum(spans)
      && lo <= n.score <= hi
      && n.tag == if n.score < LOW_CONF_THRESHOLD then Some("low_conf") else None
  {
    hide Score, ScoreSum, Time;
    ScoreIsMean(spans, lo, hi);
  }

  ghost function WordSpans(lex: Lexicon, tokens: seq<TokenWord>, spans: seq<Span>, i: nat): seq<Span>
    requires i < |tokens|
  {
    Slice(spans, CharsBefore(lex, tokens, i), CharsBefore(lex, tokens, i + 1))
  }

  ghost function AnchorMap(lex: Lexicon, tokens: seq<TokenWord>, spans: seq<Span>, frameDur: real,
      audioDur: real): map<nat, Node>
  {
    map i: nat | i < |tokens| && WordSpans(lex, tokens, spans, i) != [] ::
      AnchorNode(tokens[i], WordSpans(lex, tokens, spans, i), frameDur, audioDur)
  }

  ghost function ViewMap(m: map<nat, WordNode>): (v: map<nat, Node>)
    reads m.Values
  {
    map k | k in m :: m[k].View()
  }

  ghost predicate Injective(m: map<nat, WordNode>) {
    forall a, b :: a in m && b in m && a != b ==> m[a] != m[b]
  }

  /** goal holds exactly the nodes of the alignable words that have spans. */
  ghost predicate AnchorGoal(alignable: seq<(nat, TokenWord)>, spans: seq<(nat, nat)>, tokenSpans: seq<Span>,
      frameDur: real, audioDur: real, goal: map<nat, Node>)
    requires |alignable| == |spans|
  {
    && (forall i :: i in goal ==> Reached(alignable, |alignable|, i))
    && (forall k :: 0 <= k < |alignable| ==>
         AnchorGoalAt(alignable[k].1, Slice(tokenSpans, spans[k].0, spans[k].1), frameDur, audioDur, goal,
            alignable[k].0))
  }

  ghost predicate AnchorGoalAt(tw: TokenWord, own: seq<Span>, frameDur: real, audioDur: real, goal: map<nat, Node>,
      i: nat)
  {
    && (own != [] <==> i in goal)
    && (own != [] ==> goal[i] == AnchorNode(tw, own, frameDur, audioDur))
  }

  /** i is the position of one of the first k words. */
  ghost predicate Reached(alignable: seq<(nat, TokenWord)>, k: nat, i: nat)
    requires k <= |alignable|
  {
    k > 0 && (alignable[k - 1].0 == i || Reached(alignable, k - 1, i))
  }

  lemma ReachedStep(alignable: seq<(nat, TokenWord)>, k: nat)
    requires k < |alignable|
    ensures forall i: nat :: Reached(alignable, k + 1, i) <==> alignable[k].0 == i || Reached(alignable, k, i)
  {
  }

  lemma {:induction false} ReachedAt(alignable: seq<(nat, TokenWord)>, k: nat, m: nat)
    requires m < k <= |alignable|
    ensures Reached(alignable, k, alignable[m].0)
  {
    if m < k - 1 { ReachedAt(alignable, k - 1, m); }
  }

  /** One anchor per alignable word that has spans, keyed by its position among all words. */
  method MapAlignable(alignable: seq<(nat, TokenWord)>, spans: seq<(nat, nat)>, tokenSpans: seq<Span>, frameDur: real,
      audioDur: real, ghost goal: map<nat, Node>) returns (anchors: map<nat, WordNode>)
    requires |alignable| == |spans|
    requires AnchorGoal(alignable, spans, tokenSpans, frameDur, audioDur, goal)
    ensures forall i :: i in anchors ==> fresh(anchors[i])
    ensures ViewMap(anchors) == goal
    ensures Injective(anchors)
  {
    hide AnchorNode, Slice;
    anchors := map[];
    for k := 0 to |alignable|
      invariant forall i :: i in anchors ==> fresh(anchors[i])
      invariant forall i: nat :: i in anchors ==> i in goal && anchors[i].View() == goal[i]
      invariant forall i: nat :: i in goal && Reached(alignable, k, i) ==> i in anchors
      invariant Injective(anchors)
    {
      var (origIdx, tw) := alignable[k];
      ReachedStep(alignable, k);
      var wordSpans := Slice(tokenSpans, spans[k].0, spans[k].1);
      assert AnchorGoalAt(tw, wordSpans, frameDur, audioDur, goal, origIdx);
      if wordSpans != [] {
        var node := new WordNode(AnchorNode(tw, wordSpans, frameDur, audioDur));
        anchors := anchors[origIdx := node];
      }
    }
  }

  // ----- order

  /** What is known of the aligner's spans: each one non-empty, in order, inside the frames. */
  ghost predicate Monotone(spans: seq<Span>, frames: nat) {
    && (forall k :: 0 <= k < |spans| ==> spans[k].start < spans[k].end <= frames)
    && (forall k, m :: 0 <= k && m == k + 1 && m < |spans| ==> spans[k].end <= spans[m].start)
  }

  lemma {:induction false} MonotoneApart(spans: seq<Span>, frames: nat, k: nat, m: nat)
    requires Monotone(spans, frames)
    requires k < m < |spans|
    ensures spans[k].end <= spans[m].start
    decreases m
  {
    if k + 1 < m { MonotoneApart(spans, frames, k, m - 1); }
  }

  /** Anchors lie inside the audio, each with start <= end, and never overlap. */
  ghost predicate AnchorsOrdered(anchors: map<nat, Node>, audioDur: real) {
    && (forall a :: a in anchors ==> 0.0 <= anchors[a].start <= anchors[a].end <= audioDur)
    && (forall a, b :: a in anchors && b in anchors && a < b ==> anchors[a].end <= anchors[b].start)
  }

  lemma ScaledOrder(a: nat, b: nat, unit: real)
    requires a <= b && unit >= 0.0
    ensures 0.0 <= Time(a, unit) <= Time(b, unit)
  {
  }

  lemma SliceMonotone(spans: seq<Span>, frames: nat, a: nat, b: nat)
    requires Monotone(spans, frames)
    ensures Monotone(Slice(spans, a, b), frames)
  {
    var s := Slice(spans, a, b);
    assert forall k :: 0 <= k < |s| ==> s[k] == spans[a + k];
  }

  lemma AnchorBounds(tw: TokenWord, spans: seq<Span>, frames: nat, frameDur: real, audioDur: real)
    requires spans != [] && Monotone(spans, frames)
    requires frameDur >= 0.0 && Time(frames, frameDur) <= audioDur
    ensures var n := AnchorNode(tw, spans, frameDur, audioDur);
      && n.start == Time(spans[0].start, frameDur)
      && n.end == Time(spans[|spans| - 1].end, frameDur)
      && 0.0 <= n.start <= n.end <= audioDur
  {
    var first, last := spans[0].start, spans[|spans| - 1].end;
    if |spans| > 1 { MonotoneApart(spans, frames, 0, |spans| - 1); }
    var s, e := Time(first, frameDur), Time(last, frameDur);
    assert 0.0 <= s <= e <= audioDur by {
      ScaledOrder(first, last, frameDur);
      ScaledOrder(last, frames, frameDur);
    }
    var n := AnchorNode(tw, spans, frameDur, audioDur);
    assert n.end == Max(Min(e, audioDur), s);
  }

  lemma FrameDurFits(frames: nat, audioDur: real)
    requires audioDur >= 0.0
    ensures var unit := audioDur / (if frames < 1 then 1 else frames) as real;
      unit >= 0.0 && Time(frames, unit) <= audioDur
  {
  }

  /** An anchor runs from its word's first target to its last one. */
  lemma AnchorFromSpans(lex: Lexicon, tokens: seq<TokenWord>, spans: seq<Span>, frames: nat, frameDur: real,
      audioDur: real, i: nat)
    requires Monotone(spans, frames)
    requires frameDur >= 0.0 && Time(frames, frameDur) <= audioDur
    requires i < |tokens| && WordSpans(lex, tokens, spans, i) != []
    ensures var (n, cs, ce) := (AnchorNode(tokens[i], WordSpans(lex, tokens, spans, i), frameDur, audioDur),
                                CharsBefore(lex, tokens, i), CharsBefore(lex, tokens, i + 1));
      && cs < ce && cs < |spans|
      && 0.0 <= n.start <= n.end <= audioDur
      && n.start == Time(spans[cs].start, frameDur)
      && (ce <= |spans| ==> n.end == Time(spans[ce - 1].end, frameDur))
  {
    var cs, ce := CharsBefore(lex, tokens, i), CharsBefore(lex, tokens, i + 1);
    SliceMonotone(spans, frames, cs, ce);
    AnchorBounds(tokens[i], Slice(spans, cs, ce), frames, frameDur, audioDur);
  }

  lemma LaterAnchorStartsLater(lex: Lexicon, tokens: seq<TokenWord>, spans: seq<Span>, frames: nat, frameDur: real,
      audioDur: real, a: nat, b: nat)
    requires Monotone(spans, frames)
    requires frameDur >= 0.0 && Time(frames, frameDur) <= audioDur
    requires a < b < |tokens| && WordSpans(lex, tokens, spans, a) != [] && WordSpans(lex, tokens, spans, b) != []
    ensures AnchorNode(tokens[a], WordSpans(lex, tokens, spans, a), frameDur, audioDur).end
         <= AnchorNode(tokens[b], WordSpans(lex, tokens, spans, b), frameDur, audioDur).start
  {
    hide *;
    AnchorFromSpans(lex, tokens, spans, frames, frameDur, audioDur, a);
    AnchorFromSpans(lex, tokens, spans, frames, frameDur, audioDur, b);
    CharsMonotone(lex, tokens, a + 1, b);
    var last, first := CharsBefore(lex, tokens, a + 1) - 1, CharsBefore(lex, tokens, b);
    MonotoneApart(spans, frames, last, first);
    ScaledOrder(spans[last].end, spans[first].start, frameDur);
  }

  /** Monotone spans give ordered anchors: the words keep their spoken order. */
  lemma AnchorMapOrdered(lex: Lexicon, tokens: seq<TokenWord>, spans: seq<Span>, frames: nat, frameDur: real,
      audioDur: real)
    requires Monotone(spans, frames)
    requires frameDur >= 0.0 && Time(frames, frameDur) <= audioDur
    ensures AnchorsOrdered(AnchorMap(lex, tokens, spans, frameDur, audioDur), audioDur)
  {
    var anchors := AnchorMap(lex, tokens, spans, frameDur, audioDur);
    forall a | a in anchors
      ensures 0.0 <= anchors[a].start <= anchors[a].end <= audioDur
    {
      AnchorFromSpans(lex, tokens, spans, frames, frameDur, audioDur, a);
    }
    forall a, b | a in anchors && b in anchors && a < b
      ensures anchors[a].end <= anchors[b].start
    {
      LaterAnchorStartsLater(lex, tokens, spans, frames, frameDur, audioDur, a, b);
    }
  }
}
