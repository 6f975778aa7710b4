/** Grouping words into segments at speaker changes and sentence ends. */
module Segments {
  import opened Words
  import opened ParseText

  /** A word as it is reported in a segment. */
  datatype WordOut = WordOut(word: string, start: real, end: real, probability: real, tag: Option<string>)

  datatype Segment = Segment(
    id: nat, start: real, end: real, text: string, speaker: Option<string>, words: seq<WordOut>)

  predicate EndsSentence(word: string) {
    var s := StripRight(word);
    s != "" && s[|s| - 1] in {'.', '!', '?', '\U{2026}'}
  }

  /** A segment border falls between two neighbouring words. */
  predicate Border(prev: Node, next: Node, diarize: bool) {
    (diarize && prev.speaker != next.speaker) || EndsSentence(prev.word)
  }

  function Report(w: Node): WordOut {
    WordOut(w.word, w.start, w.end, w.score, w.tag)
  }

  function Reports(w: seq<Node>): (r: seq<WordOut>)
    ensures |r| == |w|
  {
    seq(|w|, i requires 0 <= i < |w| => Report(w[i]))
  }

  function StrippedWords(w: seq<Node>): seq<string> {
    if w == [] then []
    else StrippedWords(w[..|w| - 1]) + if w[|w| - 1].word == "" then [] else [Strip(w[|w| - 1].word)]
  }

  function Text(w: seq<Node>): string {
    Strip(Join(StrippedWords(w), ' '))
  }

  // ----- groups and segments

  /** Maximal runs of words without a border inside. */
  ghost function Groups(w: seq<Node>, diarize: bool): (g: seq<seq<Node>>)
    ensures w != [] ==> g != [] && g[|g| - 1] != [] && g[|g| - 1][|g[|g| - 1]| - 1] == w[|w| - 1]
  {
    if w == [] then []
    else if |w| == 1 then [[w[0]]]
    else
      var g := Groups(w[..|w| - 1], diarize);
      if Border(w[|w| - 2], w[|w| - 1], diarize) then g + [[w[|w| - 1]]]
      else g[..|g| - 1] + [g[|g| - 1] + [w[|w| - 1]]]
  }

  ghost function SegmentOf(g: seq<Node>, id: nat, diarize: bool): Segment
    requires g != []
  {
    Segment(id, g[0].start, g[|g| - 1].end, Text(g), if diarize then g[|g| - 1].speaker else None, Reports(g))
  }

  /** The segments of the groups: those with any text, numbered from 0. */
  ghost function Emit(groups: seq<seq<Node>>, diarize: bool): seq<Segment>
    requires forall k :: 0 <= k < |groups| ==> groups[k] != []
  {
    if groups == [] then []
    else
      var before, g := Emit(groups[..|groups| - 1], diarize), groups[|groups| - 1];
      if Text(g) == "" then before else before + [SegmentOf(g, |before|, diarize)]
  }

  lemma {:induction false} GroupsNonEmpty(w: seq<Node>, diarize: bool)
    ensures forall k :: 0 <= k < |Groups(w, diarize)| ==> Groups(w, diarize)[k] != []
  {
    if |w| > 1 { GroupsNonEmpty(w[..|w| - 1], diarize); }
  }

  ghost function Assembled(w: seq<Node>, diarize: bool): seq<Segment> {
    GroupsNonEmpty(w, diarize);
    Emit(Groups(w, diarize), diarize)
  }

  /** The segment collected so far goes out, unless it has no text. */
  method Flush(segments: seq<Segment>, current: seq<Node>, currentSpeaker: Option<string>, diarize: bool)
    returns (flushed: seq<Segment>)
    ensures flushed ==
      if current == [] || Text(current) == "" then segments
      else segments + [Segment(|segments|, current[0].start, current[|current| - 1].end, Text(current),
                               if diarize then currentSpeaker else None, Reports(current))]
  {
    if current == [] { return segments; }
    var text := Text(current);
    if text == "" { return segments; }
    flushed := segments + [Segment(|segments|, current[0].start, current[|current| - 1].end, text,
                                   if diarize then currentSpeaker else None, Reports(current))];
  }

  ghost predicate AllNonEmpty(groups: seq<seq<Node>>) {
    forall k :: 0 <= k < |groups| ==> groups[k] != []
  }

  /** After i words: every finished group is out, and the words of the last one are collected. */
  ghost predicate Collected(words: seq<Node>, i: nat, diarize: bool, segments: seq<Segment>, current: seq<Node>)
    requires i <= |words|
  {
    var g := Groups(words[..i], diarize);
    && AllNonEmpty(g)
    && (i == 0 ==> current == [] && segments == [])
    && (i > 0 ==> g != [] && current == g[|g| - 1])
    && (i > 0 ==> current[|current| - 1] == words[i - 1])
    && (i > 0 ==> segments == Emit(g[..|g| - 1], diarize))
  }

  /** What flushing a whole group does to the segments. */
  lemma EmitNext(groups: seq<seq<Node>>, diarize: bool)
    requires groups != [] && AllNonEmpty(groups)
    ensures var before, g := Emit(groups[..|groups| - 1], diarize), groups[|groups| - 1];
      Emit(groups, diarize) == if Text(g) == "" then before else before + [SegmentOf(g, |before|, diarize)]
  {
  }

  lemma GroupsStep(words: seq<Node>, i: nat, diarize: bool)
    requires 0 < i < |words|
    ensures var g, h := Groups(words[..i], diarize), Groups(words[..i + 1], diarize);
      && g != []
      && h ==
           if Border(words[i - 1], words[i], diarize) then g + [[words[i]]]
           else g[..|g| - 1] + [g[|g| - 1] + [words[i]]]
  {
    assert words[..i + 1][..i] == words[..i];
  }

  /** The next word joins the last group, or opens one after the last has gone out. */
  lemma CollectNext(words: seq<Node>, i: nat, diarize: bool, segments: seq<Segment>, current: seq<Node>)
    requires i < |words| && Collected(words, i, diarize, segments, current)
    ensures i == 0 || !Border(words[i - 1], words[i], diarize) ==>
      Collected(words, i + 1, diarize, segments, current + [words[i]])
    ensures i > 0 && Border(words[i - 1], words[i], diarize) ==>
      Collected(words, i + 1, diarize, Emit(Groups(words[..i], diarize), diarize), [words[i]])
  {
    hide Emit, Border, Groups;
    GroupsNonEmpty(words[..i + 1], diarize);
    if i == 0 {
      OneGroup(words, diarize);
      EmitNothing(diarize);
    } else {
      GroupsStep(words, i, diarize);
      var g, h := Groups(words[..i], diarize), Groups(words[..i + 1], diarize);
      assert h[..|h| - 1] == if Border(words[i - 1], words[i], diarize) then g else g[..|g| - 1];
    }
  }

  lemma OneGroup(words: seq<Node>, diarize: bool)
    requires words != []
    ensures Groups(words[..1], diarize) == [[words[0]]]
  {
    assert words[..1] == [words[0]];
  }

  lemma EmitNothing(diarize: bool)
    ensures Emit([], diarize) == []
  {
  }

  method AssembleSegments(words: seq<Node>, diarize: bool) returns (segments: seq<Segment>)
    ensures segments == Assembled(words, diarize)
  {
    hide Text, Reports, Collected, Emit, Groups;
    segments := [];
    var current: seq<Node> := [];
    var currentSpeaker: Option<string> := None;
    NothingCollected(words, diarize);
    for i := 0 to |words|
      invariant Collected(words, i, diarize, segments, current)
      invariant i == 0 ==> current == [] && segments == []
      invariant i > 0 ==> current != [] && current[|current| - 1] == words[i - 1]
      invariant i > 0 ==> currentSpeaker == if diarize then words[i - 1].speaker else None
    {
      var w := words[i];
      var speaker := if diarize then w.speaker else None;
      CollectNext(words, i, diarize, segments, current);
      if current != [] && ((diarize && speaker != currentSpeaker) || EndsSentence(current[|current| - 1].word)) {
        CollectedFlush(words, i, diarize, segments, current);
        segments := Flush(segments, current, currentSpeaker, diarize);
        current := [];
      }
      assert [] + [w] == [w];
      current := current + [w];
      currentSpeaker := speaker;
    }
    if words != [] { CollectedFlush(words, |words|, diarize, segments, current); }
    segments := Flush(segments, current, currentSpeaker, diarize);
    AllCollected(words, diarize);
  }

  lemma NothingCollected(words: seq<Node>, diarize: bool)
    ensures Collected(words, 0, diarize, [], [])
  {
  }

  lemma AllCollected(words: seq<Node>, diarize: bool)
    ensures words[..|words|] == words
    ensures words == [] ==> Assembled(words, diarize) == []
    ensures AllNonEmpty(Groups(words, diarize)) && Assembled(words, diarize) == Emit(Groups(words, diarize), diarize)
  {
    GroupsNonEmpty(words, diarize);
    assert words[..|words|] == words;
  }

  /** Flushing the collected words completes the segments of the groups so far. */
  lemma CollectedFlush(words: seq<Node>, i: nat, diarize: bool, segments: seq<Segment>, current: seq<Node>)
    requires 0 < i <= |words| && Collected(words, i, diarize, segments, current)
    ensures current != [] && AllNonEmpty(Groups(words[..i], diarize))
    ensures Emit(Groups(words[..i], diarize), diarize) ==
      if Text(current) == "" then segments
      else segments + [Segment(|segments|, current[0].start, current[|current| - 1].end, Text(current),
                               if diarize then words[i - 1].speaker else None, Reports(current))]
  {
    hide Groups, Emit, Text, Reports;
    EmitNext(Groups(words[..i], diarize), diarize);
  }

  // ----- the groups partition the words at the borders

  lemma GroupsLast(w: seq<Node>, diarize: bool)
    requires |w| > 1
    ensures var g, x := Groups(w[..|w| - 1], diarize), w[|w| - 1];
      && g != [] && g[|g| - 1] != [] && g[|g| - 1][|g[|g| - 1]| - 1] == w[|w| - 2]
      && Groups(w, diarize) ==
           if Border(w[|w| - 2], x, diarize) then g + [[x]] else g[..|g| - 1] + [g[|g| - 1] + [x]]
  {
  }

  lemma FlattenExtend(groups: seq<seq<Node>>, x: Node)
    requires groups != []
    ensures Flatten(groups[..|groups| - 1] + [groups[|groups| - 1] + [x]]) == Flatten(groups) + [x]
  {
    var init, last := groups[..|groups| - 1], groups[|groups| - 1];
    FlattenAppend(init, last + [x]);
  }

  lemma {:induction false} GroupsPartition(w: seq<Node>, diarize: bool)
    ensures Flatten(Groups(w, diarize)) == w
    decreases |w|, 1
  {
    if |w| == 1 {
      FlattenAppend([], w);
    } else if |w| > 1 {
      PartitionNext(w, diarize);
    }
  }

  lemma {:induction false} PartitionNext(w: seq<Node>, diarize: bool)
    requires |w| > 1
    ensures Flatten(Groups(w, diarize)) == w
    decreases |w|, 0
  {
    hide Border, Groups, Flatten;
    var g, x := Groups(w[..|w| - 1], diarize), w[|w| - 1];
    GroupsPartition(w[..|w| - 1], diarize);
    GroupsLast(w, diarize);
    FlattenAppend(g, [x]);
    FlattenExtend(g, x);
    assert w == w[..|w| - 1] + [x];
  }

  ghost predicate NoBorderInside(g: seq<Node>, diarize: bool) {
    forall i, j :: 0 <= i && j == i + 1 && j < |g| ==> !Border(g[i], g[j], diarize)
  }

  ghost predicate BorderBetween(groups: seq<seq<Node>>, diarize: bool) {
    forall k, m :: 0 <= k && m == k + 1 && m < |groups| ==>
      groups[k] != [] && groups[m] != [] && Border(groups[k][|groups[k]| - 1], groups[m][0], diarize)
  }

  /** Cut exactly at the borders. */
  ghost predicate CutAtBorders(groups: seq<seq<Node>>, diarize: bool) {
    && AllNonEmpty(groups)
    && (forall g: seq<Node> :: g in groups ==> NoBorderInside(g, diarize))
    && BorderBetween(groups, diarize)
  }

  /** Segments are cut exactly at speaker changes and after sentence ends. */
  lemma {:induction false} GroupsCutAtBorders(w: seq<Node>, diarize: bool)
    ensures CutAtBorders(Groups(w, diarize), diarize)
    decreases |w|, 1
  {
    if |w| > 1 { CutNext(w, diarize); }
  }

  lemma {:induction false} CutNext(w: seq<Node>, diarize: bool)
    requires |w| > 1
    ensures CutAtBorders(Groups(w, diarize), diarize)
    decreases |w|, 0
  {
    hide Border, Groups, CutAtBorders;
    GroupsCutAtBorders(w[..|w| - 1], diarize);
    GroupsLast(w, diarize);
    var g, x := Groups(w[..|w| - 1], diarize), w[|w| - 1];
    if Border(w[|w| - 2], x, diarize) { CutByNewGroup(g, x, diarize); } else { CutByLongerGroup(g, x, diarize); }
  }

  lemma CutByNewGroup(g: seq<seq<Node>>, x: Node, diarize: bool)
    requires g != [] && CutAtBorders(g, diarize)
    requires Border(g[|g| - 1][|g[|g| - 1]| - 1], x, diarize)
    ensures CutAtBorders(g + [[x]], diarize)
  {
    hide Border;
  }

  lemma CutByLongerGroup(g: seq<seq<Node>>, x: Node, diarize: bool)
    requires g != [] && CutAtBorders(g, diarize)
    requires !Border(g[|g| - 1][|g[|g| - 1]| - 1], x, diarize)
    ensures CutAtBorders(g[..|g| - 1] + [g[|g| - 1] + [x]], diarize)
  {
    hide Border;
    var last := g[|g| - 1];
    assert last in g;
    JoinKeepsNoBorder(last, x, diarize);
    assert (last + [x])[0] == last[0];
  }

  lemma JoinKeepsNoBorder(g: seq<Node>, x: Node, diarize: bool)
    requires g != [] && NoBorderInside(g, diarize) && !Border(g[|g| - 1], x, diarize)
    ensures NoBorderInside(g + [x], diarize)
  {
    var h := g + [x];
    forall i, j | 0 <= i && j == i + 1 && j < |h|
      ensures !Border(h[i], h[j], diarize)
    {
      if j < |g| { assert h[i] == g[i] && h[j] == g[j]; }
    }
  }

  /** Within a group all words have the speaker the segment is given. */
  lemma {:induction false} OneSpeaker(g: seq<Node>, i: nat)
    requires NoBorderInside(g, true) && i < |g|
    ensures g[i].speaker == g[|g| - 1].speaker
    decreases |g| - i
  {
    if i + 1 < |g| {
      assert !Border(g[i], g[i + 1], true);
      OneSpeaker(g, i + 1);
    }
  }

  // ----- which groups go out

  lemma BlankJoin(a: string, x: string)
    ensures Blank(a + " " + x) <==> Blank(a) && Blank(x)
  {
    var s := a + " " + x;
    assert forall i :: 0 <= i < |a| ==> s[i] == a[i];
    assert forall i :: 0 <= i < |x| ==> s[|a| + 1 + i] == x[i];
    assert s[|a|] == ' ';
    if Blank(a) && Blank(x) {
      forall i | 0 <= i < |s|
        ensures IsSpace(s[i])
      {
        if i > |a| { assert s[i] == x[i - |a| - 1]; }
      }
    }
  }

  lemma {:induction false} JoinBlank(parts: seq<string>)
    ensures Blank(Join(parts, ' ')) <==> forall p :: p in parts ==> Blank(p)
  {
    hide Blank;
    if parts == [] {
      EmptyBlank();
    } else {
      assert parts == [parts[0]] + parts[1..];
      JoinBlank(parts[1..]);
      if |parts| > 1 { BlankJoin(parts[0], Join(parts[1..], ' ')); }
    }
  }

  lemma EmptyBlank()
    ensures Blank("")
  {
  }

  lemma StripBlank(s: string)
    ensures Blank(Strip(s)) <==> Strip(s) == ""
    ensures Blank(s) <==> Strip(s) == ""
  {
  }

  lemma {:induction false} StrippedBlank(w: seq<Node>)
    ensures (forall p :: p in StrippedWords(w) ==> Blank(p)) <==> forall x :: x in w ==> Strip(x.word) == ""
  {
    hide Blank, Strip;
    if w != [] {
      var init, x := w[..|w| - 1], w[|w| - 1];
      assert w == init + [x];
      StrippedBlank(init);
      StripBlank(x.word);
      EmptyBlank();
      StripBlank("");
    }
  }

  /** A group has no text exactly when all its words are blank. */
  lemma TextBlank(g: seq<Node>)
    ensures Text(g) == "" <==> forall x :: x in g ==> Strip(x.word) == ""
  {
    hide Blank, Strip, Join, StrippedWords;
    JoinBlank(StrippedWords(g));
    StrippedBlank(g);
    StripBlank(Join(StrippedWords(g), ' '));
  }

  /** The groups that go out. */
  ghost function Kept(groups: seq<seq<Node>>): seq<seq<Node>> {
    if groups == [] then []
    else
      var g := groups[|groups| - 1];
      Kept(groups[..|groups| - 1]) + if Text(g) == "" then [] else [g]
  }

  /** The k-th segment is the k-th group with text, and its id is k. */
  lemma {:induction false} EmitIsKept(groups: seq<seq<Node>>, diarize: bool)
    requires AllNonEmpty(groups)
    ensures var s, kept := Emit(groups, diarize), Kept(groups);
      && |s| == |kept|
      && forall k :: 0 <= k < |s| ==> kept[k] != [] && s[k] == SegmentOf(kept[k], k, diarize)
  {
    hide Text;
    if groups != [] { EmitIsKept(groups[..|groups| - 1], diarize); }
  }

  ghost predicate NoBlankWord(w: seq<Node>) {
    forall x :: x in w ==> Strip(x.word) != ""
  }

  lemma {:induction false} AllKept(groups: seq<seq<Node>>)
    requires AllNonEmpty(groups) && NoBlankWord(Flatten(groups))
    ensures Kept(groups) == groups
  {
    hide Text, Strip;
    if groups != [] {
      var init, g := groups[..|groups| - 1], groups[|groups| - 1];
      AllKept(init);
      TextBlank(g);
      assert g[0] in g;
      assert groups == init + [g];
    }
  }

  ghost function AllReports(segments: seq<Segment>): seq<WordOut> {
    if segments == [] then [] else AllReports(segments[..|segments| - 1]) + segments[|segments| - 1].words
  }

  lemma ReportsConcat(a: seq<Node>, b: seq<Node>)
    ensures Reports(a + b) == Reports(a) + Reports(b)
  {
  }

  lemma {:induction false} EmittedReports(groups: seq<seq<Node>>, diarize: bool)
    requires AllNonEmpty(groups)
    ensures AllReports(Emit(groups, diarize)) == Reports(Flatten(Kept(groups)))
  {
    hide Text, Reports;
    if groups == [] {
      assert Reports([]) == [];
    } else {
      var init, g := groups[..|groups| - 1], groups[|groups| - 1];
      EmittedReports(init, diarize);
      var s := Emit(init, diarize);
      if Text(g) != "" {
        FlattenAppend(Kept(init), g);
        ReportsConcat(Flatten(Kept(init)), g);
        assert (s + [SegmentOf(g, |s|, diarize)])[..|s|] == s;
      } else {
        assert Kept(init) + [] == Kept(init);
      }
    }
  }

  /** Without blank words the segments' words, one after the other, are all words, in order. */
  lemma AssembledKeepsWords(w: seq<Node>, diarize: bool)
    requires NoBlankWord(w)
    ensures AllReports(Assembled(w, diarize)) == Reports(w)
  {
    hide Reports;
    GroupsNonEmpty(w, diarize);
    GroupsPartition(w, diarize);
    AllKept(Groups(w, diarize));
    EmittedReports(Groups(w, diarize), diarize);
  }

  // ----- time order

  ghost predicate Forward(g: seq<Node>) { g != [] && g[0].start <= g[|g| - 1].end }

  ghost predicate EndsBy(g: seq<Node>, t: real) { g != [] ==> g[|g| - 1].end <= t }

  ghost predicate Before(g: seq<Node>, h: seq<Node>) { g != [] && h != [] && g[|g| - 1].end <= h[0].start }

  ghost predicate GroupsOrdered(groups: seq<seq<Node>>) {
    && (forall k :: 0 <= k < |groups| ==> Forward(groups[k]))
    && (forall k, m :: 0 <= k < m < |groups| ==> Before(groups[k], groups[m]))
  }

  /** No group of these ends after t. */
  ghost predicate GroupsEndBy(groups: seq<seq<Node>>, t: real) {
    forall k :: 0 <= k < |groups| ==> EndsBy(groups[k], t)
  }

  lemma EndsBefore(g: seq<Node>, h: seq<Node>)
    requires Forward(g) && Forward(h)
    ensures EndsBy(g, h[0].start) <==> Before(g, h)
    ensures EndsBy(g, h[0].start) ==> EndsBy(g, h[|h| - 1].end)
    ensures EndsBy(h, h[|h| - 1].end)
  {
  }

  lemma OrderedAppend(groups: seq<seq<Node>>, g: seq<Node>)
    requires GroupsOrdered(groups) && Forward(g) && GroupsEndBy(groups, g[0].start)
    ensures GroupsOrdered(groups + [g]) && GroupsEndBy(groups + [g], g[|g| - 1].end)
  {
    var h: seq<seq<Node>> := groups + [g];
    forall k | 0 <= k < |groups|
      ensures Before(groups[k], g) && EndsBy(groups[k], g[|g| - 1].end)
    {
      EndsBefore(groups[k], g);
    }
    EndsBefore(g, g);
    var t := g[|g| - 1].end;
    hide Forward, EndsBy, Before;
    forall k | 0 <= k < |h|
      ensures Forward(h[k]) && EndsBy(h[k], t)
    {
      if k < |groups| { assert h[k] == groups[k]; } else { assert h[k] == g; }
    }
    forall k, m | 0 <= k < m < |h|
      ensures Before(h[k], h[m])
    {
      assert h[k] == groups[k];
      if m < |groups| { assert h[m] == groups[m]; } else { assert h[m] == g; }
    }
  }

  lemma OrderedInit(groups: seq<seq<Node>>)
    requires groups != [] && GroupsOrdered(groups)
    ensures var init, last := groups[..|groups| - 1], groups[|groups| - 1];
      GroupsOrdered(init) && Forward(last) && GroupsEndBy(init, last[0].start)
  {
    var init: seq<seq<Node>>, last := groups[..|groups| - 1], groups[|groups| - 1];
    forall k | 0 <= k < |init|
      ensures EndsBy(groups[k], last[0].start)
    {
      EndsBefore(groups[k], last);
    }
    hide Forward, EndsBy, Before;
    forall k | 0 <= k < |init|
      ensures Forward(init[k]) && EndsBy(init[k], last[0].start)
    {
      assert init[k] == groups[k];
    }
    forall k, m | 0 <= k < m < |init|
      ensures Before(init[k], init[m])
    {
      assert init[k] == groups[k] && init[m] == groups[m];
    }
  }

  lemma {:induction false} OrderedGroups(w: seq<Node>, diarize: bool)
    requires Ordered(w)
    ensures GroupsOrdered(Groups(w, diarize))
    ensures w != [] ==> GroupsEndBy(Groups(w, diarize), w[|w| - 1].end)
    decreases |w|, 1
  {
    hide Border, Ordered, GroupsOrdered, GroupsEndBy;
    if |w| <= 1 { OrderedFew(w, diarize); } else { OrderedNext(w, diarize); }
  }

  lemma OrderedFew(w: seq<Node>, diarize: bool)
    requires Ordered(w) && |w| <= 1
    ensures GroupsOrdered(Groups(w, diarize))
    ensures w != [] ==> GroupsEndBy(Groups(w, diarize), w[|w| - 1].end)
  {
    if w == [] { assert Groups(w, diarize) == []; } else { assert Groups(w, diarize) == [[w[0]]]; }
  }

  lemma LastTwo(w: seq<Node>)
    requires |w| > 1 && Ordered(w)
    ensures Ordered(w[..|w| - 1]) && w[|w| - 2].end <= w[|w| - 1].start <= w[|w| - 1].end
  {
  }

  /** Groups that end by the last of their words may be followed by x, as a group or in the last one. */
  lemma EndOfLast(g: seq<seq<Node>>, last: Node, x: Node)
    requires g != [] && g[|g| - 1] != [] && g[|g| - 1][|g[|g| - 1]| - 1] == last
    requires GroupsOrdered(g) && GroupsEndBy(g, last.end) && last.end <= x.start <= x.end
    ensures Forward([x]) && GroupsEndBy(g, x.start)
    ensures Forward(g[|g| - 1] + [x]) && (g[|g| - 1] + [x])[0] == g[|g| - 1][0]
  {
  }

  lemma {:induction false} OrderedNext(w: seq<Node>, diarize: bool)
    requires |w| > 1 && Ordered(w)
    ensures GroupsOrdered(Groups(w, diarize)) && GroupsEndBy(Groups(w, diarize), w[|w| - 1].end)
    decreases |w|, 0
  {
    hide Border, Groups, GroupsOrdered, GroupsEndBy, Ordered;
    LastTwo(w);
    var g, x := Groups(w[..|w| - 1], diarize), w[|w| - 1];
    OrderedGroups(w[..|w| - 1], diarize);
    GroupsLast(w, diarize);
    OrderedInit(g);
    EndOfLast(g, w[|w| - 2], x);
    if Border(w[|w| - 2], x, diarize) {
      OrderedAppend(g, [x]);
    } else {
      OrderedAppend(g[..|g| - 1], g[|g| - 1] + [x]);
    }
  }

  ghost predicate SegmentsOrdered(s: seq<Segment>) {
    && (forall k :: 0 <= k < |s| ==> s[k].start <= s[k].end)
    && (forall k, m :: 0 <= k < m < |s| ==> s[k].end <= s[m].start)
  }

  lemma {:induction false} KeptGroups(groups: seq<seq<Node>>)
    ensures forall g: seq<Node> :: g in Kept(groups) ==> Text(g) != "" && g in groups
  {
    hide Text;
    if groups != [] {
      KeptGroups(groups[..|groups| - 1]);
      assert groups == groups[..|groups| - 1] + [groups[|groups| - 1]];
    }
  }

  lemma KeptEndBy(groups: seq<seq<Node>>, t: real)
    requires GroupsEndBy(groups, t)
    ensures GroupsEndBy(Kept(groups), t)
  {
    hide EndsBy, Text;
    KeptGroups(groups);
    forall k | 0 <= k < |Kept(groups)|
      ensures EndsBy(Kept(groups)[k], t)
    {
      assert Kept(groups)[k] in Kept(groups);
      var m :| 0 <= m < |groups| && groups[m] == Kept(groups)[k];
    }
  }

  lemma NothingKept()
    ensures Kept([]) == [] && GroupsOrdered([])
  {
  }

  lemma KeptLast(groups: seq<seq<Node>>)
    requires groups != []
    ensures var kept, g := Kept(groups[..|groups| - 1]), groups[|groups| - 1];
      Kept(groups) == if Text(g) == "" then kept else kept + [g]
  {
    hide Text;
  }

  lemma {:induction false} KeptOrdered(groups: seq<seq<Node>>)
    requires GroupsOrdered(groups)
    ensures GroupsOrdered(Kept(groups))
  {
    NothingKept();
    hide Text, GroupsOrdered, GroupsEndBy, Kept;
    if groups != [] {
      var init, g := groups[..|groups| - 1], groups[|groups| - 1];
      OrderedInit(groups);
      KeptOrdered(init);
      KeptEndBy(init, g[0].start);
      OrderedAppend(Kept(init), g);
      KeptLast(groups);
    }
  }

  /** Words in time order give segments in time order, without overlap. */
  lemma AssembledOrdered(w: seq<Node>, diarize: bool)
    requires Ordered(w)
    ensures SegmentsOrdered(Assembled(w, diarize))
  {
    hide Text, Groups, Reports, Kept, Emit;
    OrderedGroups(w, diarize);
    GroupsNonEmpty(w, diarize);
    KeptOrdered(Groups(w, diarize));
    EmitIsKept(Groups(w, diarize), diarize);
    var s, kept := Assembled(w, diarize), Kept(Groups(w, diarize));
    hide Assembled, Ordered;
    forall k | 0 <= k < |s|
      ensures s[k].start <= s[k].end
    {
      assert Forward(kept[k]);
    }
    forall k, m | 0 <= k < m < |s|
      ensures s[k].end <= s[m].start
    {
      assert Before(kept[k], kept[m]);
    }
  }

  /** Ids are 0, 1, 2, ...; with diarization every word of a segment has the segment's speaker,
      without it there is none; no segment is without text. */
  lemma AssembledSegments(w: seq<Node>, diarize: bool, k: nat)
    requires k < |Assembled(w, diarize)|
    ensures var s, g := Assembled(w, diarize)[k], Kept(Groups(w, diarize));
      && s.id == k && s.text != ""
      && |g| == |Assembled(w, diarize)| && s.words == Reports(g[k])
      && forall i :: 0 <= i < |g[k]| ==> s.speaker == if diarize then g[k][i].speaker else None
  {
    hide Text, Groups, Reports;
    var groups := Groups(w, diarize);
    GroupsCutAtBorders(w, diarize);
    EmitIsKept(groups, diarize);
    KeptGroups(groups);
    var g := Kept(groups)[k];
    assert g in Kept(groups) && g in groups;
    if diarize {
      forall i | 0 <= i < |g|
        ensures g[i].speaker == g[|g| - 1].speaker
      {
        OneSpeaker(g, i);
      }
    }
  }
}
