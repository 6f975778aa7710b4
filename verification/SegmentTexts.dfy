/** What a segment reports: its text, spelled by its words, its times, and its words' fields; and where the
    words of one segment end and those of the next begin. */
module SegmentTexts {
  import opened Words
  import opened ParseText
  import opened Segments

  // ----- the text

  /** Parts that do not begin or end with space, joined by spaces: nothing is left to strip. */
  lemma JoinedSpells(parts: seq<string>) returns (at: seq<nat>)
    requires parts != [] && Trimmed(parts[0]) && Trimmed(parts[|parts| - 1])
    ensures Spells(Strip(Join(parts, ' ')), parts, ' ', at)
  {
    at := JoinSpells(parts, ' ');
    var text, last := Join(parts, ' '), parts[|parts| - 1];
    assert StandsAt(text, parts[0], at[0]) && StandsAt(text, last, at[|at| - 1]);
    assert text[0] == parts[0][0];
    assert text[at[|at| - 1]..][|last| - 1] == last[|last| - 1];
    StripNothing(text);
  }

  predicate Trimmed(s: string) { s != "" && !IsSpace(s[0]) && !IsSpace(s[|s| - 1]) }

  lemma StripTrims(s: string)
    requires Strip(s) != ""
    ensures Trimmed(Strip(s))
  {
    hide Strip, IsSpace;
    var a, b := StripMeans(s);
  }

  /** The words of a list, each without the space around it. */
  function Bare(words: seq<string>): (b: seq<string>)
    ensures |b| == |words| && forall i :: 0 <= i < |words| ==> b[i] == Strip(words[i])
  {
    seq(|words|, i requires 0 <= i < |words| => Strip(words[i]))
  }

  lemma {:induction false} StrippedAll(w: seq<Node>)
    requires NoBlankWord(w)
    ensures StrippedWords(w) == Bare(Texts(w))
  {
    hide Strip;
    if w != [] {
      var init, x := w[..|w| - 1], w[|w| - 1];
      StrippedAll(init);
      StripBlankIsEmpty();
      assert Texts(w) == Texts(init) + [x.word];
    }
  }

  lemma StripBlankIsEmpty()
    ensures Strip("") == ""
  {
  }

  /** The text of words that are not blank: each one's own characters, in order, one space between neighbours. */
  lemma TextSpells(g: seq<Node>) returns (at: seq<nat>)
    requires g != [] && NoBlankWord(g)
    ensures Spells(Text(g), Bare(Texts(g)), ' ', at)
  {
    hide Strip, StrippedWords, Join, Spells, Trimmed;
    var parts := Bare(Texts(g));
    StrippedAll(g);
    StripTrims(g[0].word);
    StripTrims(g[|g| - 1].word);
    at := JoinedSpells(parts);
  }

  // ----- the segments

  function ReportedTexts(r: seq<WordOut>): (t: seq<string>)
    ensures |t| == |r|
  {
    seq(|r|, i requires 0 <= i < |r| => r[i].word)
  }

  /** A segment begins with its first word and ends with its last one, and its text is spelled by its words. */
  lemma AssembledText(w: seq<Node>, diarize: bool, k: nat) returns (at: seq<nat>)
    requires NoBlankWord(w) && k < |Assembled(w, diarize)|
    ensures var s := Assembled(w, diarize)[k];
      && s.words != [] && s.start == s.words[0].start && s.end == s.words[|s.words| - 1].end
      && Spells(s.text, Bare(ReportedTexts(s.words)), ' ', at)
  {
    hide Text, Groups, Emit, Kept, Strip, Spells, Bare;
    var groups := Groups(w, diarize);
    GroupsNonEmpty(w, diarize);
    GroupsPartition(w, diarize);
    AllKept(groups);
    EmitIsKept(groups, diarize);
    var g := groups[k];
    forall x: Node | x in g
      ensures Strip(x.word) != ""
    {
      InFlatten(groups, k, x);
    }
    at := TextSpells(g);
    assert ReportedTexts(Reports(g)) == Texts(g);
  }

  lemma {:induction false} InFlatten<T>(groups: seq<seq<T>>, k: nat, x: T)
    requires k < |groups| && x in groups[k]
    ensures x in Flatten(groups)
  {
    if k < |groups| - 1 { InFlatten(groups[..|groups| - 1], k, x); }
  }

  /** The segments' words, one after the other, are the words with their texts, times, scores and tags. */
  lemma ReportedFields(w: seq<Node>, diarize: bool, i: nat)
    requires NoBlankWord(w) && i < |w|
    ensures var r := AllReports(Assembled(w, diarize));
      |r| == |w| && r[i] == WordOut(w[i].word, w[i].start, w[i].end, w[i].score, w[i].tag)
  {
    hide Assembled;
    AssembledKeepsWords(w, diarize);
  }

  // ----- where segments are cut

  predicate SentenceMark(c: char) { c == '.' || c == '!' || c == '?' || c == '\U{2026}' }

  /** A mark stands here and only space after it. */
  ghost predicate ClosesAt(word: string, k: nat) {
    k < |word| && SentenceMark(word[k]) && forall m :: k < m < |word| ==> IsSpace(word[m])
  }

  lemma EndsSentenceMeans(word: string)
    ensures EndsSentence(word) <==> exists k: nat :: ClosesAt(word, k)
  {
    hide IsSpace;
    var s := StripRight(word);
    if EndsSentence(word) {
      assert ClosesAt(word, |s| - 1);
    }
    if k: nat :| ClosesAt(word, k) {
      MarkIsNoSpace(word[k]);
      assert |s| > 0 && !IsSpace(word[|s| - 1]);
      assert k == |s| - 1;
    }
  }

  lemma MarkIsNoSpace(c: char)
    requires SentenceMark(c)
    ensures !IsSpace(c)
  {
  }

  /** Two neighbouring words fall into different segments exactly when, with diarization, their speakers differ, or
      the first one closes a sentence. */
  lemma BorderMeans(prev: Node, next: Node, diarize: bool)
    ensures Border(prev, next, diarize) <==>
      (diarize && prev.speaker != next.speaker) || exists k: nat :: ClosesAt(prev.word, k)
  {
    hide EndsSentence, ClosesAt;
    EndsSentenceMeans(prev.word);
  }
}
