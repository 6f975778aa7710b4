/** Splitting recognised text into words with their attached punctuation: the
    matches of ([^\w\s]+)?(\w+)([^\w\s]*)? from left to right. Which characters
    are word characters is the regular-expression library's business: a parameter. */
module ParseText {

  datatype TokenWord = TokenWord(
    letters: string, leading: string, trailing: string, charStart: nat, charEnd: nat)
  {
    /** The text the word contributes to the transcript. */
    function Text(): string { leading + letters + trailing }
  }

  datatype CharClass = Space | Letter | Mark

  predicate IsSpace(c: char) {
    || '\t' <= c <= '\r' || '\U{1c}' <= c <= ' ' || c == '\U{85}' || c == '\U{a0}'
    || c == '\U{1680}' || '\U{2000}' <= c <= '\U{200a}' || c == '\U{2028}' || c == '\U{2029}'
    || c == '\U{202f}' || c == '\U{205f}' || c == '\U{3000}'
  }

  function Classify(isWord: char -> bool, c: char): CharClass {
    if IsSpace(c) then Space else if isWord(c) then Letter else Mark
  }

  ghost predicate Blank(s: string) { forall i :: 0 <= i < |s| ==> IsSpace(s[i]) }

  function StripLeft(s: string): (r: string)
    ensures r == "" || !IsSpace(r[0])
    ensures |r| <= |s| && r == s[|s| - |r|..]
    ensures forall i :: 0 <= i < |s| - |r| ==> IsSpace(s[i])
    ensures r == "" <==> Blank(s)
  {
    if s != "" && IsSpace(s[0]) then StripLeft(s[1..]) else s
  }

  function StripRight(s: string): (r: string)
    ensures r == "" || !IsSpace(r[|r| - 1])
    ensures r <= s
    ensures forall i :: |r| <= i < |s| ==> IsSpace(s[i])
    ensures r == "" <==> Blank(s)
  {
    if s != "" && IsSpace(s[|s| - 1]) then StripRight(s[..|s| - 1]) else s
  }

  function Strip(s: string): (r: string)
    ensures r == "" <==> Blank(s)
  {
    StripRight(StripLeft(s))
  }

  /** What is cut off is space, and what is left does not begin or end with any. */
  lemma StripMeans(s: string) returns (a: nat, b: nat)
    ensures a <= b <= |s| && Strip(s) == s[a..b]
    ensures forall i :: 0 <= i < |s| && !(a <= i < b) ==> IsSpace(s[i])
    ensures a < b ==> !IsSpace(s[a]) && !IsSpace(s[b - 1])
  {
    hide IsSpace, StripLeft, StripRight;
    var l := StripLeft(s);
    var r := StripRight(l);
    a, b := |s| - |l|, |s| - |l| + |r|;
    TrimmedRest(s, l, r);
  }

  lemma TrimmedRest(s: string, l: string, r: string)
    requires |l| <= |s| && l == s[|s| - |l|..] && r <= l
    requires forall i :: 0 <= i < |s| - |l| ==> IsSpace(s[i])
    requires forall i :: |r| <= i < |l| ==> IsSpace(l[i])
    requires l == "" || !IsSpace(l[0])
    requires r == "" || !IsSpace(r[|r| - 1])
    ensures var a := |s| - |l|;
      && r == s[a..a + |r|]
      && (forall i :: 0 <= i < |s| && !(a <= i < a + |r|) ==> IsSpace(s[i]))
      && (r != "" ==> !IsSpace(s[a]) && !IsSpace(s[a + |r| - 1]))
  {
    hide IsSpace;
    var a := |s| - |l|;
    assert forall i :: a <= i < |s| ==> s[i] == l[i - a];
    if r != "" { assert r[0] == s[a] && r[|r| - 1] == s[a + |r| - 1]; }
  }

  lemma StripNothing(s: string)
    requires s != "" && !IsSpace(s[0]) && !IsSpace(s[|s| - 1])
    ensures Strip(s) == s
  {
  }

  /** End of the longest run of characters of class k that starts at pos. */
  function RunTo(isWord: char -> bool, text: string, pos: nat, k: CharClass): (e: nat)
    requires pos <= |text|
    ensures pos <= e <= |text|
    ensures forall i :: pos <= i < e ==> Classify(isWord, text[i]) == k
    ensures e < |text| ==> Classify(isWord, text[e]) != k
    decreases |text| - pos
  {
    if pos < |text| && Classify(isWord, text[pos]) == k then RunTo(isWord, text, pos + 1, k) else pos
  }

  /** The matches from pos on. Both the letters and the trailing marks are taken greedily;
      leading marks only match when letters follow them at once. */
  function Matches(isWord: char -> bool, text: string, pos: nat): (words: seq<TokenWord>)
    requires pos <= |text|
    decreases |text| - pos
  {
    if pos == |text| then []
    else
      var lettersAt := RunTo(isWord, text, pos, Mark);
      var lettersEnd := RunTo(isWord, text, lettersAt, Letter);
      if lettersAt == lettersEnd then Matches(isWord, text, pos + 1)
      else
        var next := RunTo(isWord, text, lettersEnd, Mark);
        [TokenWord(text[lettersAt..lettersEnd], text[pos..lettersAt], text[lettersEnd..next], lettersAt, lettersEnd)]
        + Matches(isWord, text, next)
  }

  function Parse(isWord: char -> bool, text: string): (words: seq<TokenWord>)
  {
    var words := Matches(isWord, text, 0);
    if words == [] && Strip(text) != "" then [TokenWord(Strip(text), "", "", 0, |text|)] else words
  }

  // ----- what the words keep of the text

  function Written(words: seq<TokenWord>): string {
    if words == [] then "" else words[0].Text() + Written(words[1..])
  }

  ghost predicate LetterBefore(isWord: char -> bool, text: string, i: nat)
    requires i <= |text|
  {
    i > 0 && (match Classify(isWord, text[i - 1])
              case Letter => true
              case Space => false
              case Mark => LetterBefore(isWord, text, i - 1))
  }

  ghost predicate LetterAfter(isWord: char -> bool, text: string, i: nat)
    requires i <= |text|
  {
    var e := RunTo(isWord, text, i, Mark);
    e < |text| && Classify(isWord, text[e]) == Letter
  }

  /** A character survives unless it is a space, or a mark whose run touches no letter. */
  ghost predicate Survives(isWord: char -> bool, text: string, i: nat)
    requires i < |text|
  {
    match Classify(isWord, text[i])
    case Letter => true
    case Space => false
    case Mark => LetterBefore(isWord, text, i) || LetterAfter(isWord, text, i)
  }

  ghost function Survivors(isWord: char -> bool, text: string, i: nat): string
    requires i <= |text|
    decreases |text| - i
  {
    if i == |text| then ""
    else (if Survives(isWord, text, i) then [text[i]] else "") + Survivors(isWord, text, i + 1)
  }

  lemma SurvivorsAt(isWord: char -> bool, text: string, i: nat)
    requires i < |text|
    ensures Survivors(isWord, text, i) ==
      if Survives(isWord, text, i) then [text[i]] + Survivors(isWord, text, i + 1) else Survivors(isWord, text, i + 1)
  {
    hide Survives;
  }

  lemma {:induction false} SurvivorsRun(isWord: char -> bool, text: string, a: nat, b: nat)
    requires a <= b <= |text|
    requires forall i :: a <= i < b ==> Survives(isWord, text, i)
    ensures Survivors(isWord, text, a) == text[a..b] + Survivors(isWord, text, b)
    decreases b - a
  {
    hide Survives, Survivors;
    if a < b {
      SurvivorsRun(isWord, text, a + 1, b);
      SurvivorsAt(isWord, text, a);
      assert text[a..b] == [text[a]] + text[a + 1..b];
    }
  }

  lemma {:induction false} MarksBeforeLetter(isWord: char -> bool, text: string, i: nat, e: nat)
    requires i <= e < |text| && Classify(isWord, text[e]) == Letter
    requires forall m :: i <= m < e ==> Classify(isWord, text[m]) == Mark
    ensures forall m :: i <= m < e ==> Survives(isWord, text, m)
    ensures RunTo(isWord, text, i, Mark) == e
    decreases e - i
  {
    if i < e { MarksBeforeLetter(isWord, text, i + 1, e); }
  }

  lemma {:induction false} MarksAfterLetter(isWord: char -> bool, text: string, s: nat, i: nat)
    requires 0 < s <= i <= |text| && Classify(isWord, text[s - 1]) == Letter
    requires forall m :: s <= m < i ==> Classify(isWord, text[m]) == Mark
    ensures LetterBefore(isWord, text, i)
    decreases i
  {
    if s < i { MarksAfterLetter(isWord, text, s, i - 1); }
  }

  lemma ThreeSlices(s: string, a: nat, b: nat, c: nat, d: nat)
    requires a <= b <= c <= d <= |s|
    ensures s[a..d] == s[a..b] + s[b..c] + s[c..d]
  {
  }

  /** One match takes a stretch of surviving characters, all of them. */
  lemma MatchSurvives(isWord: char -> bool, text: string, pos: nat, at: nat, end: nat, next: nat)
    requires pos <= at < end <= next <= |text|
    requires at == RunTo(isWord, text, pos, Mark)
    requires end == RunTo(isWord, text, at, Letter)
    requires next == RunTo(isWord, text, end, Mark)
    ensures Survivors(isWord, text, pos) ==
      text[pos..at] + text[at..end] + text[end..next] + Survivors(isWord, text, next)
  {
    MarksBeforeLetter(isWord, text, pos, at);
    forall m | end <= m < next
      ensures Survives(isWord, text, m)
    {
      MarksAfterLetter(isWord, text, end, m);
    }
    hide Survives, Survivors, RunTo, LetterBefore, Classify;
    SurvivorsRun(isWord, text, pos, next);
    ThreeSlices(text, pos, at, end, next);
  }

  /** Where no match begins there is a character that does not survive, and no letter. */
  lemma NoMatchHere(isWord: char -> bool, text: string, pos: nat)
    requires pos < |text|
    requires var at := RunTo(isWord, text, pos, Mark); at == RunTo(isWord, text, at, Letter)
    requires Classify(isWord, text[pos]) == Mark ==> !LetterBefore(isWord, text, pos)
    ensures !Survives(isWord, text, pos) && !LetterBefore(isWord, text, pos + 1)
  {
  }

  /** The words, written one after the other, are exactly the surviving characters, in order. */
  lemma {:induction false} MatchesWriteSurvivors(isWord: char -> bool, text: string, pos: nat)
    requires pos <= |text|
    requires pos < |text| && Classify(isWord, text[pos]) == Mark ==> !LetterBefore(isWord, text, pos)
    ensures Written(Matches(isWord, text, pos)) == Survivors(isWord, text, pos)
    decreases |text| - pos
  {
    hide Survives, RunTo, Survivors, Written, Classify, LetterBefore, Matches;
    if pos == |text| {
      NothingWritten(isWord, text);
      NothingToMatch(isWord, text);
    } else {
      var at := RunTo(isWord, text, pos, Mark);
      var end := RunTo(isWord, text, at, Letter);
      if at == end {
        NoMatch(isWord, text, pos);
        NoMatchHere(isWord, text, pos);
        SurvivorsAt(isWord, text, pos);
        MatchesWriteSurvivors(isWord, text, pos + 1);
      } else {
        var next := RunTo(isWord, text, end, Mark);
        MatchSurvives(isWord, text, pos, at, end, next);
        MatchesWriteSurvivors(isWord, text, next);
        var t := TokenWord(text[at..end], text[pos..at], text[end..next], at, end);
        WrittenCons(t, Matches(isWord, text, next));
        OneMatch(isWord, text, pos, at, end, next);
      }
    }
  }

  lemma OneMatch(isWord: char -> bool, text: string, pos: nat, at: nat, end: nat, next: nat)
    requires pos <= at < end <= next <= |text|
    requires at == RunTo(isWord, text, pos, Mark)
    requires end == RunTo(isWord, text, at, Letter)
    requires next == RunTo(isWord, text, end, Mark)
    ensures Matches(isWord, text, pos) ==
      [TokenWord(text[at..end], text[pos..at], text[end..next], at, end)] + Matches(isWord, text, next)
  {
    hide RunTo, Classify;
  }

  lemma NoMatch(isWord: char -> bool, text: string, pos: nat)
    requires pos < |text|
    requires var at := RunTo(isWord, text, pos, Mark); at == RunTo(isWord, text, at, Letter)
    ensures Matches(isWord, text, pos) == Matches(isWord, text, pos + 1)
  {
    hide RunTo, Classify;
  }

  lemma NothingToMatch(isWord: char -> bool, text: string)
    ensures Matches(isWord, text, |text|) == []
  {
  }

  lemma NothingWritten(isWord: char -> bool, text: string)
    ensures Written([]) == "" == Survivors(isWord, text, |text|)
  {
  }

  lemma WrittenCons(t: TokenWord, rest: seq<TokenWord>)
    ensures Written([t] + rest) == t.Text() + Written(rest)
  {
    assert ([t] + rest)[1..] == rest;
  }

  lemma {:induction false} MatchesNonEmptyLetters(isWord: char -> bool, text: string, pos: nat)
    requires pos <= |text|
    ensures forall t :: t in Matches(isWord, text, pos) ==>
      && t.letters != "" && t.charEnd <= |text| && pos <= t.charStart <= t.charEnd
      && t.letters == text[t.charStart..t.charEnd]
      && forall i :: 0 <= i < |t.letters| ==> Classify(isWord, t.letters[i]) == Letter
    decreases |text| - pos
  {
    if pos < |text| {
      var at := RunTo(isWord, text, pos, Mark);
      var end := RunTo(isWord, text, at, Letter);
      if at == end {
        MatchesNonEmptyLetters(isWord, text, pos + 1);
      } else {
        MatchesNonEmptyLetters(isWord, text, RunTo(isWord, text, end, Mark));
      }
    }
  }

  lemma {:induction false} LetterIsMatched(isWord: char -> bool, text: string, pos: nat, i: nat)
    requires pos <= i < |text| && Classify(isWord, text[i]) == Letter
    ensures Matches(isWord, text, pos) != []
    decreases |text| - pos
  {
    var at := RunTo(isWord, text, pos, Mark);
    var end := RunTo(isWord, text, at, Letter);
    if at == end { LetterIsMatched(isWord, text, pos + 1, i); }
  }

  /** A text gives no words exactly when it is blank. */
  lemma ParseEmptyIffBlank(isWord: char -> bool, text: string)
    ensures Parse(isWord, text) == [] <==> Strip(text) == ""
    ensures forall t :: t in Parse(isWord, text) ==> t.letters != ""
  {
    MatchesNonEmptyLetters(isWord, text, 0);
    var words := Matches(isWord, text, 0);
    if words != [] {
      assert words[0] in words;
      var i := words[0].charStart;
      assert text[i] == words[0].letters[0];
      assert !IsSpace(text[i]);
    }
  }

  ghost predicate HasLetter(isWord: char -> bool, text: string) {
    exists i :: 0 <= i < |text| && Classify(isWord, text[i]) == Letter
  }

  lemma MatchesIffLetter(isWord: char -> bool, text: string)
    ensures Matches(isWord, text, 0) != [] <==> HasLetter(isWord, text)
  {
    MatchesNonEmptyLetters(isWord, text, 0);
    var words := Matches(isWord, text, 0);
    if words != [] {
      assert words[0] in words;
      assert text[words[0].charStart] == words[0].letters[0];
    }
    if HasLetter(isWord, text) {
      var i :| 0 <= i < |text| && Classify(isWord, text[i]) == Letter;
      LetterIsMatched(isWord, text, 0, i);
    }
  }

  /** The words write out the surviving characters; a text without any letter gives
      one word, the whole stripped text. */
  lemma ParseKeepsText(isWord: char -> bool, text: string)
    ensures Written(Parse(isWord, text)) ==
      if HasLetter(isWord, text) then Survivors(isWord, text, 0) else Strip(text)
  {
    hide Strip, Survivors, Survives, HasLetter, Matches;
    MatchesWriteSurvivors(isWord, text, 0);
    MatchesIffLetter(isWord, text);
    if Matches(isWord, text, 0) == [] {
      assert Survivors(isWord, text, 0) == "";
      WrittenCons(TokenWord(Strip(text), "", "", 0, |text|), []);
    }
  }

  // ----- and when it is all of it

  /** The text without its spaces, from i on. */
  ghost function NonSpaces(text: string, i: nat): string
    requires i <= |text|
    decreases |text| - i
  {
    if i == |text| then "" else (if IsSpace(text[i]) then "" else [text[i]]) + NonSpaces(text, i + 1)
  }

  lemma NonSpacesAt(text: string, i: nat)
    requires i < |text|
    ensures NonSpaces(text, i) ==
      if IsSpace(text[i]) then NonSpaces(text, i + 1) else [text[i]] + NonSpaces(text, i + 1)
  {
    hide IsSpace;
  }

  lemma {:induction false} SurvivorsOfAll(isWord: char -> bool, text: string, i: nat)
    requires i <= |text|
    ensures |Survivors(isWord, text, i)| <= |NonSpaces(text, i)|
    ensures Survivors(isWord, text, i) == NonSpaces(text, i) <==>
      forall m :: i <= m < |text| ==> IsSpace(text[m]) || Survives(isWord, text, m)
    decreases |text| - i
  {
    if i < |text| {
      SurvivorsOfAll(isWord, text, i + 1);
      var s, n := Survivors(isWord, text, i + 1), NonSpaces(text, i + 1);
      if Survives(isWord, text, i) {
        assert Survivors(isWord, text, i)[1..] == s && NonSpaces(text, i)[1..] == n;
      } else if !IsSpace(text[i]) {
        assert |Survivors(isWord, text, i)| < |NonSpaces(text, i)|;
      } else {
        assert Survivors(isWord, text, i) == s && NonSpaces(text, i) == n;
      }
    }
  }

  lemma {:induction false} SurvivorsNotSpace(isWord: char -> bool, text: string, i: nat)
    requires i <= |text|
    ensures forall k :: 0 <= k < |Survivors(isWord, text, i)| ==> !IsSpace(Survivors(isWord, text, i)[k])
    decreases |text| - i
  {
    if i < |text| { SurvivorsNotSpace(isWord, text, i + 1); }
  }

  lemma {:induction false} AllNonSpace(s: string, i: nat)
    requires i <= |s| && forall k :: i <= k < |s| ==> !IsSpace(s[k])
    ensures NonSpaces(s, i) == s[i..]
    decreases |s| - i
  {
    if i < |s| { AllNonSpace(s, i + 1); }
  }

  /** Spaces at the front and at the back do not count. */
  lemma {:induction false} NonSpacesFront(s: string, i: nat, j: nat)
    requires i <= j <= |s| && forall k :: i <= k < j ==> IsSpace(s[k])
    ensures NonSpaces(s, i) == NonSpaces(s, j)
    decreases j - i
  {
    if i < j { NonSpacesFront(s, i + 1, j); }
  }

  lemma {:induction false} NonSpacesSuffix(s: string, j: nat, i: nat)
    requires j <= |s| && i <= |s| - j
    ensures NonSpaces(s[j..], i) == NonSpaces(s, j + i)
    decreases |s| - j - i
  {
    hide IsSpace, NonSpaces;
    var r := s[j..];
    if i < |r| {
      NonSpacesSuffix(s, j, i + 1);
      assert r[i] == s[j + i];
      NonSpacesAt(r, i);
      NonSpacesAt(s, j + i);
    } else {
      NoNonSpaces(r);
      NoNonSpaces(s);
    }
  }

  lemma {:induction false} NonSpacesPrefix(s: string, r: string, i: nat)
    requires i <= |r| && r <= s && forall k :: |r| <= k < |s| ==> IsSpace(s[k])
    ensures NonSpaces(r, i) == NonSpaces(s, i)
    decreases |r| - i
  {
    hide IsSpace, NonSpaces;
    if i < |r| {
      NonSpacesPrefix(s, r, i + 1);
      NonSpacesAt(s, i);
      NonSpacesAt(r, i);
    } else {
      NonSpacesFront(s, i, |s|);
      NoNonSpaces(r);
      NoNonSpaces(s);
    }
  }

  lemma NoNonSpaces(s: string)
    ensures NonSpaces(s, |s|) == ""
  {
  }

  lemma StripKeepsNonSpaces(s: string)
    ensures NonSpaces(Strip(s), 0) == NonSpaces(s, 0)
  {
    var l := StripLeft(s);
    var j := |s| - |l|;
    NonSpacesFront(s, 0, j);
    NonSpacesSuffix(s, j, 0);
    NonSpacesPrefix(l, StripRight(l), 0);
  }

  /** Splitting loses no character but spaces exactly when the text has no letter at all or each of its runs
      of marks touches one. */
  lemma NothingLost(isWord: char -> bool, text: string)
    ensures NonSpaces(Written(Parse(isWord, text)), 0) == NonSpaces(text, 0) <==>
      || !HasLetter(isWord, text)
      || forall m :: 0 <= m < |text| ==> IsSpace(text[m]) || Survives(isWord, text, m)
  {
    hide Strip, Survives, Parse, Written, NonSpaces;
    ParseKeepsText(isWord, text);
    if HasLetter(isWord, text) {
      SurvivorsNotSpace(isWord, text, 0);
      AllNonSpace(Survivors(isWord, text, 0), 0);
      SurvivorsOfAll(isWord, text, 0);
    } else {
      StripKeepsNonSpaces(text);
    }
  }

  /** A mark between two spaces does not survive, and neither do the spaces. */
  lemma LoneMark(isWord: char -> bool, text: string, i: nat)
    requires 0 < i < |text| - 1 && IsSpace(text[i - 1]) && IsSpace(text[i + 1])
    requires Classify(isWord, text[i]) == Mark
    ensures !Survives(isWord, text, i - 1) && !Survives(isWord, text, i) && !Survives(isWord, text, i + 1)
  {
    assert RunTo(isWord, text, i + 1, Mark) == i + 1;
    assert RunTo(isWord, text, i, Mark) == i + 1;
  }

  /** Two letters with a mark alone between them. */
  ghost predicate LoneMarkText(isWord: char -> bool, text: string) {
    && |text| == 5 && IsSpace(text[1]) && IsSpace(text[3])
    && Classify(isWord, text[0]) == Letter && Classify(isWord, text[2]) == Mark && Classify(isWord, text[4]) == Letter
  }

  lemma LoneMarkSurvival(isWord: char -> bool, text: string)
    requires LoneMarkText(isWord, text)
    ensures Survives(isWord, text, 0) && Survives(isWord, text, 4)
    ensures !Survives(isWord, text, 1) && !Survives(isWord, text, 2) && !Survives(isWord, text, 3)
    ensures HasLetter(isWord, text)
  {
    LoneMark(isWord, text, 2);
  }

  lemma LoneMarkSurvivors(isWord: char -> bool, text: string)
    requires LoneMarkText(isWord, text)
    ensures Survivors(isWord, text, 0) == [text[0], text[4]] && HasLetter(isWord, text)
  {
    NothingWritten(isWord, text);
    LoneMarkSurvival(isWord, text);
    hide Survivors, Survives, HasLetter, LoneMarkText;
    SurvivorsAt(isWord, text, 4);
    SurvivorsAt(isWord, text, 3);
    SurvivorsAt(isWord, text, 2);
    SurvivorsAt(isWord, text, 1);
    SurvivorsAt(isWord, text, 0);
  }

  lemma LoneMarkNonSpaces(text: string)
    requires text == "a - b"
    ensures NonSpaces(text, 0) == "a-b"
  {
    hide NonSpaces;
    NoNonSpaces(text);
    NonSpacesAt(text, 4);
    NonSpacesAt(text, 3);
    NonSpacesAt(text, 2);
    NonSpacesAt(text, 1);
    NonSpacesAt(text, 0);
  }

  /** A mark that stands alone between two words is in none of them. */
  lemma LoneMarkLost(isWord: char -> bool)
    requires isWord('a') && isWord('b') && !isWord('-')
    ensures Written(Parse(isWord, "a - b")) == "ab"
    ensures NonSpaces("a - b", 0) == "a-b"
  {
    assert LoneMarkText(isWord, "a - b");
    hide Survivors, Parse, Written, Strip, HasLetter, NonSpaces, LoneMarkText;
    ParseKeepsText(isWord, "a - b");
    LoneMarkSurvivors(isWord, "a - b");
    LoneMarkNonSpaces("a - b");
  }

  // ----- which marks go with which word

  /** A word stands in the text with its marks around it: letters alone, as many as there are; after them all marks that
      follow; before them all marks that go before, back to a space or the start. */
  ghost predicate StandsIn(isWord: char -> bool, text: string, t: TokenWord) {
    && |t.leading| <= t.charStart < t.charEnd && t.charEnd + |t.trailing| <= |text|
    && t.leading == text[t.charStart - |t.leading|..t.charStart]
    && t.letters == text[t.charStart..t.charEnd]
    && t.trailing == text[t.charEnd..t.charEnd + |t.trailing|]
    && AllOf(isWord, t.leading, Mark) && AllOf(isWord, t.letters, Letter) && AllOf(isWord, t.trailing, Mark)
    && EndsRun(isWord, text, t.charEnd, Letter) && EndsRun(isWord, text, t.charEnd + |t.trailing|, Mark)
    && (t.leading != "" && t.charStart > |t.leading| ==>
          Classify(isWord, text[t.charStart - |t.leading| - 1]) == Space)
  }

  ghost predicate AllOf(isWord: char -> bool, s: string, k: CharClass) {
    forall i :: 0 <= i < |s| ==> Classify(isWord, s[i]) == k
  }

  /** No run of this class goes on here. */
  ghost predicate EndsRun(isWord: char -> bool, text: string, at: nat, k: CharClass) {
    at < |text| ==> Classify(isWord, text[at]) != k
  }

  /** Marks from pos on that letters follow begin at a space or at the start. */
  ghost predicate FreshMarks(isWord: char -> bool, text: string, pos: nat)
    requires pos <= |text|
  {
    0 < pos < |text| && Classify(isWord, text[pos]) == Mark && LetterAfter(isWord, text, pos) ==>
      Classify(isWord, text[pos - 1]) == Space
  }

  lemma MatchStands(isWord: char -> bool, text: string, pos: nat, at: nat, end: nat, next: nat)
    requires pos <= at < end <= next <= |text| && FreshMarks(isWord, text, pos)
    requires at == RunTo(isWord, text, pos, Mark)
    requires end == RunTo(isWord, text, at, Letter)
    requires next == RunTo(isWord, text, end, Mark)
    ensures StandsIn(isWord, text, TokenWord(text[at..end], text[pos..at], text[end..next], at, end))
  {
    hide RunTo, Classify, AllOf;
    RunIsAll(isWord, text, pos, at, Mark);
    RunIsAll(isWord, text, at, end, Letter);
    RunIsAll(isWord, text, end, next, Mark);
    if 0 < pos < at { assert LetterAfter(isWord, text, pos); }
  }

  lemma RunIsAll(isWord: char -> bool, text: string, a: nat, b: nat, k: CharClass)
    requires a <= b <= |text| && forall i :: a <= i < b ==> Classify(isWord, text[i]) == k
    ensures AllOf(isWord, text[a..b], k)
  {
    hide Classify;
  }

  lemma NextFresh(isWord: char -> bool, text: string, pos: nat)
    requires pos < |text|
    requires var at := RunTo(isWord, text, pos, Mark); at == RunTo(isWord, text, at, Letter)
    ensures FreshMarks(isWord, text, pos + 1)
  {
    hide IsSpace;
  }

  /** Every match stands in the text with its own marks, one match after the other. */
  lemma {:induction false} MatchesStand(isWord: char -> bool, text: string, pos: nat)
    requires pos <= |text| && FreshMarks(isWord, text, pos)
    ensures var words := Matches(isWord, text, pos);
      && (forall i :: 0 <= i < |words| ==> StandsIn(isWord, text, words[i]))
      && (words != [] ==> pos <= words[0].charStart - |words[0].leading|)
      && forall i, j :: 0 <= i && j == i + 1 && j < |words| ==>
           words[i].charEnd + |words[i].trailing| <= words[j].charStart - |words[j].leading|
    decreases |text| - pos
  {
    hide RunTo, Classify, StandsIn, FreshMarks, Matches;
    if pos == |text| {
      NothingToMatch(isWord, text);
    } else {
      var at := RunTo(isWord, text, pos, Mark);
      var end := RunTo(isWord, text, at, Letter);
      if at == end {
        NoMatch(isWord, text, pos);
        NextFresh(isWord, text, pos);
        MatchesStand(isWord, text, pos + 1);
      } else {
        var next := RunTo(isWord, text, end, Mark);
        OneMatch(isWord, text, pos, at, end, next);
        MatchStands(isWord, text, pos, at, end, next);
        AfterMarks(isWord, text, next);
        MatchesStand(isWord, text, next);
      }
    }
  }

  lemma AfterMarks(isWord: char -> bool, text: string, next: nat)
    requires next <= |text| && EndsRun(isWord, text, next, Mark)
    ensures FreshMarks(isWord, text, next)
  {
  }

  /** The words of a text with letters stand in it in this way, one after the other. */
  lemma ParsedStand(isWord: char -> bool, text: string)
    requires HasLetter(isWord, text)
    ensures var words := Parse(isWord, text);
      && words != []
      && (forall i :: 0 <= i < |words| ==> StandsIn(isWord, text, words[i]))
      && forall i, j :: 0 <= i && j == i + 1 && j < |words| ==>
           words[i].charEnd + |words[i].trailing| <= words[j].charStart - |words[j].leading|
  {
    hide StandsIn, Matches, HasLetter;
    MatchesIffLetter(isWord, text);
    MatchesStand(isWord, text, 0);
  }
}
