/** Word nodes shared by the pipeline stages: the mutable record the stages pass
    around, and the immutable value it denotes at a moment. */
module Words {

  datatype Option<+T> = None | Some(value: T)

  datatype Node = Node(
    word: string, start: real, end: real, score: real,
    tag: Option<string>, leading: string, trailing: string,
    speaker: Option<string>)

  /** The record of one word. Later stages move its times and set its speaker in place. */
  class WordNode {
    const word: string
    var start: real
    var end: real
    const score: real
    const tag: Option<string>
    const leading: string
    const trailing: string
    var speaker: Option<string>

    constructor (n: Node)
      ensures View() == n
    {
      word, score, tag, leading, trailing := n.word, n.score, n.tag, n.leading, n.trailing;
      start, end, speaker := n.start, n.end, n.speaker;
    }

    ghost function View(): Node
      reads this
    {
      Node(word, start, end, score, tag, leading, trailing, speaker)
    }
  }

  ghost function Views(words: seq<WordNode>): (v: seq<Node>)
    reads words
    ensures |v| == |words|
    ensures forall i :: 0 <= i < |words| ==> v[i] == words[i].View()
  {
    if words == [] then [] else Views(words[..|words| - 1]) + [words[|words| - 1].View()]
  }

  function Max(a: real, b: real): real { if a < b then b else a }

  function Min(a: real, b: real): real { if a < b then a else b }

  ghost predicate Distinct<T>(s: seq<T>) {
    forall i, j :: 0 <= i < j < |s| ==> s[i] != s[j]
  }

  /** Every word has start <= end and ends no later than the next one starts. */
  ghost predicate Ordered(w: seq<Node>) {
    && (forall i :: 0 <= i < |w| ==> w[i].start <= w[i].end)
    && (forall i, j :: 0 <= i && j == i + 1 && j < |w| ==> w[i].end <= w[j].start)
  }

  ghost predicate Within(w: seq<Node>, lo: real, hi: real) {
    forall i :: 0 <= i < |w| ==> lo <= w[i].start && w[i].end <= hi
  }

  /** The texts of the words, in order. */
  function Texts(w: seq<Node>): (t: seq<string>)
    ensures |t| == |w| && forall i :: 0 <= i < |w| ==> t[i] == w[i].word
  {
    seq(|w|, i requires 0 <= i < |w| => w[i].word)
  }

  /** The parts, one after the other. */
  function Flatten<T>(runs: seq<seq<T>>): seq<T> {
    if runs == [] then [] else Flatten(runs[..|runs| - 1]) + runs[|runs| - 1]
  }

  lemma FlattenAppend<T>(runs: seq<seq<T>>, run: seq<T>)
    ensures Flatten(runs + [run]) == Flatten(runs) + run
  {
    assert (runs + [run])[..|runs|] == runs;
  }

  // ----- joining texts

  /** Python's c.join(parts) for a separator of one character. */
  function Join(parts: seq<string>, c: char): string {
    if parts == [] then "" else if |parts| == 1 then parts[0] else parts[0] + [c] + Join(parts[1..], c)
  }

  /** The part stands in the text at this place. */
  ghost predicate StandsAt(text: string, part: string, at: nat) {
    at + |part| <= |text| && text[at..at + |part|] == part
  }

  /** One separator stands between the part and the place of the next one. */
  ghost predicate FollowsAt(text: string, part: string, c: char, at: nat, next: nat) {
    next == at + |part| + 1 && next <= |text| && text[next - 1] == c
  }

  /** The text is the parts at these places, one after the other from the start to the end, with one separator between
      neighbours. */
  ghost predicate Spells(text: string, parts: seq<string>, c: char, at: seq<nat>) {
    && |at| == |parts| > 0 && at[0] == 0
    && (forall k :: 0 <= k < |parts| ==> StandsAt(text, parts[k], at[k]))
    && (forall k, m :: 0 <= k && m == k + 1 && m < |parts| ==> FollowsAt(text, parts[k], c, at[k], at[m]))
    && at[|at| - 1] + |parts[|parts| - 1]| == |text|
  }

  lemma {:induction false} JoinSpells(parts: seq<string>, c: char) returns (at: seq<nat>)
    requires parts != []
    ensures Spells(Join(parts, c), parts, c, at)
  {
    if |parts| == 1 {
      at := [0];
    } else {
      var rest := JoinSpells(parts[1..], c);
      at := [0] + seq(|rest|, k requires 0 <= k < |rest| => rest[k] + |parts[0]| + 1);
      SpellsMore(parts[0], Join(parts[1..], c), parts[1..], c, rest);
      assert parts == [parts[0]] + parts[1..];
    }
  }

  lemma SpellsMore(first: string, text: string, parts: seq<string>, c: char, at: seq<nat>)
    requires Spells(text, parts, c, at)
    ensures Spells(first + [c] + text, [first] + parts, c,
                   [0] + seq(|at|, k requires 0 <= k < |at| => at[k] + |first| + 1))
  {
    hide StandsAt, FollowsAt;
    var whole, all, n := first + [c] + text, [first] + parts, |first| + 1;
    var places := [0] + seq(|at|, k requires 0 <= k < |at| => at[k] + n);
    FirstStands(first, c, text);
    forall k | 0 <= k < |all|
      ensures StandsAt(whole, all[k], places[k])
    {
      if k > 0 { StandsLater(first, c, text, parts[k - 1], at[k - 1]); }
    }
    forall k, m | 0 <= k && m == k + 1 && m < |all|
      ensures FollowsAt(whole, all[k], c, places[k], places[m])
    {
      if k > 0 { FollowsLater(first, c, text, parts[k - 1], at[k - 1], at[m - 1]); }
    }
  }

  lemma FirstStands(first: string, c: char, text: string)
    ensures StandsAt(first + [c] + text, first, 0)
    ensures FollowsAt(first + [c] + text, first, c, 0, |first| + 1)
  {
    assert (first + [c] + text)[0..|first|] == first;
  }

  lemma StandsLater(first: string, c: char, text: string, part: string, at: nat)
    requires StandsAt(text, part, at)
    ensures StandsAt(first + [c] + text, part, at + |first| + 1)
  {
    var whole, n := first + [c] + text, |first| + 1;
    assert whole[n..] == text;
    assert whole[at + n..at + n + |part|] == whole[n..][at..at + |part|];
  }

  lemma FollowsLater(first: string, c: char, text: string, part: string, at: nat, next: nat)
    requires FollowsAt(text, part, c, at, next)
    ensures FollowsAt(first + [c] + text, part, c, at + |first| + 1, next + |first| + 1)
  {
  }
}
