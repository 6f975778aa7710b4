/** Which speaker a word belongs to, and that the answer does not depend on the order
    of the diarization segments. */
module SpeakerLabels {
  import opened Words

  datatype DiarizationNode = DiarizationNode(speakerId: string, start: real, end: real)

  const IOW_THRESHOLD: real := 0.5
  const TIE_TOLERANCE: real := 0.000001

  function Intersection(aStart: real, aEnd: real, bStart: real, bEnd: real): real {
    Max(0.0, Min(aEnd, bEnd) - Max(aStart, bStart))
  }

  /** The share of the word that lies in the segment. */
  function Iow(start: real, end: real, seg: DiarizationNode): real {
    var dur := end - start;
    if dur <= 0.0 then 0.0 else Intersection(start, end, seg.start, seg.end) / dur
  }

  predicate MidpointIn(start: real, end: real, seg: DiarizationNode) {
    seg.start <= (start + end) / 2.0 <= seg.end
  }

  /** Half of the word inside a segment puts the word's midpoint there: asking for
      either is asking for the midpoint. */
  lemma HalfInsideHoldsMidpoint(start: real, end: real, seg: DiarizationNode)
    requires Iow(start, end, seg) >= IOW_THRESHOLD
    ensures MidpointIn(start, end, seg)
  {
    var dur, inside := end - start, Intersection(start, end, seg.start, seg.end);
    AtLeastHalf(inside, dur);
  }

  lemma AtLeastHalf(part: real, whole: real)
    requires whole > 0.0 && part / whole >= IOW_THRESHOLD
    ensures part >= IOW_THRESHOLD * whole
  {
    assert part / whole * whole == part;
    assert (part / whole - IOW_THRESHOLD) * whole >= 0.0;
  }

  // ----- candidates

  function Stabbed(start: real, end: real, segs: seq<DiarizationNode>): seq<DiarizationNode> {
    if segs == [] then []
    else
      var last := segs[|segs| - 1];
      Stabbed(start, end, segs[..|segs| - 1]) + if MidpointIn(start, end, last) then [last] else []
  }

  function Length(s: DiarizationNode): real { s.end - s.start }

  /** The first of the shortest candidates. */
  function Shortest(c: seq<DiarizationNode>): (b: DiarizationNode)
    requires c != []
    ensures b in c && forall s :: s in c ==> Length(b) <= Length(s)
  {
    if |c| == 1 then c[0]
    else
      var b := Shortest(c[..|c| - 1]);
      var r := if Length(c[|c| - 1]) < Length(b) then c[|c| - 1] else b;
      assert c == c[..|c| - 1] + [c[|c| - 1]];
      r
  }

  function Tied(c: seq<DiarizationNode>, length: real): seq<DiarizationNode> {
    if c == [] then []
    else
      var last := c[|c| - 1];
      Tied(c[..|c| - 1], length) + if Near(Length(last), length) then [last] else []
  }

  predicate Near(a: real, b: real) { Max(a - b, b - a) < TIE_TOLERANCE }

  // ----- speaker ids in order, without repetition

  /** Strict lexicographic order. */
  predicate Below(a: string, b: string) {
    b != "" && (a == "" || a[0] < b[0] || (a[0] == b[0] && Below(a[1..], b[1..])))
  }

  lemma {:induction false} BelowTotal(a: string, b: string)
    ensures a == b || Below(a, b) || Below(b, a)
    ensures !(Below(a, b) && Below(b, a)) && !Below(a, a)
  {
    if a != "" && b != "" {
      BelowTotal(a[1..], b[1..]);
      assert a == [a[0]] + a[1..] && b == [b[0]] + b[1..];
    }
    if a != "" { BelowTotal(a[1..], a[1..]); }
  }

  lemma {:induction false} BelowTransitive(a: string, b: string, c: string)
    requires Below(a, b) && Below(b, c)
    ensures Below(a, c)
  {
    if a != "" && a[0] == b[0] == c[0] { BelowTransitive(a[1..], b[1..], c[1..]); }
  }

  function InsertId(id: string, ids: seq<string>): seq<string> {
    if ids == [] then [id]
    else if id == ids[0] then ids
    else if Below(id, ids[0]) then [id] + ids
    else [ids[0]] + InsertId(id, ids[1..])
  }

  function SortedIds(segs: seq<DiarizationNode>): seq<string> {
    if segs == [] then [] else InsertId(segs[0].speakerId, SortedIds(segs[1..]))
  }

  ghost predicate StrictlySorted(ids: seq<string>) {
    forall i, j :: 0 <= i < j < |ids| ==> Below(ids[i], ids[j])
  }

  lemma {:induction false} InsertIdSorted(id: string, ids: seq<string>)
    requires StrictlySorted(ids)
    ensures StrictlySorted(InsertId(id, ids))
    ensures forall x :: x in InsertId(id, ids) <==> x == id || x in ids
  {
    if ids != [] && id != ids[0] {
      BelowTotal(id, ids[0]);
      var r := InsertId(id, ids[1..]);
      assert ids == [ids[0]] + ids[1..];
      if Below(id, ids[0]) {
        forall j | 0 <= j < |ids|
          ensures Below(id, ids[j])
        {
          if j > 0 { BelowTransitive(id, ids[0], ids[j]); }
        }
      } else {
        InsertIdSorted(id, ids[1..]);
        forall j | 0 <= j < |r|
          ensures Below(ids[0], r[j])
        {
          assert r[j] in r;
        }
      }
    }
  }

  lemma {:induction false} SortedIdsOf(segs: seq<DiarizationNode>)
    ensures StrictlySorted(SortedIds(segs))
    ensures forall x :: x in SortedIds(segs) <==> exists s :: s in segs && s.speakerId == x
  {
    if segs != [] {
      SortedIdsOf(segs[1..]);
      InsertIdSorted(segs[0].speakerId, SortedIds(segs[1..]));
      assert segs == [segs[0]] + segs[1..];
    }
  }

  lemma SomeMember(a: seq<string>)
    ensures a == [] || exists x :: x in a
  {
    if a != [] { assert a[0] in a; }
  }

  /** A strictly sorted list is determined by its members. */
  lemma {:induction false} SortedUnique(a: seq<string>, b: seq<string>)
    requires StrictlySorted(a) && StrictlySorted(b)
    requires forall x :: x in a <==> x in b
    ensures a == b
  {
    if a == [] || b == [] {
      SomeMember(a);
      SomeMember(b);
    } else {
      SameHead(a, b);
      forall x
        ensures x in a[1..] <==> x in b[1..]
      {
        TailMembers(a, x);
        TailMembers(b, x);
      }
      SortedUnique(a[1..], b[1..]);
      assert a == [a[0]] + a[1..] && b == [b[0]] + b[1..];
    }
  }

  lemma TailMembers(a: seq<string>, x: string)
    requires StrictlySorted(a) && a != []
    ensures x in a[1..] <==> x in a && x != a[0]
  {
    BelowTotal(a[0], a[0]);
    assert a == [a[0]] + a[1..];
  }

  lemma SameHead(a: seq<string>, b: seq<string>)
    requires StrictlySorted(a) && StrictlySorted(b) && a != [] && b != []
    requires forall x :: x in a <==> x in b
    ensures a[0] == b[0]
  {
    if a[0] != b[0] {
      assert a[0] in b && b[0] in a;
      var k :| 0 <= k < |b| && b[k] == a[0];
      var m :| 0 <= m < |a| && a[m] == b[0];
      BelowTotal(a[0], b[0]);
      assert false;
    }
  }

  // ----- the label

  /** The label as a midpoint query: the shortest segment around the word's middle wins. */
  function Label(start: real, end: real, segs: seq<DiarizationNode>): string {
    Choose(Stabbed(start, end, segs))
  }

  function Choose(c: seq<DiarizationNode>): string {
    if c == [] then "UNKNOWN_SPEAKER"
    else if |c| == 1 then c[0].speakerId
    else
      var best := Shortest(c);
      var tied := Tied(c, Length(best));
      if |tied| > 1 then "UNKNOWN_OVERLAP_" + Join(SortedIds(tied), '_') else best.speakerId
  }

  method PickSpeakerIow(word: WordNode, segs: seq<DiarizationNode>) returns (name: string)
    ensures name == Label(word.start, word.end, segs)
  {
    var dur := word.end - word.start;
    var candidates := [];
    for i := 0 to |segs|
      invariant candidates == Stabbed(word.start, word.end, segs[..i])
    {
      assert segs[..i + 1][..i] == segs[..i];
      var seg := segs[i];
      if Iow(word.start, word.end, seg) >= IOW_THRESHOLD { HalfInsideHoldsMidpoint(word.start, word.end, seg); }
      if (dur > 0.0 && Iow(word.start, word.end, seg) >= IOW_THRESHOLD) || MidpointIn(word.start, word.end, seg) {
        candidates := candidates + [seg];
      }
    }
    assert segs[..|segs|] == segs;
    name := Choose(candidates);
  }

  // ----- independence of order

  lemma {:induction false} StabbedCount(start: real, end: real, segs: seq<DiarizationNode>, x: DiarizationNode)
    ensures multiset(Stabbed(start, end, segs))[x] == if MidpointIn(start, end, x) then multiset(segs)[x] else 0
  {
    if segs != [] {
      StabbedCount(start, end, segs[..|segs| - 1], x);
      assert segs == segs[..|segs| - 1] + [segs[|segs| - 1]];
    }
  }

  lemma {:induction false} TiedCount(c: seq<DiarizationNode>, length: real, x: DiarizationNode)
    ensures multiset(Tied(c, length))[x] == if Near(Length(x), length) then multiset(c)[x] else 0
  {
    if c != [] {
      TiedCount(c[..|c| - 1], length, x);
      assert c == c[..|c| - 1] + [c[|c| - 1]];
    }
  }

  lemma SameMembers(a: seq<DiarizationNode>, b: seq<DiarizationNode>)
    requires multiset(a) == multiset(b)
    ensures |a| == |b| && forall x :: x in a <==> x in b
    ensures |a| == 1 ==> a == b
  {
    assert |multiset(a)| == |a| && |multiset(b)| == |b|;
    forall x
      ensures x in a <==> x in b
    {
      assert x in a <==> x in multiset(a);
      assert x in b <==> x in multiset(b);
    }
    if |a| == 1 { assert a[0] in b; }
  }

  lemma SameIds(a: seq<DiarizationNode>, b: seq<DiarizationNode>)
    requires multiset(a) == multiset(b)
    ensures SortedIds(a) == SortedIds(b)
  {
    SameMembers(a, b);
    SortedIdsOf(a);
    SortedIdsOf(b);
    SortedUnique(SortedIds(a), SortedIds(b));
  }

  lemma TiedSame(a: seq<DiarizationNode>, b: seq<DiarizationNode>, length: real)
    requires multiset(a) == multiset(b)
    ensures multiset(Tied(a, length)) == multiset(Tied(b, length))
  {
    hide Tied, Near;
    forall x
      ensures multiset(Tied(a, length))[x] == multiset(Tied(b, length))[x]
    {
      TiedCount(a, length, x);
      TiedCount(b, length, x);
    }
  }

  lemma ShortestSame(a: seq<DiarizationNode>, b: seq<DiarizationNode>)
    requires a != [] && b != [] && forall x :: x in a <==> x in b
    ensures Length(Shortest(a)) == Length(Shortest(b))
  {
    hide Shortest;
    assert Shortest(a) in b && Shortest(b) in a;
  }

  lemma ChooseSame(a: seq<DiarizationNode>, b: seq<DiarizationNode>)
    requires multiset(a) == multiset(b)
    ensures Choose(a) == Choose(b)
  {
    hide Tied, Near, Shortest, SortedIds, Join, Length;
    SameMembers(a, b);
    if |a| > 1 {
      ShortestSame(a, b);
      var length := Length(Shortest(a));
      var t, u := Tied(a, length), Tied(b, length);
      TiedSame(a, b, length);
      SameMembers(t, u);
      SameIds(t, u);
      BestIsTied(a);
      BestIsTied(b);
      if |t| == 1 { OnlyOne(t, Shortest(a), Shortest(b)); }
    }
  }

  lemma OnlyOne(t: seq<DiarizationNode>, x: DiarizationNode, y: DiarizationNode)
    requires |t| == 1 && x in t && y in t
    ensures x == y
  {
  }

  lemma BestIsTied(c: seq<DiarizationNode>)
    requires c != []
    ensures Shortest(c) in Tied(c, Length(Shortest(c)))
  {
    var p := Shortest(c);
    TiedCount(c, Length(p), p);
    assert p in multiset(c);
    assert p in multiset(Tied(c, Length(p)));
  }

  /** The same segments in any order give the same label. */
  lemma LabelOrderFree(start: real, end: real, a: seq<DiarizationNode>, b: seq<DiarizationNode>)
    requires multiset(a) == multiset(b)
    ensures Label(start, end, a) == Label(start, end, b)
  {
    forall x
      ensures multiset(Stabbed(start, end, a))[x] == multiset(Stabbed(start, end, b))[x]
    {
      StabbedCount(start, end, a, x);
      StabbedCount(start, end, b, x);
    }
    assert multiset(Stabbed(start, end, a)) == multiset(Stabbed(start, end, b));
    ChooseSame(Stabbed(start, end, a), Stabbed(start, end, b));
  }

  /** A lone segment around the word's middle names its speaker; among several a segment shorter
      than every other by at least the tolerance does. */
  lemma ShortestWins(start: real, end: real, segs: seq<DiarizationNode>, best: DiarizationNode)
    requires best in segs && MidpointIn(start, end, best)
    requires multiset(segs)[best] == 1
    requires forall s :: s in segs && s != best && MidpointIn(start, end, s) ==>
      Length(s) >= Length(best) + 0.000001
    ensures Label(start, end, segs) == best.speakerId
  {
    hide Stabbed, Tied, Near, MidpointIn, Join, SortedIds;
    var c := Stabbed(start, end, segs);
    forall x
      ensures x in c <==> x in segs && MidpointIn(start, end, x)
    {
      StabbedCount(start, end, segs, x);
      assert x in c <==> x in multiset(c);
      assert x in segs <==> x in multiset(segs);
    }
    StabbedCount(start, end, segs, best);
    assert best in c;
    assert c[0] in c;
    if |c| > 1 {
      assert Shortest(c) == best;
      TiedAlone(c, best);
    }
  }

  lemma TiedAlone(c: seq<DiarizationNode>, best: DiarizationNode)
    requires multiset(c)[best] == 1
    requires forall s :: s in c && s != best ==> Length(s) >= Length(best) + TIE_TOLERANCE
    ensures |Tied(c, Length(best))| == 1
  {
    hide Tied;
    var t := Tied(c, Length(best));
    forall x
      ensures multiset(t)[x] == multiset{best}[x]
    {
      TiedCount(c, Length(best), x);
      assert x in c <==> x in multiset(c);
    }
    assert multiset(t) == multiset{best};
    assert |multiset(t)| == |t|;
  }

  lemma {:induction false} StabbedMembers(start: real, end: real, segs: seq<DiarizationNode>)
    ensures forall s :: s in Stabbed(start, end, segs) <==> s in segs && MidpointIn(start, end, s)
  {
    if segs != [] {
      StabbedMembers(start, end, segs[..|segs| - 1]);
      assert segs == segs[..|segs| - 1] + [segs[|segs| - 1]];
    }
  }

  lemma {:induction false} TiedMembers(c: seq<DiarizationNode>, length: real)
    ensures forall s :: s in Tied(c, length) <==> s in c && Near(Length(s), length)
  {
    if c != [] {
      TiedMembers(c[..|c| - 1], length);
      assert c == c[..|c| - 1] + [c[|c| - 1]];
    }
  }

  /** Both are in the list, twice if they are the same. */
  lemma TwoMembers(c: seq<DiarizationNode>, a: DiarizationNode, b: DiarizationNode)
    requires multiset{a, b} <= multiset(c)
    ensures a in c && b in c && |c| > 1
  {
    assert |multiset{a, b}| == 2;
    assert multiset(c) == multiset{a, b} + (multiset(c) - multiset{a, b});
    assert a in multiset(c) && b in multiset(c);
  }

  /** When another segment around the word's middle, a second copy included, is as short as the shortest to within
      the tolerance, the label names the speakers of all such segments, each once and in order. */
  lemma OverlapNamesTied(start: real, end: real, segs: seq<DiarizationNode>, a: DiarizationNode, b: DiarizationNode)
    returns (ids: seq<string>, at: seq<nat>)
    requires multiset{a, b} <= multiset(segs) && MidpointIn(start, end, a) && MidpointIn(start, end, b)
    requires forall s :: s in segs && MidpointIn(start, end, s) ==> Length(a) <= Length(s)
    requires Length(b) < Length(a) + 0.000001
    ensures var name := Label(start, end, segs);
      |name| >= 16 && name[..16] == "UNKNOWN_OVERLAP_" && Spells(name[16..], ids, '_', at) && StrictlySorted(ids)
    ensures forall x :: x in ids <==>
      exists s :: s in segs && MidpointIn(start, end, s) && Length(s) < Length(a) + 0.000001 && s.speakerId == x
  {
    hide Stabbed, Tied, SortedIds, Join, Spells;
    var c := Stabbed(start, end, segs);
    StabbedMembers(start, end, segs);
    StabbedCount(start, end, segs, a);
    StabbedCount(start, end, segs, b);
    TwoMembers(c, a, b);
    assert Length(Shortest(c)) == Length(a);
    var tied := Tied(c, Length(a));
    TiedMembers(c, Length(a));
    TiedCount(c, Length(a), a);
    TiedCount(c, Length(a), b);
    TwoMembers(tied, a, b);
    ids := SortedIds(tied);
    SortedIdsOf(tied);
    assert a.speakerId in ids;
    at := JoinSpells(ids, '_');
    var name := Label(start, end, segs);
    assert name == "UNKNOWN_OVERLAP_" + Join(ids, '_');
    assert name[16..] == Join(ids, '_');
  }

  /** No segment around the word's middle: no candidate, and the unknown label. */
  lemma {:induction false} NoSegmentUnknown(start: real, end: real, segs: seq<DiarizationNode>)
    requires forall i :: 0 <= i < |segs| ==> !MidpointIn(start, end, segs[i])
    ensures Stabbed(start, end, segs) == [] && Label(start, end, segs) == "UNKNOWN_SPEAKER"
  {
    if segs != [] { NoSegmentUnknown(start, end, segs[..|segs| - 1]); }
  }

  // ----- all words

  ghost function Assigned(w: seq<Node>, segs: seq<DiarizationNode>): (r: seq<Node>)
    ensures |r| == |w|
  {
    seq(|w|, i requires 0 <= i < |w| => w[i].(speaker := Some(Label(w[i].start, w[i].end, segs))))
  }

  method AssignSpeakers(words: seq<WordNode>, segs: seq<DiarizationNode>)
    requires Distinct(words)
    modifies words
    ensures Views(words) == Assigned(old(Views(words)), segs)
  {
    hide Label;
    for i := 0 to |words|
      invariant forall k :: 0 <= k < i ==> words[k].View() == Assigned(old(Views(words)), segs)[k]
      invariant forall k :: i <= k < |words| ==> words[k].View() == old(Views(words))[k]
    {
      var name := PickSpeakerIow(words[i], segs);
      words[i].speaker := Some(name);
    }
  }
}
