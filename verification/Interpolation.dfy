/** Words without an anchor: a run of consecutive such words is spread evenly over
    the gap between its neighbouring anchors. And the fallback that spreads all
    words evenly over the chunk. */
module Interpolation {
  import opened Words
  import opened ParseText
  import opened SpreadClusters
  import opened Anchors

  // ----- sorting the positions

  ghost predicate Ascending(s: seq<nat>) {
    forall i, j :: 0 <= i < j < |s| ==> s[i] < s[j]
  }

  ghost function Members(s: seq<nat>): (m: set<nat>)
    ensures forall x :: x in m <==> x in s
  {
    set x | x in s
  }

  function Insert(x: nat, s: seq<nat>): seq<nat> {
    if s == [] || x <= s[0] then [x] + s else [s[0]] + Insert(x, s[1..])
  }

  function Sorted(s: seq<nat>): seq<nat> {
    if s == [] then [] else Insert(s[0], Sorted(s[1..]))
  }

  lemma {:induction false} InsertAscending(x: nat, s: seq<nat>)
    requires Ascending(s) && x !in s
    ensures Ascending(Insert(x, s))
    ensures forall y :: y in Insert(x, s) <==> y == x || y in s
  {
    if s != [] && s[0] < x {
      InsertAscending(x, s[1..]);
      var r := Insert(x, s[1..]);
      forall y
        ensures y in [s[0]] + r <==> y == x || y in s
      {
        assert s == [s[0]] + s[1..];
      }
      forall i | 0 <= i < |r|
        ensures s[0] < r[i]
      {
        assert r[i] in r;
      }
    }
  }

  lemma {:induction false} SortedAscending(s: seq<nat>)
    requires Distinct(s)
    ensures Ascending(Sorted(s))
    ensures forall y :: y in Sorted(s) <==> y in s
  {
    if s != [] {
      SortedAscending(s[1..]);
      InsertAscending(s[0], Sorted(s[1..]));
      assert s == [s[0]] + s[1..];
    }
  }

  // ----- runs and their neighbours

  /** First and last position of the run of members of s around i. */
  ghost function RunLo(s: set<nat>, i: nat): (lo: nat)
    ensures lo <= i
  {
    if i > 0 && i - 1 in s then RunLo(s, i - 1) else i
  }

  ghost function RunHi(s: set<nat>, i: nat, n: nat): (hi: nat)
    requires i < n
    ensures i <= hi < n
    decreases n - i
  {
    if i + 1 < n && i + 1 in s then RunHi(s, i + 1, n) else i
  }

  /** Greatest key below k (or -1), least key above k and below n (or n). */
  function PrevKey(keys: set<nat>, k: nat): (p: int)
    ensures -1 <= p < k && (p >= 0 ==> p in keys)
    ensures forall m :: p < m < k ==> m !in keys
  {
    if k == 0 then -1 else if k - 1 in keys then k - 1 else PrevKey(keys, k - 1)
  }

  function NextKey(keys: set<nat>, k: nat, n: nat): (x: nat)
    requires k < n
    ensures k < x <= n && (x < n ==> x in keys)
    ensures forall m :: k < m < x ==> m !in keys
    decreases n - k
  {
    if k + 1 >= n then n else if k + 1 in keys then k + 1 else NextKey(keys, k + 1, n)
  }

  function StepIn(prevEnd: real, nextStart: real, count: nat): real {
    var gap := nextStart - prevEnd;
    if gap > 0.0 then gap / (count + 1) as real else 0.0
  }

  function Unaligned(tw: TokenWord, start: real, end: real): Node {
    MakeNode(tw, start, end, 0.5, Some("unaligned"))
  }

  ghost function PrevEnd(anchors: map<nat, Node>, lo: nat): real {
    var p := PrevKey(anchors.Keys, lo);
    if p >= 0 then anchors[p].end else 0.0
  }

  /** Where the gap after hi closes, never before prevEnd. */
  ghost function NextStart(anchors: map<nat, Node>, hi: nat, n: nat, prevEnd: real, audioDur: real): real
    requires hi < n
  {
    var x := NextKey(anchors.Keys, hi, n);
    Max(if x < n then anchors[x].start else audioDur, prevEnd)
  }

  /** A run of words without anchor, lo to hi, and the time between its neighbours. */
  datatype Gap = Gap(lo: nat, hi: nat, prevEnd: real, nextStart: real)

  ghost function GapOfRun(anchors: map<nat, Node>, n: nat, audioDur: real, lo: nat, hi: nat): Gap
    requires hi < n
  {
    var prevEnd := PrevEnd(anchors, lo);
    Gap(lo, hi, prevEnd, NextStart(anchors, hi, n, prevEnd, audioDur))
  }

  ghost function GapNode(tokens: seq<TokenWord>, g: Gap, i: nat): Node
    requires g.lo <= i <= g.hi < |tokens|
  {
    var t := Slot(g.prevEnd, i - g.lo + 1, StepIn(g.prevEnd, g.nextStart, g.hi - g.lo + 1));
    Unaligned(tokens[i], t, t)
  }

  /** The node of word i, given the positions without anchor. */
  ghost function Interpolated(oov: set<nat>, tokens: seq<TokenWord>, anchors: map<nat, Node>, audioDur: real,
      i: nat): Node
    requires i < |tokens|
  {
    GapNode(tokens, GapOfRun(anchors, |tokens|, audioDur, RunLo(oov, i), RunHi(oov, i, |tokens|)), i)
  }

  ghost function InterpolatedMap(oov: set<nat>, tokens: seq<TokenWord>, anchors: map<nat, Node>,
      audioDur: real): map<nat, Node>
  {
    map i | i in oov && i < |tokens| :: Interpolated(oov, tokens, anchors, audioDur, i)
  }

  /** r is a maximal run of consecutive members of s. */
  ghost predicate MaximalRun(r: seq<nat>, s: set<nat>) {
    && r != []
    && (forall k :: 0 <= k < |r| ==> r[k] == r[0] + k && r[k] in s)
    && (r[0] > 0 ==> r[0] - 1 !in s)
    && r[|r| - 1] + 1 !in s
  }

  lemma {:induction false} MaximalRunLo(r: seq<nat>, s: set<nat>, k: nat)
    requires MaximalRun(r, s) && k < |r|
    ensures RunLo(s, r[k]) == r[0]
  {
    if k > 0 {
      assert r[k - 1] == r[k] - 1;
      MaximalRunLo(r, s, k - 1);
    }
  }

  lemma {:induction false} MaximalRunHi(r: seq<nat>, s: set<nat>, k: nat, n: nat)
    requires MaximalRun(r, s) && k < |r| && forall x :: x in s ==> x < n
    ensures RunHi(s, r[k], n) == r[|r| - 1]
    decreases |r| - k
  {
    if k + 1 < |r| {
      assert r[k + 1] == r[k] + 1;
      MaximalRunHi(r, s, k + 1, n);
    }
  }

  /** All words of a maximal run share its gap, one step after the other. */
  lemma RunInterpolated(run: seq<nat>, s: set<nat>, tokens: seq<TokenWord>, anchors: map<nat, Node>, audioDur: real,
      k: nat)
    requires MaximalRun(run, s) && k < |run|
    requires forall x :: x in s ==> x < |tokens|
    ensures run[k] < |tokens|
    ensures Interpolated(s, tokens, anchors, audioDur, run[k]) == RunNode(run, tokens, anchors, audioDur, run[k])
  {
    MaximalRunLo(run, s, k);
    MaximalRunHi(run, s, k, |tokens|);
  }

  ghost function RunNode(run: seq<nat>, tokens: seq<TokenWord>, anchors: map<nat, Node>, audioDur: real, i: nat): Node
    requires run != [] && run[0] <= i <= run[|run| - 1] < |tokens|
  {
    GapNode(tokens, GapOfRun(anchors, |tokens|, audioDur, run[0], run[|run| - 1]), i)
  }

  /** Run has this goal: each of its words at its slot in the gap. */
  ghost predicate RunGoal(run: seq<nat>, tokens: seq<TokenWord>, anchors: map<nat, Node>, audioDur: real,
      goal: map<nat, Node>)
  {
    && run != []
    && (forall k :: 0 <= k < |run| ==> run[k] == run[0] + k && run[k] < |tokens|)
    && (forall k :: 0 <= k < |run| ==>
          run[k] in goal && goal[run[k]] == RunNode(run, tokens, anchors, audioDur, run[k]))
  }

  lemma RunHasGoal(run: seq<nat>, s: set<nat>, tokens: seq<TokenWord>, anchors: map<nat, Node>, audioDur: real)
    requires MaximalRun(run, s)
    requires forall x :: x in s ==> x < |tokens|
    ensures RunGoal(run, tokens, anchors, audioDur, InterpolatedMap(s, tokens, anchors, audioDur))
  {
    var goal := InterpolatedMap(s, tokens, anchors, audioDur);
    forall k | 0 <= k < |run|
      ensures run[k] < |tokens| && run[k] in goal && goal[run[k]] == RunNode(run, tokens, anchors, audioDur, run[k])
    {
      RunInterpolated(run, s, tokens, anchors, audioDur, |run| - 1);
      RunInterpolated(run, s, tokens, anchors, audioDur, k);
    }
  }

  ghost predicate AllMaximal(runs: seq<seq<nat>>, s: set<nat>) {
    runs == [] || (AllMaximal(runs[..|runs| - 1], s) && MaximalRun(runs[|runs| - 1], s))
  }

  lemma {:induction false} AllMaximalAt(runs: seq<seq<nat>>, s: set<nat>, p: nat)
    requires AllMaximal(runs, s) && p < |runs|
    ensures MaximalRun(runs[p], s)
  {
    if p < |runs| - 1 { AllMaximalAt(runs[..|runs| - 1], s, p); }
  }

  /** What is known after m positions: finished runs, and one that could still grow. */
  ghost predicate Grouped(runs: seq<seq<nat>>, run: seq<nat>, sorted: seq<nat>, m: nat, s: set<nat>)
    requires m <= |sorted|
  {
    && AllMaximal(runs, s)
    && Flatten(runs) + run == sorted[..m]
    && run != []
    && (forall k :: 0 <= k < |run| ==> run[k] == run[0] + k && run[k] in s)
    && (run[0] > 0 ==> run[0] - 1 !in s)
  }

  lemma NothingBetween(sorted: seq<nat>, m: nat, s: set<nat>)
    requires Ascending(sorted) && (forall x :: x in s <==> x in sorted)
    requires m < |sorted|
    ensures sorted[m] in s
    ensures sorted[m] > 0 && (m == 0 || sorted[m - 1] + 1 != sorted[m]) ==> sorted[m] - 1 !in s
    ensures m == |sorted| - 1 || sorted[m] + 1 != sorted[m + 1] ==> sorted[m] + 1 !in s
  {
  }

  lemma GroupLast(runs: seq<seq<nat>>, run: seq<nat>, sorted: seq<nat>, m: nat, s: set<nat>)
    requires 0 < m <= |sorted| && Grouped(runs, run, sorted, m, s)
    ensures run[|run| - 1] == sorted[m - 1]
  {
    assert (Flatten(runs) + run)[m - 1] == sorted[m - 1];
  }

  lemma GroupExtend(runs: seq<seq<nat>>, run: seq<nat>, sorted: seq<nat>, m: nat, s: set<nat>)
    requires 0 < m < |sorted| && Grouped(runs, run, sorted, m, s)
    requires Ascending(sorted) && (forall x :: x in s <==> x in sorted)
    requires sorted[m] == run[|run| - 1] + 1
    ensures Grouped(runs, run + [sorted[m]], sorted, m + 1, s)
  {
    assert Flatten(runs) + (run + [sorted[m]]) == (Flatten(runs) + run) + [sorted[m]] == sorted[..m + 1];
  }

  lemma GroupClose(runs: seq<seq<nat>>, run: seq<nat>, sorted: seq<nat>, m: nat, s: set<nat>)
    requires 0 < m <= |sorted| && Grouped(runs, run, sorted, m, s)
    requires Ascending(sorted) && (forall x :: x in s <==> x in sorted)
    requires m < |sorted| ==> sorted[m] != run[|run| - 1] + 1
    ensures AllMaximal(runs + [run], s) && Flatten(runs + [run]) == sorted[..m]
    ensures m < |sorted| ==> Grouped(runs + [run], [sorted[m]], sorted, m + 1, s)
  {
    hide Flatten;
    GroupLast(runs, run, sorted, m, s);
    NothingBetween(sorted, m - 1, s);
    FlattenAppend(runs, run);
    assert (runs + [run])[..|runs|] == runs;
    if m < |sorted| {
      NothingBetween(sorted, m, s);
      assert sorted[..m + 1] == sorted[..m] + [sorted[m]];
    }
  }

  /** Grouping ascending positions into runs of consecutive ones. */
  method GroupRuns(sorted: seq<nat>, ghost s: set<nat>) returns (runs: seq<seq<nat>>)
    requires sorted != [] && Ascending(sorted) && (forall x :: x in s <==> x in sorted)
    ensures AllMaximal(runs, s)
    ensures Flatten(runs) == sorted
  {
    runs := [];
    var run := [sorted[0]];
    NothingBetween(sorted, 0, s);
    for m := 1 to |sorted|
      invariant Grouped(runs, run, sorted, m, s)
    {
      var k := sorted[m];
      if k == run[|run| - 1] + 1 {
        GroupExtend(runs, run, sorted, m, s);
        run := run + [k];
      } else {
        GroupClose(runs, run, sorted, m, s);
        runs := runs + [run];
        run := [k];
      }
    }
    GroupClose(runs, run, sorted, |sorted|, s);
    runs := runs + [run];
    assert sorted[..|sorted|] == sorted;
  }

  method TimeAt(base: real, k: nat, step: real) returns (t: real)
    ensures t == Slot(base, k, step)
  {
    SlotIsProduct(base, k, step);
    t := base + step * k as real;
  }

  method PlaceRun(run: seq<nat>, tokens: seq<TokenWord>, prevEnd: real, nextStart: real)
    returns (placed: map<nat, WordNode>)
    requires run != []
    requires forall k :: 0 <= k < |run| ==> run[k] == run[0] + k && run[k] < |tokens|
    ensures forall i :: i in placed <==> i in run
    ensures forall i :: i in placed ==> fresh(placed[i]) && run[0] <= i <= run[|run| - 1]
    ensures forall i :: i in placed ==>
      placed[i].View() == GapNode(tokens, Gap(run[0], run[|run| - 1], prevEnd, nextStart), i)
    ensures Injective(placed)
  {
    ghost var g := Gap(run[0], run[|run| - 1], prevEnd, nextStart);
    var step := StepIn(prevEnd, nextStart, |run|);
    placed := map[];
    for r := 0 to |run|
      invariant forall i :: i in placed <==> i in run[..r]
      invariant forall i :: i in placed ==>
        fresh(placed[i]) && g.lo <= i <= g.hi && placed[i].View() == GapNode(tokens, g, i)
      invariant Injective(placed)
    {
      var t := TimeAt(prevEnd, r + 1, step);
      var node := new WordNode(Unaligned(tokens[run[r]], t, t));
      assert node.View() == GapNode(tokens, g, run[r]);
      assert run[..r + 1] == run[..r] + [run[r]];
      placed := placed[run[r] := node];
    }
    assert run[..|run|] == run;
  }

  lemma UnionInjective(a: map<nat, WordNode>, b: map<nat, WordNode>)
    requires Injective(a) && Injective(b) && a.Values !! b.Values
    ensures Injective(a + b)
  {
    forall x, y | x in a + b && y in a + b && x != y
      ensures (a + b)[x] != (a + b)[y]
    {
      var u, v := (a + b)[x], (a + b)[y];
      assert u in (if x in b then b.Values else a.Values);
      assert v in (if y in b then b.Values else a.Values);
    }
  }

  method InterpolateRun(run: seq<nat>, tokens: seq<TokenWord>, anchors: map<nat, WordNode>, audioDur: real,
      ghost goal: map<nat, Node>)
    returns (placed: map<nat, WordNode>)
    requires RunGoal(run, tokens, ViewMap(anchors), audioDur, goal)
    ensures forall i :: i in placed <==> i in run
    ensures forall i :: i in placed ==> fresh(placed[i]) && i in goal && placed[i].View() == goal[i]
    ensures Injective(placed)
  {
    var lo, hi := run[0], run[|run| - 1];
    var prev, next := PrevKey(anchors.Keys, lo), NextKey(anchors.Keys, hi, |tokens|);
    assert ViewMap(anchors).Keys == anchors.Keys;
    var prevEnd := if prev >= 0 then anchors[prev].end else 0.0;
    var nextStart := if next < |tokens| then anchors[next].start else audioDur;
    if nextStart < prevEnd {
      nextStart := prevEnd;
    }
    placed := PlaceRun(run, tokens, prevEnd, nextStart);
  }

  ghost predicate AllGoals(runs: seq<seq<nat>>, tokens: seq<TokenWord>, anchors: map<nat, Node>, audioDur: real,
      goal: map<nat, Node>)
  {
    forall p :: 0 <= p < |runs| ==> RunGoal(runs[p], tokens, anchors, audioDur, goal)
  }

  method PlaceRuns(runs: seq<seq<nat>>, tokens: seq<TokenWord>, anchors: map<nat, WordNode>, audioDur: real,
      ghost goal: map<nat, Node>)
    returns (result: map<nat, WordNode>)
    requires AllGoals(runs, tokens, ViewMap(anchors), audioDur, goal)
    ensures forall i :: i in result <==> i in Flatten(runs)
    ensures forall i :: i in result ==> fresh(result[i]) && i in goal && result[i].View() == goal[i]
    ensures Injective(result)
  {
    result := map[];
    for m := 0 to |runs|
      invariant forall i :: i in result <==> i in Flatten(runs[..m])
      invariant forall i :: i in result ==> fresh(result[i]) && i in goal && result[i].View() == goal[i]
      invariant Injective(result)
    {
      assert runs[..m + 1][..m] == runs[..m];
      var placed := InterpolateRun(runs[m], tokens, anchors, audioDur, goal);
      UnionInjective(result, placed);
      result := result + placed;
    }
    assert runs[..|runs|] == runs;
  }

  lemma AllRunsHaveGoals(runs: seq<seq<nat>>, s: set<nat>, tokens: seq<TokenWord>, anchors: map<nat, Node>,
      audioDur: real)
    requires AllMaximal(runs, s)
    requires forall x :: x in s ==> x < |tokens|
    ensures AllGoals(runs, tokens, anchors, audioDur, InterpolatedMap(s, tokens, anchors, audioDur))
  {
    forall p | 0 <= p < |runs|
      ensures RunGoal(runs[p], tokens, anchors, audioDur, InterpolatedMap(s, tokens, anchors, audioDur))
    {
      AllMaximalAt(runs, s, p);
      RunHasGoal(runs[p], s, tokens, anchors, audioDur);
    }
  }

  method InterpolateOov(oovIdx: seq<nat>, tokens: seq<TokenWord>, anchors: map<nat, WordNode>, audioDur: real)
    returns (result: map<nat, WordNode>, ghost goal: map<nat, Node>)
    requires Distinct(oovIdx) && forall i :: i in oovIdx ==> i < |tokens|
    ensures goal == InterpolatedMap(Members(oovIdx), tokens, old(ViewMap(anchors)), audioDur)
    ensures forall i :: i in result <==> i in oovIdx
    ensures forall i :: i in result ==> fresh(result[i]) && i in goal && result[i].View() == goal[i]
    ensures Injective(result)
  {
    ghost var s := Members(oovIdx);
    goal := InterpolatedMap(s, tokens, ViewMap(anchors), audioDur);
    result := map[];
    if oovIdx != [] {
      SortedAscending(oovIdx);
      var sorted := Sorted(oovIdx);
      assert oovIdx[0] in sorted;
      var runs := GroupRuns(sorted, s);
      AllRunsHaveGoals(runs, s, tokens, ViewMap(anchors), audioDur);
      result := PlaceRuns(runs, tokens, anchors, audioDur, goal);
    }
  }
}
