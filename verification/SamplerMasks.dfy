/**
 Token masks of the seeded sampler (`make_seeded_sampler`, `_apply_argmax_rescue`,
 fusion_mlx/_seeded_sampler.py) in exact arithmetic, for one row of the batch.

 `argsort` is any sorting permutation, so two sorts of the same row may order ties differently.
 Log-probabilities appear through the probabilities they stand for.
 */
module SamplerMasks {
  import opened Common

  type Row = seq<real>

  // ----- Sums and permutations -----

  function Range(n: nat): seq<nat> {
    if n == 0 then [] else Range(n - 1) + [n - 1]
  }

  function SumOver(s: seq<nat>, f: nat -> real): real {
    if s == [] then 0.0 else SumOver(s[..|s|-1], f) + f(s[|s|-1])
  }

  /** A probability row: positive entries that add up to one. */
  ghost predicate IsRow(p: Row) {
    && p != []
    && (forall v :: 0 <= v < |p| ==> p[v] > 0.0)
    && SumOver(Range(|p|), At(p)) == 1.0
  }

  function At(p: Row): nat -> real { (v: nat) => if v < |p| then p[v] else 0.0 }

  predicate IsPermutation(idx: seq<nat>, n: nat) {
    multiset(idx) == multiset(Range(n))
  }

  predicate Ascending(p: Row, idx: seq<nat>) {
    && IsPermutation(idx, |p|)
    && forall i, j :: 0 <= i <= j < |idx| ==> At(p)(idx[i]) <= At(p)(idx[j])
  }

  predicate Descending(p: Row, idx: seq<nat>) {
    && IsPermutation(idx, |p|)
    && forall i, j :: 0 <= i <= j < |idx| ==> At(p)(idx[i]) >= At(p)(idx[j])
  }

  lemma {:induction false} RangeCounts(n: nat)
    ensures |Range(n)| == n
    ensures forall v: nat :: multiset(Range(n))[v] == if v < n then 1 else 0
  {
    if n > 0 { RangeCounts(n - 1); }
  }

  lemma {:induction false} CountTwice(s: seq<nat>, i: nat, j: nat)
    requires i < j < |s| && s[i] == s[j]
    ensures multiset(s)[s[i]] >= 2
  {
    assert s == s[..i] + [s[i]] + s[i + 1..j] + [s[j]] + s[j + 1..];
  }

  lemma PermutationFacts(idx: seq<nat>, n: nat)
    requires IsPermutation(idx, n)
    ensures |idx| == n
    ensures forall i :: 0 <= i < n ==> idx[i] < n
    ensures forall i, j :: 0 <= i < j < n ==> idx[i] != idx[j]
    ensures forall v: nat :: v < n ==> v in idx
  {
    RangeCounts(n);
    assert |multiset(idx)| == |idx| && |multiset(Range(n))| == n;
    forall i | 0 <= i < n ensures idx[i] < n { assert idx[i] in multiset(idx); }
    forall i, j | 0 <= i < j < n ensures idx[i] != idx[j] {
      if idx[i] == idx[j] { CountTwice(idx, i, j); }
    }
    forall v: nat | v < n ensures v in idx { assert multiset(Range(n))[v] == 1; }
  }

  lemma {:induction false} SumAppend(s: seq<nat>, t: seq<nat>, f: nat -> real)
    ensures SumOver(s + t, f) == SumOver(s, f) + SumOver(t, f)
    decreases |t|
  {
    if t == [] {
      assert s + t == s;
    } else {
      assert (s + t)[..|s + t|-1] == s + t[..|t|-1];
      SumAppend(s, t[..|t|-1], f);
    }
  }

  lemma {:induction false} SumOfPermutation(s: seq<nat>, t: seq<nat>, f: nat -> real)
    requires multiset(s) == multiset(t)
    ensures SumOver(s, f) == SumOver(t, f)
    decreases |s|
  {
    if s == [] {
      assert |multiset(t)| == 0;
    } else {
      var last, front := s[|s|-1], s[..|s|-1];
      var j := LastElsewhere(s, t);
      assert t == t[..j] + ([last] + t[j + 1..]);
      SumAppend(t[..j], [last] + t[j + 1..], f);
      SumAppend([last], t[j + 1..], f);
      SumAppend(t[..j], t[j + 1..], f);
      assert [last][..0] == [];
      SumOfPermutation(front, t[..j] + t[j + 1..], f);
    }
  }

  // ----- Building masks -----

  type Mask = seq<bool>

  /** `put_along_axis`: writes `vals[j]` at `idx[j]`, in order. */
  function PutAlong(base: Mask, idx: seq<nat>, vals: seq<bool>): (m: Mask)
    requires |idx| == |vals| && forall i :: 0 <= i < |idx| ==> idx[i] < |base|
    ensures |m| == |base|
  {
    if idx == [] then base
    else PutAlong(base, idx[..|idx|-1], vals[..|idx|-1])[idx[|idx|-1] := vals[|idx|-1]]
  }

  lemma {:induction false} PutAlongAt(base: Mask, idx: seq<nat>, vals: seq<bool>)
    requires |idx| == |vals| && forall i :: 0 <= i < |idx| ==> idx[i] < |base|
    requires forall i, j :: 0 <= i < j < |idx| ==> idx[i] != idx[j]
    ensures forall j :: 0 <= j < |idx| ==> PutAlong(base, idx, vals)[idx[j]] == vals[j]
    ensures forall v: nat :: v < |base| && v !in idx ==> PutAlong(base, idx, vals)[v] == base[v]
    decreases |idx|
  {
    if idx != [] {
      var front, last, m := idx[..|idx|-1], idx[|idx|-1], PutAlong(base, idx, vals);
      PutAlongAt(base, front, vals[..|idx|-1]);
      forall j | 0 <= j < |idx| ensures m[idx[j]] == vals[j] {
        if j < |front| { assert front[j] == idx[j]; }
      }
      forall v: nat | v < |base| && v !in idx ensures m[v] == base[v] {
        assert last in idx && v !in front;
      }
    }
  }

  function Blank(n: nat): (m: Mask) ensures |m| == n { seq(n, _ => false) }

  /** Running sum of the sorted probabilities up to and including position `j`. */
  function Cumulative(p: Row, idx: seq<nat>, j: nat): real
    requires j < |idx|
  {
    SumOver(idx[..j + 1], At(p))
  }

  function TopP(p: Row, idx: seq<nat>, topP: real): (m: Mask)
    requires p != [] && IsPermutation(idx, |p|)
    ensures |m| == |p|
  {
    PermutationFacts(idx, |p|);
    var sortedMask := seq(|p|, j requires 0 <= j < |p| => Cumulative(p, idx, j) > 1.0 - topP || j == |p| - 1);
    PutAlong(Blank(|p|), idx, sortedMask)
  }

  function EffectiveK(k: nat, n: nat): nat { if k < n then k else n }

  function TopK(p: Row, idx: seq<nat>, k: nat): (m: Mask)
    requires IsPermutation(idx, |p|)
    ensures |m| == |p|
  {
    PermutationFacts(idx, |p|);
    var e := EffectiveK(k, |p|);
    PutAlong(Blank(|p|), idx[..e], seq(e, _ => true))
  }

  function MaxOf(p: Row): (m: real)
    requires p != []
    ensures m in p && forall v :: 0 <= v < |p| ==> p[v] <= m
  {
    if |p| == 1 then p[0]
    else
      var rest := MaxOf(p[..|p|-1]);
      if p[|p|-1] > rest then p[|p|-1] else rest
  }

  /** The least probability min-p keeps. */
  function Floor(p: Row, minP: real): real
    requires p != []
  {
    minP * MaxOf(p)
  }

  function MinP(p: Row, minP: real): (m: Mask)
    requires p != []
    ensures |m| == |p|
  {
    seq(|p|, v requires 0 <= v < |p| => p[v] >= Floor(p, minP))
  }

  function Meet(a: Mask, b: Mask): (m: Mask)
    requires |a| == |b|
    ensures |m| == |a|
  {
    seq(|a|, v requires 0 <= v < |a| => a[v] && b[v])
  }

  /** The request's filters; a filter is active under the sampler's own tests. */
  datatype Filters = Filters(topP: real, topK: int, minP: real) {
    predicate UseTopP() { 0.0 < topP < 1.0 }
    predicate UseTopK() { topK > 0 }
    predicate UseMinP() { minP > 0.0 }
  }

  function All(n: nat): (m: Mask) ensures |m| == n { seq(n, _ => true) }

  function PPart(p: Row, f: Filters, up: seq<nat>): (m: Mask)
    requires p != [] && IsPermutation(up, |p|)
    ensures |m| == |p|
  {
    if f.UseTopP() then TopP(p, up, f.topP) else All(|p|)
  }

  function KPart(p: Row, f: Filters, down: seq<nat>): (m: Mask)
    requires p != [] && IsPermutation(down, |p|)
    ensures |m| == |p|
  {
    if f.UseTopK() then TopK(p, down, f.topK) else All(|p|)
  }

  function MPart(p: Row, f: Filters): (m: Mask)
    requires p != []
    ensures |m| == |p|
  {
    if f.UseMinP() then MinP(p, f.minP) else All(|p|)
  }

  /** The intersection of the active filters; `up` and `down` are the two sorts of the row. */
  function Combined(p: Row, f: Filters, up: seq<nat>, down: seq<nat>): (m: Mask)
    requires p != [] && IsPermutation(up, |p|) && IsPermutation(down, |p|)
    ensures |m| == |p|
  {
    Meet(Meet(PPart(p, f, up), KPart(p, f, down)), MPart(p, f))
  }

  function Rescue(m: Mask, argmax: nat): (r: Mask)
    requires argmax < |m|
    ensures |r| == |m|
  {
    if true in m then m else PutAlong(Blank(|m|), [argmax], [true])
  }

  function Kept(m: Mask): set<nat> { set v: nat | v < |m| && m[v] }

  /** Tokens of maximal probability. */
  function Tied(p: Row): set<nat> requires p != [] { set v: nat | v < |p| && p[v] == MaxOf(p) }

  // ----- Top-p -----

  function KeptAt(p: Row, m: Mask): nat -> real { (v: nat) => if v < |m| && m[v] then At(p)(v) else 0.0 }

  function Mass(p: Row, m: Mask): real
    requires |m| == |p|
  {
    SumOver(Range(|p|), KeptAt(p, m))
  }

  lemma TopPAt(p: Row, idx: seq<nat>, topP: real, j: nat)
    requires p != [] && IsPermutation(idx, |p|) && j < |p|
    ensures |idx| == |p| && idx[j] < |p|
    ensures TopP(p, idx, topP)[idx[j]] <==> Cumulative(p, idx, j) > 1.0 - topP || j == |p| - 1
  {
    PermutationFacts(idx, |p|);
    var sortedMask := seq(|p|, j requires 0 <= j < |p| => Cumulative(p, idx, j) > 1.0 - topP || j == |p| - 1);
    PutAlongAt(Blank(|p|), idx, sortedMask);
  }

  lemma {:induction false} CumulativeGrows(p: Row, idx: seq<nat>, i: nat, j: nat)
    requires IsRow(p) && IsPermutation(idx, |p|) && i <= j < |idx|
    ensures Cumulative(p, idx, i) <= Cumulative(p, idx, j)
    ensures i < j ==> Cumulative(p, idx, i) < Cumulative(p, idx, j)
    decreases j
  {
    PermutationFacts(idx, |p|);
    if i < j {
      CumulativeGrows(p, idx, i, j - 1);
      assert idx[..j + 1][..j] == idx[..j];
    }
  }

  lemma LastCumulativeIsOne(p: Row, idx: seq<nat>)
    requires IsRow(p) && IsPermutation(idx, |p|)
    ensures |idx| == |p| && Cumulative(p, idx, |p| - 1) == 1.0
  {
    PermutationFacts(idx, |p|);
    assert idx[..|p|] == idx;
    SumOfPermutation(idx, Range(|p|), At(p));
  }

  /** The first sorted position that top-p keeps: everything from there on is kept, nothing before. */
  lemma {:induction false} Cut(p: Row, idx: seq<nat>, topP: real, from: nat) returns (c: nat)
    requires IsRow(p) && IsPermutation(idx, |p|) && 0.0 < topP && from < |p| == |idx|
    requires from > 0 ==> Cumulative(p, idx, from - 1) <= 1.0 - topP
    ensures from <= c < |p| && Cumulative(p, idx, c) > 1.0 - topP
    ensures c > 0 ==> Cumulative(p, idx, c - 1) <= 1.0 - topP
    decreases |p| - from
  {
    LastCumulativeIsOne(p, idx);
    if Cumulative(p, idx, from) > 1.0 - topP {
      c := from;
    } else {
      c := Cut(p, idx, topP, from + 1);
    }
  }

  lemma TopPIsASuffix(p: Row, idx: seq<nat>, topP: real) returns (c: nat)
    requires IsRow(p) && IsPermutation(idx, |p|) && 0.0 < topP < 1.0
    ensures |idx| == |p| && c < |p| && (forall j :: 0 <= j < |p| ==> idx[j] < |p|)
    ensures Cumulative(p, idx, c) > 1.0 - topP && (c > 0 ==> Cumulative(p, idx, c - 1) <= 1.0 - topP)
    ensures forall j :: 0 <= j < |p| ==> (TopP(p, idx, topP)[idx[j]] <==> c <= j)
  {
    PermutationFacts(idx, |p|);
    c := Cut(p, idx, topP, 0);
    forall j | 0 <= j < |p| ensures TopP(p, idx, topP)[idx[j]] <==> c <= j {
      TopPAt(p, idx, topP, j);
      if c <= j {
        CumulativeGrows(p, idx, c, j);
      } else {
        CumulativeGrows(p, idx, j, c - 1);
        LastCumulativeIsOne(p, idx);
      }
    }
  }

  lemma {:induction false} MassOfSuffix(p: Row, m: Mask, idx: seq<nat>, c: nat, n: nat)
    requires |m| == |p| && c <= n <= |idx|
    requires forall j :: 0 <= j < n ==> idx[j] < |p| && (m[idx[j]] <==> c <= j)
    ensures SumOver(idx[..n], KeptAt(p, m)) == SumOver(idx[..n], At(p)) - SumOver(idx[..c], At(p))
    decreases n
  {
    if n == c {
      NothingKept(p, m, idx, n);
    } else {
      assert idx[..n][..n - 1] == idx[..n - 1];
      MassOfSuffix(p, m, idx, c, n - 1);
    }
  }

  lemma {:induction false} NothingKept(p: Row, m: Mask, idx: seq<nat>, n: nat)
    requires |m| == |p| && n <= |idx| && forall j :: 0 <= j < n ==> idx[j] < |p| && !m[idx[j]]
    ensures SumOver(idx[..n], KeptAt(p, m)) == 0.0
    decreases n
  {
    if n > 0 {
      assert idx[..n][..n - 1] == idx[..n - 1];
      NothingKept(p, m, idx, n - 1);
    }
  }

  /** The kept mass is what the dropped low end leaves. */
  lemma TopPMass(p: Row, idx: seq<nat>, topP: real) returns (c: nat)
    requires IsRow(p) && IsPermutation(idx, |p|) && 0.0 < topP < 1.0
    ensures |idx| == |p| && c < |p| && (forall j :: 0 <= j < |p| ==> idx[j] < |p|)
    ensures forall j :: 0 <= j < |p| ==> (TopP(p, idx, topP)[idx[j]] <==> c <= j)
    ensures Mass(p, TopP(p, idx, topP)) >= topP
    ensures Mass(p, TopP(p, idx, topP)) - p[idx[c]] < topP
  {
    var m := TopP(p, idx, topP);
    c := TopPIsASuffix(p, idx, topP);
    LastCumulativeIsOne(p, idx);
    assert idx[..|p|] == idx;
    MassOfSuffix(p, m, idx, c, |p|);
    SumOfPermutation(idx, Range(|p|), KeptAt(p, m));
    assert idx[..c + 1][..c] == idx[..c];
    assert c == 0 ==> idx[..c] == [];
  }

  /** Top-p prefers likelier tokens: whatever is likelier than a kept token is kept. */
  lemma TopPIsUpwardClosed(p: Row, idx: seq<nat>, topP: real, v: nat, w: nat)
    requires IsRow(p) && Ascending(p, idx) && 0.0 < topP < 1.0
    requires v < |p| && w < |p| && TopP(p, idx, topP)[v] && p[w] > p[v]
    ensures TopP(p, idx, topP)[w]
  {
    PermutationFacts(idx, |p|);
    var c := TopPIsASuffix(p, idx, topP);
    var i, j := PositionOf(idx, v), PositionOf(idx, w);
    assert At(p)(idx[i]) == p[v] && At(p)(idx[j]) == p[w];
  }

  /** Top-p keeps a nucleus: mass at least `topP`, and less once its least likely token is taken away. */
  lemma TopPIsTheNucleus(p: Row, idx: seq<nat>, topP: real, v: nat)
    requires IsRow(p) && Ascending(p, idx) && 0.0 < topP < 1.0
    requires v < |p| && TopP(p, idx, topP)[v]
    requires forall w :: 0 <= w < |p| && TopP(p, idx, topP)[w] ==> p[v] <= p[w]
    ensures Mass(p, TopP(p, idx, topP)) - p[v] < topP <= Mass(p, TopP(p, idx, topP))
  {
    PermutationFacts(idx, |p|);
    var c := TopPMass(p, idx, topP);
    var i := PositionOf(idx, v);
    assert At(p)(idx[c]) <= At(p)(idx[i]);
    assert TopP(p, idx, topP)[idx[c]];
  }

  function PositionOf(idx: seq<nat>, v: nat): (i: nat)
    requires v in idx
    ensures i < |idx| && idx[i] == v
  {
    if idx[0] == v then 0 else 1 + PositionOf(idx[1..], v)
  }

  // ----- Top-k -----

  function Elements(s: seq<nat>): set<nat> { set v | v in s }

  lemma {:induction false} DistinctCount(s: seq<nat>)
    requires forall i, j :: 0 <= i < j < |s| ==> s[i] != s[j]
    ensures |Elements(s)| == |s|
  {
    if s == [] {
      assert Elements(s) == {};
    } else {
      var front, last := s[..|s|-1], s[|s|-1];
      DistinctCount(front);
      assert s == front + [last];
      assert Elements(s) == Elements(front) + {last};
      assert last !in Elements(front);
    }
  }

  lemma TopKMembers(p: Row, idx: seq<nat>, k: nat)
    requires IsPermutation(idx, |p|)
    ensures |idx| == |p| && Kept(TopK(p, idx, k)) == Elements(idx[..EffectiveK(k, |p|)])
  {
    PermutationFacts(idx, |p|);
    var e := EffectiveK(k, |p|);
    PutAlongAt(Blank(|p|), idx[..e], seq(e, _ => true));
    var m := TopK(p, idx, k);
    forall v: nat ensures v in Kept(m) <==> v in idx[..e] {
      if v in idx[..e] {
        var j :| 0 <= j < e && idx[..e][j] == v;
        assert m[idx[..e][j]];
      }
    }
  }

  /** Top-k keeps exactly `min(k, vocab)` tokens, none of them less likely than a dropped one. */
  lemma TopKIsExact(p: Row, idx: seq<nat>, k: nat)
    requires p != [] && Descending(p, idx)
    ensures |Kept(TopK(p, idx, k))| == EffectiveK(k, |p|)
    ensures forall v, w :: v in Kept(TopK(p, idx, k)) && 0 <= w < |p| && w !in Kept(TopK(p, idx, k)) ==> p[v] >= p[w]
  {
    PermutationFacts(idx, |p|);
    TopKMembers(p, idx, k);
    var e := EffectiveK(k, |p|);
    DistinctCount(idx[..e]);
    assert forall j :: 0 <= j < e ==> idx[..e][j] in Kept(TopK(p, idx, k));
    forall v, w | v in Kept(TopK(p, idx, k)) && 0 <= w < |p| && w !in Kept(TopK(p, idx, k)) ensures p[v] >= p[w] {
      var i, j := PositionOf(idx[..e], v), PositionOf(idx, w);
      assert At(p)(idx[i]) >= At(p)(idx[j]);
    }
  }

  // ----- The combined mask and the rescue -----

  lemma MaxIsInside(p: Row)
    requires p != []
    ensures exists v :: v in Tied(p)
  {
    var v :| 0 <= v < |p| && p[v] == MaxOf(p);
    assert v in Tied(p);
  }

  /** A row with a kept token is left alone; an empty one gets exactly the argmax. */
  lemma RescueIsConditional(m: Mask, argmax: nat)
    requires argmax < |m|
    ensures Kept(m) != {} ==> Rescue(m, argmax) == m
    ensures Kept(m) == {} ==> Kept(Rescue(m, argmax)) == {argmax}
    ensures Kept(Rescue(m, argmax)) != {}
  {
    PutAlongAt(Blank(|m|), [argmax], [true]);
    if true in m {
      var v :| 0 <= v < |m| && m[v] == true;
      assert v in Kept(m);
    } else {
      var r := Rescue(m, argmax);
      assert r[[argmax][0]];
      forall v: nat ensures v in Kept(r) <==> v == argmax {
        if v < |m| && v != argmax { assert v !in [argmax]; }
      }
    }
  }

  /** Top-p always keeps a token of maximal probability: the last of its sort. */
  lemma TopPKeepsAMaximum(p: Row, up: seq<nat>, topP: real)
    requires p != [] && Ascending(p, up)
    ensures |up| == |p| && up[|p|-1] in Tied(p) && up[|p|-1] in Kept(TopP(p, up, topP))
  {
    PermutationFacts(up, |p|);
    TopPAt(p, up, topP, |p| - 1);
    var last := up[|p|-1];
    forall v: nat | v < |p| ensures p[v] <= p[last] {
      var i := PositionOf(up, v);
      assert At(p)(up[i]) <= At(p)(up[|p|-1]);
    }
  }

  lemma FloorBounds(p: Row, minP: real)
    requires p != [] && MaxOf(p) > 0.0
    ensures minP <= 1.0 ==> Floor(p, minP) <= MaxOf(p)
    ensures minP > 1.0 ==> Floor(p, minP) > MaxOf(p)
  {
    Scaled(minP, MaxOf(p));
  }

  lemma MaxIsPositive(p: Row)
    requires p != [] && forall v :: 0 <= v < |p| ==> p[v] > 0.0
    ensures MaxOf(p) > 0.0
  {
    assert p[0] <= MaxOf(p);
  }

  lemma Scaled(x: real, m: real)
    requires m > 0.0
    ensures x <= 1.0 ==> x * m <= m
    ensures x > 1.0 ==> x * m > m
  {
  }

  /** With `minP <= 1`, min-p never drops a token of maximal probability. */
  lemma MinPKeepsMaxima(p: Row, f: Filters)
    requires IsRow(p) && f.minP <= 1.0
    ensures Tied(p) <= Kept(MPart(p, f))
  {
    MaxIsPositive(p);
    FloorBounds(p, f.minP);
  }

  /** Top-k either keeps only tokens of maximal probability, or all of them. */
  lemma TopKAndTies(p: Row, down: seq<nat>, k: nat)
    requires p != [] && Descending(p, down)
    ensures Kept(TopK(p, down, k)) <= Tied(p) || Tied(p) <= Kept(TopK(p, down, k))
  {
    TopKIsExact(p, down, k);
  }

  lemma CombinedIsIntersection(p: Row, f: Filters, up: seq<nat>, down: seq<nat>)
    requires p != [] && IsPermutation(up, |p|) && IsPermutation(down, |p|)
    ensures Kept(Combined(p, f, up, down)) == Kept(PPart(p, f, up)) * Kept(KPart(p, f, down)) * Kept(MPart(p, f))
  {
  }

  /** The likeliest tokens that survive top-p. */
  function TiedInP(p: Row, f: Filters, up: seq<nat>): set<nat>
    requires p != [] && IsPermutation(up, |p|)
  {
    Tied(p) * Kept(PPart(p, f, up))
  }

  lemma SomeTieSurvivesP(p: Row, f: Filters, up: seq<nat>)
    requires p != [] && Ascending(p, up)
    ensures exists v :: v in TiedInP(p, f, up)
  {
    if f.UseTopP() {
      TopPKeepsAMaximum(p, up, f.topP);
      assert up[|p|-1] in TiedInP(p, f, up);
    } else {
      MaxIsInside(p);
      var v :| v in Tied(p);
      assert v in TiedInP(p, f, up);
    }
  }

  /**
   With `minP <= 1` the filters leave nothing exactly when top-p and top-k are both active and top-k's
   tokens avoid the tied maxima that top-p kept; then the ties number at least `min(topK, vocab)` plus
   those.
   */
  lemma WhenTheRescueFires(p: Row, f: Filters, up: seq<nat>, down: seq<nat>)
    requires IsRow(p) && Ascending(p, up) && Descending(p, down) && f.minP <= 1.0
    ensures Kept(Combined(p, f, up, down)) == {} <==>
              f.UseTopP() && f.UseTopK() && Kept(KPart(p, f, down)) !! TiedInP(p, f, up)
    ensures Kept(Combined(p, f, up, down)) == {} ==> |Tied(p)| >= EffectiveK(f.topK, |p|) + |TiedInP(p, f, up)|
  {
    CombinedIsIntersection(p, f, up, down);
    MinPKeepsMaxima(p, f);
    SomeTieSurvivesP(p, f, up);
    var t :| t in TiedInP(p, f, up);
    var P, K := Kept(PPart(p, f, up)), Kept(KPart(p, f, down));
    if f.UseTopK() {
      TopKAndTies(p, down, f.topK);
      TopKIsExact(p, down, f.topK);
    }
    if K !! TiedInP(p, f, up) {
      assert t !in K;
      assert K <= Tied(p);
      assert P * K <= K * TiedInP(p, f, up);
      Disjoint(K, TiedInP(p, f, up), Tied(p));
    }
    if !f.UseTopP() && f.UseTopK() {
      KeepsSomething(p, down, f.topK);
      var v :| v in K;
      assert v in TiedInP(p, f, up) || t in K;
    }
    if Kept(Combined(p, f, up, down)) == {} {
      forall v | v in TiedInP(p, f, up) ensures v !in K {
        assert v in P && v in Kept(MPart(p, f));
        assert v !in P * K * Kept(MPart(p, f));
      }
    }
  }

  lemma KeepsSomething(p: Row, down: seq<nat>, k: int)
    requires p != [] && Descending(p, down) && k > 0
    ensures Kept(TopK(p, down, k)) != {}
  {
    TopKIsExact(p, down, k);
  }

  lemma Disjoint(a: set<nat>, b: set<nat>, c: set<nat>)
    requires a !! b && a <= c && b <= c
    ensures |a| + |b| <= |c|
  {
    assert |a + b| == |a| + |b|;
    Smaller(a + b, c);
  }

  lemma {:induction false} Smaller(a: set<nat>, c: set<nat>)
    requires a <= c
    ensures |a| <= |c|
  {
    assert c == a + (c - a);
  }

  /** When the maximum is unique the rescue changes nothing. */
  lemma UniqueMaximumNeedsNoRescue(p: Row, f: Filters, up: seq<nat>, down: seq<nat>, argmax: nat)
    requires IsRow(p) && Ascending(p, up) && Descending(p, down) && f.minP <= 1.0
    requires argmax < |p| && Tied(p) == {argmax}
    ensures Rescue(Combined(p, f, up, down), argmax) == Combined(p, f, up, down)
    ensures Combined(p, f, up, down)[argmax]
  {
    WhenTheRescueFires(p, f, up, down);
    RescueIsConditional(Combined(p, f, up, down), argmax);
    SomeTieSurvivesP(p, f, up);
    var t :| t in TiedInP(p, f, up);
    CombinedIsIntersection(p, f, up, down);
    MinPKeepsMaxima(p, f);
    if f.UseTopK() {
      TopKAndTies(p, down, f.topK);
      KeepsSomething(p, down, f.topK);
    }
    assert argmax in Kept(Combined(p, f, up, down));
  }

  // ----- Which tokens are kept -----

  /** Top-p keeps the token at sorted position `i` exactly if the tokens sorted above it weigh less than `topP`. */
  lemma TopPExactly(p: Row, up: seq<nat>, topP: real, i: nat)
    requires IsRow(p) && IsPermutation(up, |p|) && topP > 0.0 && i < |p|
    ensures |up| == |p| && up[i] < |p|
    ensures TopP(p, up, topP)[up[i]] <==> SumOver(up[i + 1..], At(p)) < topP
  {
    PermutationFacts(up, |p|);
    TopPAt(p, up, topP, i);
    LastCumulativeIsOne(p, up);
    assert up[..|p|] == up == up[..i + 1] + up[i + 1..];
    SumAppend(up[..i + 1], up[i + 1..], At(p));
  }

  /** Top-k keeps the token at sorted position `j` exactly if that is among the first `k`. */
  lemma TopKExactly(p: Row, down: seq<nat>, k: nat, j: nat)
    requires IsPermutation(down, |p|) && j < |p|
    ensures |down| == |p| && down[j] < |p| && (TopK(p, down, k)[down[j]] <==> j < k)
  {
    PermutationFacts(down, |p|);
    TopKMembers(p, down, k);
    var first := down[..EffectiveK(k, |p|)];
    assert TopK(p, down, k)[down[j]] <==> down[j] in Kept(TopK(p, down, k));
    assert j < k ==> first[j] == down[j];
    assert down[j] in first ==> exists i :: 0 <= i < |first| && first[i] == down[j];
  }

  predicate AtLeast(p: Row, m: real, v: nat, w: nat) { v < |p| && w < |p| && p[v] >= m * p[w] }

  /** The floor is what some token scales to, and no token scales higher. */
  lemma FloorIsReached(p: Row, m: real) returns (t: nat)
    requires p != [] && m > 0.0
    ensures t < |p| && m * p[t] == Floor(p, m)
  {
    t :| t < |p| && p[t] == MaxOf(p);
    ScaledOrder(m, p[t], MaxOf(p));
    ScaledOrder(m, MaxOf(p), p[t]);
  }

  lemma BelowFloor(p: Row, m: real, w: nat)
    requires w < |p| && m > 0.0
    ensures m * p[w] <= Floor(p, m)
  {
    ScaledOrder(m, p[w], MaxOf(p));
  }

  lemma ScaledOrder(m: real, x: real, y: real)
    requires m > 0.0 && x <= y
    ensures m * x <= m * y
  {
  }

  /** Min-p keeps a token exactly if no token is more than `1 / m` times as likely. */
  lemma MinPExactly(p: Row, m: real, v: nat)
    requires IsRow(p) && m > 0.0 && v < |p|
    ensures MinP(p, m)[v] <==> forall w: nat :: w < |p| ==> AtLeast(p, m, v, w)
  {
    var t := FloorIsReached(p, m);
    assert MinP(p, m)[v] <==> p[v] >= Floor(p, m);
    assert AtLeast(p, m, v, t) <==> p[v] >= Floor(p, m);
    forall w: nat | w < |p| && AtLeast(p, m, v, t) ensures AtLeast(p, m, v, w) {
      BelowFloor(p, m, w);
    }
  }

  /** A token passes the request's filters, `i` and `j` being its positions in the two sorts. */
  ghost predicate Passes(p: Row, f: Filters, up: seq<nat>, v: nat, i: nat, j: nat)
    requires i < |up|
  {
    && (0.0 < f.topP < 1.0 ==> SumOver(up[i + 1..], At(p)) < f.topP)
    && (f.topK > 0 ==> j < f.topK)
    && (f.minP > 0.0 ==> forall w: nat :: w < |p| ==> AtLeast(p, f.minP, v, w))
  }

  /** The mask before the rescue keeps exactly the tokens that pass. */
  lemma KeptExactly(p: Row, f: Filters, up: seq<nat>, down: seq<nat>, v: nat, i: nat, j: nat)
    requires IsRow(p) && IsPermutation(up, |p|) && IsPermutation(down, |p|)
    requires i < |up| && up[i] == v && j < |down| && down[j] == v
    ensures v in Kept(Combined(p, f, up, down)) <==> Passes(p, f, up, v, i, j)
  {
    PermutationFacts(up, |p|);
    PermutationFacts(down, |p|);
    CombinedIsIntersection(p, f, up, down);
    if f.UseTopP() { TopPExactly(p, up, f.topP, i); }
    if f.UseTopK() { TopKExactly(p, down, f.topK, j); }
    if f.UseMinP() { MinPExactly(p, f.minP, v); }
  }

  /** Some position of `v` in either sort shows that it passes. */
  ghost predicate PassesSomewhere(p: Row, f: Filters, up: seq<nat>, down: seq<nat>, v: nat) {
    exists i: nat, j: nat ::
      i < |up| && up[i] == v && j < |down| && down[j] == v && Passes(p, f, up, v, i, j)
  }

  lemma KeptIfPasses(p: Row, f: Filters, up: seq<nat>, down: seq<nat>, v: nat)
    requires IsRow(p) && IsPermutation(up, |p|) && IsPermutation(down, |p|)
    ensures v in Kept(Combined(p, f, up, down)) <==> v < |p| && PassesSomewhere(p, f, up, down, v)
  {
    PermutationFacts(up, |p|);
    PermutationFacts(down, |p|);
    if v < |p| {
      var i, j := PositionOf(up, v), PositionOf(down, v);
      KeptExactly(p, f, up, down, v, i, j);
      forall k: nat, l: nat | k < |up| && up[k] == v && l < |down| && down[l] == v
        ensures v in Kept(Combined(p, f, up, down)) <==> Passes(p, f, up, v, k, l)
      {
        KeptExactly(p, f, up, down, v, k, l);
      }
    }
  }

  /** Whatever the parameters, exactly the tokens that pass can be sampled, or the argmax alone if none does. */
  lemma SampledTokensAreLegitimate(p: Row, f: Filters, up: seq<nat>, down: seq<nat>, argmax: nat, token: nat)
    requires IsRow(p) && Ascending(p, up) && Descending(p, down) && argmax in Tied(p)
    ensures token in Kept(Rescue(Combined(p, f, up, down), argmax)) <==>
              || (token < |p| && PassesSomewhere(p, f, up, down, token))
              || (token == argmax && forall v: nat :: v < |p| ==> !PassesSomewhere(p, f, up, down, v))
  {
    var m := Combined(p, f, up, down);
    RescueIsConditional(m, argmax);
    forall v: nat ensures v in Kept(m) <==> v < |p| && PassesSomewhere(p, f, up, down, v) {
      KeptIfPasses(p, f, up, down, v);
    }
    if Kept(m) != {} {
      var v :| v in Kept(m);
      assert PassesSomewhere(p, f, up, down, v);
    }
  }

  /** A min-p above one empties every row, so the sampler turns greedy. */
  lemma MinPAboveOneIsGreedy(p: Row, f: Filters, up: seq<nat>, down: seq<nat>, argmax: nat)
    requires IsRow(p) && Ascending(p, up) && Descending(p, down) && argmax in Tied(p) && f.minP > 1.0
    ensures Kept(Rescue(Combined(p, f, up, down), argmax)) == {argmax}
  {
    CombinedIsIntersection(p, f, up, down);
    RescueIsConditional(Combined(p, f, up, down), argmax);
    MaxIsPositive(p);
    FloorBounds(p, f.minP);
    assert Kept(MPart(p, f)) == {};
  }
}
