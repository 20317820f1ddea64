/**
 Edit distance and the model-name suggestion built on it (fusion_mlx/exceptions.py).

 The two-row table loop is proved to compute `Lev`, the recursive Levenshtein distance, and `Lev` is
 proved to be the least number of single-character edits that turn one string into the other.
 */
module EditDistance {

  import opened Common

  function Min(x: nat, y: nat): nat { if x <= y then x else y }

  function Cost(x: char, y: char): nat { if x == y then 0 else 1 }

  /** Levenshtein distance, by recursion on the last characters. */
  function Lev(a: string, b: string): nat
    decreases |a| + |b|
  {
    if a == [] then |b|
    else if b == [] then |a|
    else
      var a', b' := a[..|a|-1], b[..|b|-1];
      Min(Min(Lev(a, b') + 1, Lev(a', b) + 1), Lev(a', b') + Cost(a[|a|-1], b[|b|-1]))
  }

  // ----- The loop -----

  /** Cells `0..upto` of a table row hold the distances from `a` to the prefixes of `b`. */
  ghost predicate Row(row: seq<nat>, a: string, b: string, upto: nat)
  {
    && upto <= |row| == |b| + 1
    && forall j :: 0 <= j < upto ==> row[j] == Lev(a, b[..j])
  }

  method Distance(a: string, b: string) returns (d: nat)
    ensures d == Lev(a, b)
  {
    var n, m := |a|, |b|;
    if n == 0 { return m; }
    if m == 0 { return n; }
    var prev: seq<nat> := seq(m + 1, j => j);
    for i := 1 to n + 1
      invariant Row(prev, a[..i-1], b, m + 1)
    {
      var curr: seq<nat> := [i] + seq(m, _ => 0);
      for j := 1 to m + 1
        invariant Row(curr, a[..i], b, j)
      {
        var cost := if a[i-1] == b[j-1] then 0 else 1;
        NextCell(a, b, prev, curr, i, j);
        curr := curr[j := Min(Min(curr[j-1] + 1, prev[j] + 1), prev[j-1] + cost)];
      }
      prev := curr;
    }
    assert a[..n] == a && b[..m] == b;
    d := prev[m];
  }

  lemma LevOfPrefixes(a: string, b: string, i: nat, j: nat)
    requires 1 <= i <= |a| && 1 <= j <= |b|
    ensures Lev(a[..i], b[..j]) ==
            Min(Min(Lev(a[..i], b[..j-1]) + 1, Lev(a[..i-1], b[..j]) + 1),
                Lev(a[..i-1], b[..j-1]) + Cost(a[i-1], b[j-1]))
  {
    assert a[..i][..i-1] == a[..i-1];
    assert b[..j][..j-1] == b[..j-1];
  }

  lemma NextCell(a: string, b: string, prev: seq<nat>, curr: seq<nat>, i: nat, j: nat)
    requires 1 <= i <= |a| && 1 <= j <= |b| && Row(prev, a[..i-1], b, |b| + 1) && Row(curr, a[..i], b, j)
    ensures var cell := Min(Min(curr[j-1] + 1, prev[j] + 1), prev[j-1] + Cost(a[i-1], b[j-1]));
            Row(curr[j := cell], a[..i], b, j + 1)
  {
    LevOfPrefixes(a, b, i, j);
  }

  // ----- Lev is a metric -----

  lemma {:induction false} Symmetric(a: string, b: string)
    ensures Lev(a, b) == Lev(b, a)
    decreases |a| + |b|
  {
    if a != [] && b != [] {
      var a', b' := a[..|a|-1], b[..|b|-1];
      Symmetric(a, b');
      Symmetric(a', b);
      Symmetric(a', b');
    }
  }

  lemma {:induction false} LevSelf(a: string)
    ensures Lev(a, a) == 0
  {
    if a != [] {
      LevSelf(a[..|a|-1]);
    }
  }

  lemma {:induction false} ZeroOnlyOnEqual(a: string, b: string)
    ensures Lev(a, b) == 0 <==> a == b
    decreases |a| + |b|
  {
    if a == b {
      LevSelf(a);
    } else if a != [] && b != [] {
      var a', b', x, y := a[..|a|-1], b[..|b|-1], a[|a|-1], b[|b|-1];
      ZeroOnlyOnEqual(a', b');
      assert a == a' + [x] && b == b' + [y];
    }
  }

  /** Dropping the last character of either string moves the distance by at most one. */
  lemma {:induction false} DropLast(a: string, b: string)
    ensures a != [] ==> Lev(a, b) <= Lev(a[..|a|-1], b) + 1
    ensures b != [] ==> Lev(a, b) <= Lev(a, b[..|b|-1]) + 1
  {
  }

  lemma {:induction false} TriangleInequality(a: string, b: string, c: string)
    ensures Lev(a, c) <= Lev(a, b) + Lev(b, c)
    decreases |a| + |b| + |c|
  {
    if b == [] {
      LevAtMostTotal(a, c);
    } else if a == [] {
      LengthGap(b, c);
    } else if c == [] {
      LengthGap(a, b);
    } else {
      var a', b', c' := a[..|a|-1], b[..|b|-1], c[..|c|-1];
      TriangleInequality(a', b, c);
      TriangleInequality(a, b, c');
      TriangleInequality(a, b', c);
      TriangleInequality(a, b', c');
      TriangleInequality(a', b', c);
      TriangleInequality(a', b', c');
    }
  }

  lemma {:induction false} LevAtMostTotal(a: string, c: string)
    ensures Lev(a, c) <= |a| + |c|
    decreases |a|
  {
    if a != [] && c != [] {
      LevAtMostTotal(a[..|a|-1], c);
    }
  }

  lemma {:induction false} LengthGap(a: string, b: string)
    ensures |a| <= |b| + Lev(a, b) && |b| <= |a| + Lev(a, b)
    decreases |a| + |b|
  {
    if a != [] && b != [] {
      LengthGap(a, b[..|b|-1]);
      LengthGap(a[..|a|-1], b);
      LengthGap(a[..|a|-1], b[..|b|-1]);
    }
  }

  // ----- Lev is the least number of edits -----

  datatype Edit = Insert(at: nat, ch: char) | Delete(at: nat) | Substitute(at: nat, ch: char)

  predicate CanApply(e: Edit, s: string) {
    if e.Insert? then e.at <= |s| else e.at < |s|
  }

  function ApplyEdit(e: Edit, s: string): string
    requires CanApply(e, s)
  {
    match e
    case Insert(i, ch) => s[..i] + [ch] + s[i..]
    case Delete(i) => s[..i] + s[i+1..]
    case Substitute(i, ch) => s[i := ch]
  }

  /** `script` turns `a` into `b`, one edit at a time. */
  predicate Transforms(script: seq<Edit>, a: string, b: string)
    decreases |script|
  {
    if script == [] then a == b
    else CanApply(script[0], a) && Transforms(script[1..], ApplyEdit(script[0], a), b)
  }

  /** Appending the same character to both strings does not raise the distance. */
  lemma {:induction false} CommonTail(a: string, b: string, t: string)
    ensures Lev(a + t, b + t) <= Lev(a, b)
    decreases |t|
  {
    if t == [] {
      assert a + t == a && b + t == b;
    } else {
      var t' := t[..|t|-1];
      CommonTail(a, b, t');
      assert (a + t)[..|a + t|-1] == a + t' && (b + t)[..|b + t|-1] == b + t';
    }
  }

  lemma OneMoreCharacter(head: string, c: char, d: char)
    ensures Lev(head + [c], head) <= 1 && Lev(head, head + [c]) <= 1 && Lev(head + [c], head + [d]) <= 1
  {
    LevSelf(head);
    assert (head + [c])[..|head|] == head && (head + [d])[..|head|] == head;
    DropLast(head + [c], head);
    DropLast(head, head + [c]);
  }

  lemma InsertCostsOne(head: string, c: char, tail: string)
    ensures Lev(head + tail, head + [c] + tail) <= 1 && Lev(head + [c] + tail, head + tail) <= 1
  {
    OneMoreCharacter(head, c, c);
    CommonTail(head, head + [c], tail);
    CommonTail(head + [c], head, tail);
  }

  lemma SubstituteCostsOne(head: string, c: char, d: char, tail: string)
    ensures Lev(head + [c] + tail, head + [d] + tail) <= 1
  {
    OneMoreCharacter(head, c, d);
    CommonTail(head + [c], head + [d], tail);
  }

  lemma OneEditIsDistanceOne(e: Edit, s: string)
    requires CanApply(e, s)
    ensures Lev(s, ApplyEdit(e, s)) <= 1
  {
    var head := s[..e.at];
    if e.Insert? {
      InsertCostsOne(head, e.ch, s[e.at..]);
      assert s == head + s[e.at..];
    } else {
      var tail := s[e.at + 1..];
      assert s == head + [s[e.at]] + tail;
      if e.Delete? {
        InsertCostsOne(head, s[e.at], tail);
      } else {
        SubstituteCostsOne(head, s[e.at], e.ch, tail);
        assert s[e.at := e.ch] == head + [e.ch] + tail;
      }
    }
  }

  lemma {:induction false} NoScriptIsShorter(script: seq<Edit>, a: string, b: string)
    requires Transforms(script, a, b)
    ensures Lev(a, b) <= |script|
    decreases |script|
  {
    if script == [] {
      LevSelf(a);
    } else {
      var mid := ApplyEdit(script[0], a);
      NoScriptIsShorter(script[1..], mid, b);
      OneEditIsDistanceOne(script[0], a);
      TriangleInequality(a, mid, b);
    }
  }

  lemma EditUnderTail(e: Edit, a: string, t: string)
    requires CanApply(e, a)
    ensures CanApply(e, a + t) && ApplyEdit(e, a + t) == ApplyEdit(e, a) + t
  {
  }

  /** A script for the heads is a script for the strings with a common tail. */
  lemma {:induction false} ScriptUnderTail(script: seq<Edit>, a: string, b: string, t: string)
    requires Transforms(script, a, b)
    ensures Transforms(script, a + t, b + t)
    decreases |script|
  {
    if script != [] {
      var e := script[0];
      ScriptUnderTail(script[1..], ApplyEdit(e, a), b, t);
      EditUnderTail(e, a, t);
    }
  }

  lemma EndByInsert(rest: seq<Edit>, a: string, b: string) returns (script: seq<Edit>)
    requires b != [] && Transforms(rest, a, b[..|b|-1])
    ensures Transforms(script, a, b) && |script| == |rest| + 1
  {
    var b', y := b[..|b|-1], b[|b|-1];
    ScriptThen(rest, Insert(|b'|, y), a, b');
    assert ApplyEdit(Insert(|b'|, y), b') == b;
    script := rest + [Insert(|b'|, y)];
  }

  lemma StartByDelete(rest: seq<Edit>, a: string, b: string) returns (script: seq<Edit>)
    requires a != [] && Transforms(rest, a[..|a|-1], b)
    ensures Transforms(script, a, b) && |script| == |rest| + 1
  {
    script := [Delete(|a|-1)] + rest;
    assert ApplyEdit(script[0], a) == a[..|a|-1];
    assert script[1..] == rest;
  }

  lemma KeepLast(rest: seq<Edit>, a: string, b: string)
    requires a != [] && b != [] && Transforms(rest, a[..|a|-1], b[..|b|-1]) && a[|a|-1] == b[|b|-1]
    ensures Transforms(rest, a, b)
  {
    ScriptUnderTail(rest, a[..|a|-1], b[..|b|-1], [b[|b|-1]]);
    assert a[..|a|-1] + [a[|a|-1]] == a;
    assert b[..|b|-1] + [b[|b|-1]] == b;
  }

  lemma ReplaceLast(rest: seq<Edit>, a: string, b: string) returns (script: seq<Edit>)
    requires a != [] && b != [] && Transforms(rest, a[..|a|-1], b[..|b|-1])
    ensures Transforms(script, a, b) && |script| == |rest| + 1
  {
    var y := b[|b|-1];
    var a' := a[|a| - 1 := y];
    assert a'[..|a'|-1] == a[..|a|-1];
    KeepLast(rest, a', b);
    script := [Substitute(|a| - 1, y)] + rest;
    assert ApplyEdit(script[0], a) == a' && script[1..] == rest;
  }

  /** A script of length `Lev` that ends by inserting, starts by deleting, or aligns the last characters. */
  lemma {:induction false} OptimalScript(a: string, b: string) returns (script: seq<Edit>)
    ensures Transforms(script, a, b) && |script| == Lev(a, b)
    decreases |a| + |b|
  {
    if a == [] && b == [] {
      script := [];
    } else if a == [] || (b != [] && Lev(a, b) == Lev(a, b[..|b|-1]) + 1) {
      var rest := OptimalScript(a, b[..|b|-1]);
      script := EndByInsert(rest, a, b);
    } else if b == [] || Lev(a, b) == Lev(a[..|a|-1], b) + 1 {
      var rest := OptimalScript(a[..|a|-1], b);
      script := StartByDelete(rest, a, b);
    } else {
      var rest := OptimalScript(a[..|a|-1], b[..|b|-1]);
      if a[|a|-1] == b[|b|-1] {
        KeepLast(rest, a, b);
        script := rest;
      } else {
        script := ReplaceLast(rest, a, b);
      }
    }
  }

  lemma {:induction false} ScriptThen(script: seq<Edit>, e: Edit, a: string, b: string)
    requires Transforms(script, a, b) && CanApply(e, b)
    ensures Transforms(script + [e], a, ApplyEdit(e, b))
    decreases |script|
  {
    if script == [] {
      assert Transforms([], ApplyEdit(e, b), ApplyEdit(e, b));
      assert [e][1..] == [];
    } else {
      ScriptThen(script[1..], e, ApplyEdit(script[0], a), b);
      assert (script + [e])[1..] == script[1..] + [e];
    }
  }

  /** `Lev` is exactly the least length of an edit script. */
  lemma LeastEdits(a: string, b: string)
    ensures exists script :: Transforms(script, a, b) && |script| == Lev(a, b)
    ensures forall script :: Transforms(script, a, b) ==> Lev(a, b) <= |script|
  {
    var best := OptimalScript(a, b);
    forall script | Transforms(script, a, b)
      ensures Lev(a, b) <= |script|
    {
      NoScriptIsShorter(script, a, b);
    }
  }

  // ----- Suggestions -----

  /** Candidate `c` competes: it differs from the query once case is folded. */
  predicate Competes(lower: string -> string, query: string, c: string) {
    lower(query) != lower(c)
  }

  /** `k` is the index of the suggestion: in bound, of least distance, and the earliest such. */
  ghost predicate IsSuggestion(lower: string -> string, query: string, candidates: seq<string>, maxDist: int, k: nat)
  {
    && k < |candidates|
    && Competes(lower, query, candidates[k])
    && Lev(lower(query), lower(candidates[k])) <= maxDist
    && (forall i :: 0 <= i < |candidates| && Competes(lower, query, candidates[i]) ==>
          Lev(lower(query), lower(candidates[k])) <= Lev(lower(query), lower(candidates[i])))
    && (forall i :: 0 <= i < k && Competes(lower, query, candidates[i]) ==>
          Lev(lower(query), lower(candidates[k])) < Lev(lower(query), lower(candidates[i])))
  }

  method FuzzyMatch(lower: string -> string, query: string, candidates: seq<string>, maxDist: int)
    returns (best: Option<string>)
    ensures best.Some? ==>
              exists k: nat :: IsSuggestion(lower, query, candidates, maxDist, k) && best.value == candidates[k]
    ensures best.None? <==>
            query == [] || forall i :: 0 <= i < |candidates| && Competes(lower, query, candidates[i]) ==>
                                         Lev(lower(query), lower(candidates[i])) > maxDist
    ensures best.Some? ==> query != [] && lower(best.value) != lower(query)
  {
    if query == [] || candidates == [] { return None; }
    var q := lower(query);
    var bestD := maxDist + 1;
    ghost var at := 0;
    best := None;
    for i := 0 to |candidates|
      invariant bestD <= maxDist + 1
      invariant forall j :: 0 <= j < i && Competes(lower, query, candidates[j]) ==>
                  bestD <= Lev(q, lower(candidates[j]))
      invariant best.None? ==> bestD == maxDist + 1
      invariant best.Some? ==>
        && at < i && best.value == candidates[at] && bestD == Lev(q, lower(candidates[at])) <= maxDist
        && Competes(lower, query, candidates[at])
        && forall j :: 0 <= j < at && Competes(lower, query, candidates[j]) ==> bestD < Lev(q, lower(candidates[j]))
    {
      var c := candidates[i];
      var cl := lower(c);
      if q != cl {
        var d := Distance(q, cl);
        if d < bestD {
          bestD := d;
          best := Some(c);
          at := i;
        }
      }
    }
    if best.Some? {
      assert IsSuggestion(lower, query, candidates, maxDist, at);
    }
    if bestD > maxDist { best := None; }
  }
}
