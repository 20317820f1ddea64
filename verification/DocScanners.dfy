/**
 The two scanners of ci/validate_docs.py that strip fenced and inline code from a document, one inside
 `check_redlines` and one inside `check_links`, and the character-level rule both follow.

 `space` is the set of characters `str.strip` removes; a backtick is not one of them.
 */
module DocScanners {
  import opened Common

  const TICK := '`'
  const FENCE := "```"

  // ----- Python string operations -----

  function StripLeft(space: char -> bool, s: string): string {
    if s != [] && space(s[0]) then StripLeft(space, s[1..]) else s
  }

  function StripRight(space: char -> bool, s: string): string {
    if s != [] && space(s[|s|-1]) then StripRight(space, s[..|s|-1]) else s
  }

  function Strip(space: char -> bool, s: string): string { StripRight(space, StripLeft(space, s)) }

  predicate IsFence(space: char -> bool, line: string) { FENCE <= Strip(space, line) }

  predicate IsBlank(space: char -> bool, line: string) { Strip(space, line) == [] }

  function Split(s: string): (segs: seq<string>)
    ensures segs != [] && forall i :: 0 <= i < |segs| ==> TICK !in segs[i]
  {
    if s == [] then [[]]
    else
      var rest := Split(s[1..]);
      if s[0] == TICK then [[]] + rest else [[s[0]] + rest[0]] + rest[1..]
  }

  // ----- The character-level rule -----

  function Ticks(s: string): nat {
    if s == [] then 0 else Ticks(s[..|s|-1]) + if s[|s|-1] == TICK then 1 else 0
  }

  predicate Odd(n: nat) { n > 0 && !Odd(n - 1) }

  /** The character at `j` is prose: no backtick, and an even number of backticks since the last reset. */
  predicate IsProse(line: string, before: nat, j: nat)
    requires j < |line|
  {
    line[j] != TICK && !Odd(before + Ticks(line[..j]))
  }

  /** The prose characters of a line that `before` backticks precede. */
  function Prose(line: string, before: nat): string {
    if line == [] then []
    else Prose(line[..|line|-1], before) + if IsProse(line, before, |line| - 1) then [line[|line|-1]] else []
  }

  /** An odd number of fence lines precede line `i`. */
  predicate InFence(space: char -> bool, lines: seq<string>, i: nat)
    requires i <= |lines|
  {
    i > 0 && if IsFence(space, lines[i-1]) then !InFence(space, lines, i - 1) else InFence(space, lines, i - 1)
  }

  /** Fence lines before line `i`. */
  function Fences(space: char -> bool, lines: seq<string>, i: nat): nat
    requires i <= |lines|
  {
    if i == 0 then 0 else Fences(space, lines, i - 1) + if IsFence(space, lines[i-1]) then 1 else 0
  }

  /** Fences open and close in turn. */
  lemma {:induction false} FencesAlternate(space: char -> bool, lines: seq<string>, i: nat)
    requires i <= |lines|
    ensures InFence(space, lines, i) <==> Fences(space, lines, i) % 2 == 1
  {
    if i > 0 { FencesAlternate(space, lines, i - 1); }
  }

  /** Stripping takes white space off both ends, and all of it. */
  lemma StripIs(space: char -> bool, s: string) returns (left: string, right: string)
    ensures s == left + Strip(space, s) + right
    ensures (forall c :: c in left ==> space(c)) && forall c :: c in right ==> space(c)
    ensures Strip(space, s) != [] ==>
              !space(Strip(space, s)[0]) && !space(Strip(space, s)[|Strip(space, s)| - 1])
  {
    left := StripLeftIs(space, s);
    right := StripRightIs(space, StripLeft(space, s));
  }

  lemma {:induction false} StripLeftIs(space: char -> bool, s: string) returns (left: string)
    ensures s == left + StripLeft(space, s) && forall c :: c in left ==> space(c)
    ensures StripLeft(space, s) != [] ==> !space(StripLeft(space, s)[0])
  {
    if s != [] && space(s[0]) {
      left := StripLeftIs(space, s[1..]);
      left := [s[0]] + left;
    } else {
      left := [];
    }
  }

  lemma {:induction false} StripRightIs(space: char -> bool, s: string) returns (right: string)
    ensures s == StripRight(space, s) + right && forall c :: c in right ==> space(c)
    ensures StripRight(space, s) != [] ==>
              StripRight(space, s)[0] == s[0] && !space(StripRight(space, s)[|StripRight(space, s)| - 1])
  {
    if s != [] && space(s[|s|-1]) {
      right := StripRightIs(space, s[..|s|-1]);
      right := right + [s[|s|-1]];
    } else {
      right := [];
    }
  }

  /** A line is a fence exactly if its first three characters after white space are backticks. */
  lemma FenceIsThreeTicks(space: char -> bool, line: string) returns (left: string, rest: string)
    ensures line == left + rest && (forall c :: c in left ==> space(c)) && (rest != [] ==> !space(rest[0]))
    ensures !space('`') ==> (IsFence(space, line) <==> |rest| >= 3 && rest[0] == rest[1] == rest[2] == '`')
  {
    left := StripLeftIs(space, line);
    rest := StripLeft(space, line);
    var right := StripRightIs(space, rest);
    assert rest == Strip(space, line) + right && forall i :: 0 <= i < |right| ==> space(right[i]);
  }

  /** Backticks since the last reset, at the start of line `i`: fences and blank lines reset. */
  function TicksBefore(space: char -> bool, lines: seq<string>, i: nat): nat
    requires i <= |lines|
  {
    if i == 0 || IsFence(space, lines[i-1]) || IsBlank(space, lines[i-1]) || InFence(space, lines, i - 1) then 0
    else TicksBefore(space, lines, i - 1) + Ticks(lines[i-1])
  }

  function ProseOfLine(space: char -> bool, lines: seq<string>, i: nat): string
    requires i < |lines|
  {
    Prose(lines[i], if IsBlank(space, lines[i]) then 0 else TicksBefore(space, lines, i))
  }

  // ----- Splitting at backticks computes the rule -----

  /** The first `n` segments, each followed by the backtick that ends it. */
  function Closed(segs: seq<string>, n: nat): string
    requires n <= |segs|
  {
    if n == 0 then [] else Closed(segs, n - 1) + segs[n-1] + [TICK]
  }

  lemma {:induction false} ClosedShift(segs: seq<string>, head: string, n: nat)
    requires n <= |segs|
    ensures Closed([head] + segs, n + 1) == head + [TICK] + Closed(segs, n)
  {
    if n > 0 {
      ClosedShift(segs, head, n - 1);
      assert ([head] + segs)[n] == segs[n-1];
    }
  }

  lemma {:induction false} ClosedPrefix(segs: seq<string>, c: char, n: nat)
    requires 0 < n <= |segs|
    ensures Closed([[c] + segs[0]] + segs[1..], n) == [c] + Closed(segs, n)
  {
    var more := [[c] + segs[0]] + segs[1..];
    if n > 1 {
      ClosedPrefix(segs, c, n - 1);
      assert more[n-1] == segs[n-1];
    }
  }

  lemma {:induction false} SplitCovers(s: string)
    ensures s == Closed(Split(s), |Split(s)| - 1) + Split(s)[|Split(s)|-1]
  {
    if s != [] {
      var rest := Split(s[1..]);
      SplitCovers(s[1..]);
      if s[0] == TICK {
        ClosedShift(rest, [], |rest| - 1);
      } else if |rest| > 1 {
        ClosedPrefix(rest, s[0], |rest| - 1);
      }
    }
  }

  lemma {:induction false} TicksAppend(a: string, b: string)
    ensures Ticks(a + b) == Ticks(a) + Ticks(b)
    decreases |b|
  {
    if b == [] {
      assert a + b == a;
    } else {
      assert (a + b)[..|a + b|-1] == a + b[..|b|-1];
      TicksAppend(a, b[..|b|-1]);
    }
  }

  lemma {:induction false} NoTicks(s: string)
    requires TICK !in s
    ensures Ticks(s) == 0
  {
    if s != [] { NoTicks(s[..|s|-1]); }
  }

  lemma {:induction false} ProseAppend(a: string, seg: string, before: nat)
    requires TICK !in seg
    ensures Prose(a + seg, before) == Prose(a, before) + (if Odd(before + Ticks(a)) then [] else seg)
    decreases |seg|
  {
    if seg == [] {
      assert a + seg == a;
    } else {
      var front, last := seg[..|seg|-1], seg[|seg|-1];
      var whole := a + seg;
      assert whole[..|whole|-1] == a + front && whole[|whole|-1] == last;
      ProseAppend(a, front, before);
      NoTicks(front);
      TicksAppend(a, front);
      assert seg == front + [last];
    }
  }

  lemma ProseTick(a: string, before: nat)
    ensures Prose(a + [TICK], before) == Prose(a, before) && Ticks(a + [TICK]) == Ticks(a) + 1
  {
    assert (a + [TICK])[..|a|] == a;
  }

  /** The text covered after `i` rounds of the segment loop. */
  function Covered(line: string, i: nat): string
    requires i <= |Split(line)|
  {
    if i < |Split(line)| then Closed(Split(line), i) else line
  }

  lemma CoveredNext(line: string, i: nat)
    requires i < |Split(line)|
    ensures Covered(line, i + 1) == Covered(line, i) + Split(line)[i] + (if i < |Split(line)| - 1 then [TICK] else [])
  {
    SplitCovers(line);
  }

  /** Round `i` of the segment loop adds segment `i` to the prose, unless it is inline code. */
  lemma SegmentProse(line: string, i: nat, before: nat)
    requires i < |Split(line)|
    ensures Prose(Covered(line, i + 1), before) ==
            Prose(Covered(line, i), before) + (if Odd(before + Ticks(Covered(line, i))) then [] else Split(line)[i])
  {
    CoveredNext(line, i);
    var done, seg := Covered(line, i), Split(line)[i];
    ProseAppend(done, seg, before);
    ProseTick(done + seg, before);
    assert done + seg + [] == done + seg;
  }

  lemma TicksCovered(line: string, i: nat)
    requires i < |Split(line)|
    ensures Ticks(Covered(line, i + 1)) == Ticks(Covered(line, i)) + if i < |Split(line)| - 1 then 1 else 0
  {
    CoveredNext(line, i);
    var done, seg := Covered(line, i), Split(line)[i];
    NoTicks(seg);
    TicksAppend(done, seg);
    TicksAppend(done + seg, [TICK]);
    assert done + seg + [] == done + seg;
  }

  /** The segment loop: keep segments while outside inline code, toggle between segments. */
  method StripInline(line: string, inInline0: bool, ghost before: nat) returns (prose: string, inInline: bool)
    requires inInline0 <==> Odd(before)
    ensures prose == Prose(line, before)
    ensures inInline <==> Odd(before + Ticks(line))
  {
    var segs := Split(line);
    prose, inInline := [], inInline0;
    ghost var ticks := before;
    for i := 0 to |segs|
      invariant prose == Prose(Covered(line, i), before)
      invariant ticks == before + Ticks(Covered(line, i))
      invariant inInline <==> Odd(ticks)
    {
      SegmentProse(line, i, before);
      TicksCovered(line, i);
      assert segs[i] == Split(line)[i];
      if !inInline { prose := prose + segs[i]; }
      if i < |segs| - 1 { inInline, ticks := !inInline, ticks + 1; }
    }
  }

  // ----- Blank lines -----

  lemma {:induction false} StripRightEmpty(space: char -> bool, s: string)
    requires StripRight(space, s) == []
    ensures forall c :: c in s ==> space(c)
  {
    if s != [] {
      StripRightEmpty(space, s[..|s|-1]);
      assert s == s[..|s|-1] + [s[|s|-1]];
    }
  }

  lemma {:induction false} BlankIsAllSpace(space: char -> bool, s: string)
    requires IsBlank(space, s)
    ensures forall c :: c in s ==> space(c)
  {
    if s != [] && space(s[0]) {
      BlankIsAllSpace(space, s[1..]);
      assert s == [s[0]] + s[1..];
    } else {
      StripRightEmpty(space, s);
    }
  }

  // ----- The scanner in check_redlines -----

  /** The prose of a line that is searched for placeholders; nothing on fence lines and inside fences. */
  function RedlineLine(space: char -> bool, lines: seq<string>, i: nat): Option<string>
    requires i < |lines|
  {
    if IsFence(space, lines[i]) || InFence(space, lines, i) then None else Some(ProseOfLine(space, lines, i))
  }

  method RedlineProse(space: char -> bool, lines: seq<string>) returns (out: seq<Option<string>>)
    requires !space(TICK)
    ensures |out| == |lines| && forall i :: 0 <= i < |lines| ==> out[i] == RedlineLine(space, lines, i)
  {
    out := [];
    var inFence, inInline := false, false;
    for i := 0 to |lines|
      invariant |out| == i && (inFence <==> InFence(space, lines, i))
      invariant inInline <==> Odd(TicksBefore(space, lines, i))
      invariant forall k :: 0 <= k < i ==> out[k] == RedlineLine(space, lines, k)
    {
      var line := lines[i];
      var stripped := Strip(space, line);
      var shown: Option<string> := None;
      if FENCE <= stripped {
        inFence, inInline := !inFence, false;
      } else if inFence {
        InsideFence(space, lines, i);
      } else {
        if stripped == [] {
          inInline := false;
          BlankIsAllSpace(space, line);
          NoTicks(line);
        }
        var prose;
        prose, inInline := StripInline(line, inInline, if stripped == [] then 0 else TicksBefore(space, lines, i));
        shown := Some(prose);
      }
      out := out + [shown];
    }
  }

  /** Nothing is counted inside a fence. */
  lemma {:induction false} InsideFence(space: char -> bool, lines: seq<string>, i: nat)
    requires i < |lines| && InFence(space, lines, i)
    ensures TicksBefore(space, lines, i) == 0 && TicksBefore(space, lines, i + 1) == 0
  {
  }

  // ----- The scanner in check_links -----

  /** Fence lines produce no output line, so line `i` lands at this index. */
  function LinkIndex(space: char -> bool, lines: seq<string>, i: nat): nat
    requires i <= |lines|
  {
    if i == 0 then 0 else LinkIndex(space, lines, i - 1) + if IsFence(space, lines[i-1]) then 0 else 1
  }

  /** The text of a line that is searched for links. */
  function LinkLine(space: char -> bool, lines: seq<string>, i: nat): string
    requires i < |lines|
  {
    if InFence(space, lines, i) || IsBlank(space, lines[i]) then [] else ProseOfLine(space, lines, i)
  }

  function LinkOutput(space: char -> bool, lines: seq<string>, i: nat): seq<string>
    requires i <= |lines|
  {
    if i == 0 then []
    else LinkOutput(space, lines, i - 1) + if IsFence(space, lines[i-1]) then [] else [LinkLine(space, lines, i - 1)]
  }

  lemma {:induction false} LinkOutputLength(space: char -> bool, lines: seq<string>, n: nat)
    requires n <= |lines|
    ensures |LinkOutput(space, lines, n)| == LinkIndex(space, lines, n)
  {
    if n > 0 { LinkOutputLength(space, lines, n - 1); }
  }

  lemma {:induction false} LinkOutputAt(space: char -> bool, lines: seq<string>, n: nat, i: nat)
    requires i < n <= |lines| && !IsFence(space, lines[i])
    ensures LinkIndex(space, lines, i) < |LinkOutput(space, lines, n)|
    ensures LinkOutput(space, lines, n)[LinkIndex(space, lines, i)] == LinkLine(space, lines, i)
    decreases n
  {
    LinkOutputLength(space, lines, n - 1);
    if i < n - 1 { LinkOutputAt(space, lines, n - 1, i); }
  }

  method LinkText(space: char -> bool, lines: seq<string>) returns (out: seq<string>)
    ensures |out| == LinkIndex(space, lines, |lines|)
    ensures forall i :: 0 <= i < |lines| && !IsFence(space, lines[i]) ==>
              LinkIndex(space, lines, i) < |out| && out[LinkIndex(space, lines, i)] == LinkLine(space, lines, i)
  {
    out := [];
    var inFence, inInline := false, false;
    for i := 0 to |lines|
      invariant out == LinkOutput(space, lines, i) && (inFence <==> InFence(space, lines, i))
      invariant inInline <==> Odd(TicksBefore(space, lines, i))
    {
      var line := lines[i];
      if FENCE <= Strip(space, line) {
        inFence, inInline := !inFence, false;
      } else if inFence || IsBlank(space, line) {
        if inFence { InsideFence(space, lines, i); }
        inInline := if IsBlank(space, line) then false else inInline;
        out := out + [[]];
      } else {
        var prose;
        prose, inInline := StripInline(line, inInline, TicksBefore(space, lines, i));
        out := out + [prose];
      }
    }
    LinkOutputLength(space, lines, |lines|);
    forall i | 0 <= i < |lines| && !IsFence(space, lines[i])
      ensures LinkIndex(space, lines, i) < |out| && out[LinkIndex(space, lines, i)] == LinkLine(space, lines, i)
    {
      LinkOutputAt(space, lines, |lines|, i);
    }
  }

  // ----- Agreement -----

  /** On every non-blank line outside fences the two scanners see the same text: the prose characters. */
  method ScannersAgree(space: char -> bool, lines: seq<string>)
    returns (redlines: seq<Option<string>>, links: seq<string>)
    requires !space(TICK)
    ensures |redlines| == |lines|
    ensures forall i :: 0 <= i < |lines| && !IsFence(space, lines[i]) ==> LinkIndex(space, lines, i) < |links|
    ensures forall i :: 0 <= i < |lines| && !IsFence(space, lines[i]) && !InFence(space, lines, i)
                        && !IsBlank(space, lines[i]) ==>
              && redlines[i] == Some(Prose(lines[i], TicksBefore(space, lines, i)))
              && redlines[i] == Some(links[LinkIndex(space, lines, i)])
    ensures forall i :: 0 <= i < |lines| && !IsFence(space, lines[i]) && InFence(space, lines, i) ==>
              redlines[i] == None && links[LinkIndex(space, lines, i)] == []
    ensures forall i :: 0 <= i < |lines| && IsBlank(space, lines[i]) && !IsFence(space, lines[i])
                        && !InFence(space, lines, i) ==>
              redlines[i] == Some(Prose(lines[i], 0)) && links[LinkIndex(space, lines, i)] == []
    ensures forall i :: 0 <= i < |lines| && IsFence(space, lines[i]) ==> redlines[i] == None
  {
    redlines := RedlineProse(space, lines);
    links := LinkText(space, lines);
  }

  /** What prose is, position by position: a character is kept exactly when it satisfies the rule. */
  lemma {:induction false} ProseKeepsExactly(line: string, before: nat)
    ensures |Prose(line, before)| == |Positions(line, before)|
    ensures forall n :: 0 <= n < |Positions(line, before)| ==>
              Positions(line, before)[n] < |line| && Prose(line, before)[n] == line[Positions(line, before)[n]]
  {
    if line != [] {
      var front := line[..|line|-1];
      ProseKeepsExactly(front, before);
    }
  }

  /** The positions of the prose characters, in order. */
  function Positions(line: string, before: nat): seq<nat> {
    if line == [] then []
    else Positions(line[..|line|-1], before) + if IsProse(line, before, |line| - 1) then [|line| - 1] else []
  }
}
