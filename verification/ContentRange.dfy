/**
 The `Content-Range` response header (section 14.4 of RFC 9110) as `_parse_content_range` reads it
 (fusion_mlx/_mirror.py).  Integer parsing is a parameter.
 */
module ContentRange {
  import opened Common

  datatype Range = Range(first: int, last: int, total: Option<int>)

  const UNIT := "bytes "

  /** Python's `str.partition` on one character: before, and what follows when the character occurs. */
  function Partition(s: string, c: char): (r: (string, Option<string>))
    ensures r.1.Some? <==> c in s
    ensures c !in r.0
    ensures s == r.0 + (if r.1.Some? then [c] + r.1.value else [])
  {
    if s == [] then ([], None)
    else if s[0] == c then ([], Some(s[1..]))
    else
      var (head, tail) := Partition(s[1..], c);
      ([s[0]] + head, tail)
  }

  function Parse(parseInt: string -> Option<int>, cr: string): Option<Range> {
    if !(UNIT <= cr) then None else
    var (rangePart, totalPart) := Partition(cr[|UNIT|..], '/');
    if totalPart.None? then None else
    var (firstStr, lastStr) := Partition(rangePart, '-');
    if lastStr.None? then None else
    var first, last := parseInt(firstStr), parseInt(lastStr.value);
    if first.None? || last.None? then None
    else if first.value < 0 || last.value < first.value then None
    else if totalPart.value == "*" then Some(Range(first.value, last.value, None))
    else
      var total := parseInt(totalPart.value);
      if total.None? || total.value < 0 then None else Some(Range(first.value, last.value, total))
  }

  /** `cr` is written `bytes x-y/z`, with `x` free of dashes and `x-y` free of slashes. */
  ghost predicate Spelled(cr: string, x: string, y: string, z: string) {
    UNIT <= cr && cr[|UNIT|..] == x + "-" + y + "/" + z && '-' !in x && '/' !in x && '/' !in y
  }

  /** What the three numbers must be for the header to be accepted as `r`. */
  predicate Denotes(parseInt: string -> Option<int>, x: string, y: string, z: string, r: Range) {
    && parseInt(x) == Some(r.first) && parseInt(y) == Some(r.last) && 0 <= r.first <= r.last
    && (if z == "*" then r.total == None else r.total.Some? && r.total.value >= 0 && parseInt(z) == r.total)
  }

  lemma {:induction false} PartitionAt(s: string, x: string, c: char, y: string)
    requires c !in x && s == x + [c] + y
    ensures Partition(s, c) == (x, Some(y))
    decreases |x|
  {
    if x == [] {
      assert s[1..] == y;
    } else {
      assert s[1..] == x[1..] + [c] + y;
      assert s[0] == x[0] && x[0] in x;
      PartitionAt(s[1..], x[1..], c, y);
      assert x == [x[0]] + x[1..];
    }
  }

  lemma SpelledParts(cr: string, x: string, y: string, z: string)
    requires Spelled(cr, x, y, z)
    ensures UNIT <= cr && Partition(cr[|UNIT|..], '/') == (x + "-" + y, Some(z))
    ensures Partition(x + "-" + y, '-') == (x, Some(y))
  {
    assert cr[|UNIT|..] == (x + "-" + y) + ['/'] + z;
    PartitionAt(cr[|UNIT|..], x + "-" + y, '/', z);
    PartitionAt(x + "-" + y, x, '-', y);
  }

  lemma PartsAreSpelled(cr: string)
    requires UNIT <= cr && Partition(cr[|UNIT|..], '/').1.Some?
    requires Partition(Partition(cr[|UNIT|..], '/').0, '-').1.Some?
    ensures var (range, tail) := Partition(cr[|UNIT|..], '/');
            var (first, last) := Partition(range, '-');
            Spelled(cr, first, last.value, tail.value)
  {
    var (range, tail) := Partition(cr[|UNIT|..], '/');
    var (first, last) := Partition(range, '-');
    Regroup(first, "-", last.value);
    Regroup(range, "/", tail.value);
    NotInParts(first + "-", last.value, '/');
    NotInParts(first, "-", '/');
  }

  lemma Regroup(a: string, b: string, c: string)
    ensures a + (b + c) == a + b + c
  {
  }

  lemma NotInParts(a: string, b: string, c: char)
    ensures c in a + b <==> c in a || c in b
  {
  }

  lemma AcceptedIsSpelled(parseInt: string -> Option<int>, cr: string, r: Range)
    returns (x: string, y: string, z: string)
    requires Parse(parseInt, cr) == Some(r)
    ensures Spelled(cr, x, y, z) && Denotes(parseInt, x, y, z, r)
  {
    PartsAreSpelled(cr);
    var (range, tail) := Partition(cr[|UNIT|..], '/');
    var (first, last) := Partition(range, '-');
    x, y, z := first, last.value, tail.value;
  }

  /** The parser accepts exactly the headers of the grammar, with the numbers they spell. */
  lemma ParsesTheGrammar(parseInt: string -> Option<int>, cr: string, r: Range)
    ensures Parse(parseInt, cr) == Some(r) <==> exists x, y, z :: Spelled(cr, x, y, z) && Denotes(parseInt, x, y, z, r)
  {
    if Parse(parseInt, cr) == Some(r) {
      var x, y, z := AcceptedIsSpelled(parseInt, cr, r);
    }
    forall x, y, z | Spelled(cr, x, y, z) && Denotes(parseInt, x, y, z, r)
      ensures Parse(parseInt, cr) == Some(r)
    {
      SpelledParts(cr, x, y, z);
    }
  }

  /** A header written by a conforming server is read back as sent. */
  lemma RoundTrip(parseInt: string -> Option<int>, show: nat -> string, first: nat, last: nat, total: nat)
    requires forall n: nat :: parseInt(show(n)) == Some(n) && '-' !in show(n) && '/' !in show(n) && show(n) != "*"
    requires first <= last
    ensures Parse(parseInt, "bytes " + (show(first) + "-" + show(last) + "/" + show(total)))
            == Some(Range(first, last, Some(total)))
    ensures Parse(parseInt, "bytes " + (show(first) + "-" + show(last) + "/" + "*")) == Some(Range(first, last, None))
  {
    HeaderReads(parseInt, show(first), show(last), show(total), Range(first, last, Some(total)));
    HeaderReads(parseInt, show(first), show(last), "*", Range(first, last, None));
  }

  lemma HeaderReads(parseInt: string -> Option<int>, x: string, y: string, z: string, r: Range)
    requires '-' !in x && '/' !in x && '/' !in y && Denotes(parseInt, x, y, z, r)
    ensures Parse(parseInt, UNIT + (x + "-" + y + "/" + z)) == Some(r)
  {
    var body := x + "-" + y + "/" + z;
    assert (UNIT + body)[|UNIT|..] == body;
    SpelledParts(UNIT + body, x, y, z);
  }
}
