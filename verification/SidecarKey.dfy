/**
 Names of the `.part` and `.lock` sidecars (`_sidecar_key_for`, fusion_mlx/_mirror.py) and exactly when
 two repository files share them.  A path is the string of its UTF-8 bytes.
 */
module SidecarKey {

  type Octet = c: char | c as int < 256

  type Path = seq<Octet>

  /** Bytes that percent-encoding leaves alone when nothing is declared safe. */
  predicate Unreserved(c: char) {
    'a' <= c <= 'z' || 'A' <= c <= 'Z' || '0' <= c <= '9' || c == '_' || c == '.' || c == '-' || c == '~'
  }

  function Hex(n: int): char
    requires 0 <= n < 16
  {
    "0123456789ABCDEF"[n]
  }

  function QuoteOne(c: Octet): string {
    if Unreserved(c) then [c] else ['%', Hex(c as int / 16), Hex(c as int % 16)]
  }

  function Quote(p: Path): string {
    if p == [] then [] else QuoteOne(p[0]) + Quote(p[1..])
  }

  /** What `Quote` wrote: an escape stands for the byte of its two digits, anything else for itself. */
  function Unquote(s: string): string {
    if s == [] then []
    else if s[0] == '%' && |s| >= 3 then
      [(16 * DigitOf(s[1]) + DigitOf(s[2])) as char] + Unquote(s[3..])
    else [s[0]] + Unquote(s[1..])
  }

  function DigitOf(c: char): (n: int)
    ensures 0 <= n < 16
  {
    if '0' <= c <= '9' then c as int - '0' as int else if 'A' <= c <= 'F' then c as int - 'A' as int + 10 else 0
  }

  /** Percent-encoding (section 2.1 of RFC 3986) is undone by decoding. */
  lemma {:induction false} QuoteIsUndone(p: Path)
    ensures Unquote(Quote(p)) == p
  {
    if p != [] {
      var c, rest := p[0], Quote(p[1..]);
      QuoteIsUndone(p[1..]);
      assert p == [c] + p[1..];
      if Unreserved(c) {
        assert Quote(p)[1..] == rest;
      } else {
        assert Quote(p)[3..] == rest;
        DigitOfHex(c as int / 16);
        DigitOfHex(c as int % 16);
      }
    }
  }

  lemma DigitOfHex(n: int)
    requires 0 <= n < 16
    ensures DigitOf(Hex(n)) == n && PlainByte(Hex(n) as int)
  {
  }

  /** Letters, digits, hyphen, full stop, underscore and tilde, by their codes. */
  predicate PlainByte(n: int) {
    48 <= n <= 57 || 65 <= n <= 90 || 97 <= n <= 122 || n == 45 || n == 46 || n == 95 || n == 126
  }

  /** It leaves a path alone exactly when all its bytes are unreserved, and writes nothing but those and escapes. */
  lemma {:induction false} QuoteKeepsUnreserved(p: Path)
    ensures Quote(p) == p <==> forall c :: c in p ==> PlainByte(c as int)
    ensures forall c :: c in Quote(p) ==> c == '%' || PlainByte(c as int)
    ensures |Quote(p)| >= |p|
  {
    if p != [] {
      var c, rest := p[0], Quote(p[1..]);
      QuoteKeepsUnreserved(p[1..]);
      assert p == [c] + p[1..] && forall x :: x in p <==> x == c || x in p[1..];
      if Unreserved(c) {
        assert Quote(p) == [c] + rest && Quote(p)[1..] == rest;
      } else {
        DigitOfHex(c as int / 16);
        DigitOfHex(c as int % 16);
        assert |Quote(p)| == 3 + |rest| && c in p;
      }
    }
  }

  /** `str.replace`: leftmost, non-overlapping. */
  function Replace(s: string, pat: string, rep: string): string
    requires pat != []
    decreases |s|
  {
    if s == [] then []
    else if pat <= s then rep + Replace(s[|pat|..], pat, rep)
    else [s[0]] + Replace(s[1..], pat, rep)
  }

  function Key(p: Path): string {
    Replace(Replace(Replace(Quote(p), "/", "__"), "%2F", "__"), "%2f", "__")
  }

  /** What the key does to a path: directory separators become double underscores. */
  function Flatten(p: Path): Path {
    if p == [] then [] else (if p[0] == '/' then ['_', '_'] else [p[0]]) + Flatten(p[1..])
  }

  lemma HexInjective(m: int, n: int)
    requires 0 <= m < 16 && 0 <= n < 16
    ensures Hex(m) == Hex(n) <==> m == n
    ensures Hex(m) != '%' && Hex(m) != '/' && Hex(m) != 'f'
    ensures Hex(m) == '2' <==> m == 2
    ensures Hex(m) == 'F' <==> m == 15
  {
  }

  lemma {:induction false} NoSlash(p: Path)
    ensures Replace(Quote(p), "/", "__") == Quote(p)
  {
    if p != [] {
      NoSlash(p[1..]);
      SkipEncoded(p[0], Quote(p[1..]), "/");
    }
  }

  lemma {:induction false} NoLowerCase(p: Path)
    ensures Replace(Quote(p), "%2f", "__") == Quote(p)
  {
    if p != [] {
      NoLowerCase(p[1..]);
      SkipEncoded(p[0], Quote(p[1..]), "%2f");
    }
  }

  /** Scanning passes over an encoded byte that is not the pattern. */
  lemma SkipEncoded(c: Octet, rest: string, pat: string)
    requires pat == "/" || pat == "%2f" || (pat == "%2F" && c != '/')
    ensures Replace(QuoteOne(c) + rest, pat, "__") == QuoteOne(c) + Replace(rest, pat, "__")
  {
    var s := QuoteOne(c) + rest;
    if Unreserved(c) {
      assert s[1..] == rest;
    } else {
      var h, l := Hex(c as int / 16), Hex(c as int % 16);
      HexInjective(c as int / 16, c as int % 16);
      HexInjective(c as int % 16, c as int % 16);
      assert s == ['%', h, l] + rest && s[1..] == [h, l] + rest;
      assert s[1..][1..] == [l] + rest && s[1..][1..][1..] == rest;
      assert pat == "%2F" || pat == "%2f" ==> !(pat <= s) by {
        assert s[0] == '%' && s[1] == h && s[2] == l;
      }
      assert !(pat <= s[1..]) && !(pat <= s[1..][1..]);
      var tail := Replace(rest, pat, "__");
      assert Replace(s[1..][1..], pat, "__") == [l] + tail;
      assert Replace(s[1..], pat, "__") == [h] + ([l] + tail);
      assert Replace(s, pat, "__") == ['%'] + ([h] + ([l] + tail));
    }
  }

  /** The key is the percent-encoding of the flattened path. */
  lemma {:induction false} KeyIsQuotedFlatten(p: Path)
    ensures Key(p) == Quote(Flatten(p))
  {
    NoSlash(p);
    SlashesBecomeUnderscores(p);
    NoLowerCase(Flatten(p));
  }

  lemma {:induction false} SlashesBecomeUnderscores(p: Path)
    ensures Replace(Quote(p), "%2F", "__") == Quote(Flatten(p))
  {
    if p != [] {
      var rest := Quote(p[1..]);
      SlashesBecomeUnderscores(p[1..]);
      if p[0] == '/' {
        assert Quote(p) == "%2F" + rest && ("%2F" + rest)[3..] == rest;
        QuoteTwoUnderscores(Flatten(p[1..]));
      } else {
        SkipEncoded(p[0], rest, "%2F");
        assert Flatten(p)[1..] == Flatten(p[1..]);
      }
    }
  }

  /** A key is one file name: it contains no directory separator. */
  lemma {:induction false} KeyIsOneName(p: Path)
    ensures '/' !in Key(p)
  {
    KeyIsQuotedFlatten(p);
    QuoteKeepsUnreserved(Flatten(p));
  }

  lemma QuoteTwoUnderscores(q: Path)
    ensures Quote(['_', '_'] + q) == "__" + Quote(q)
  {
    var p: Path := ['_', '_'] + q;
    assert p[1..] == ['_'] + q && p[1..][1..] == q;
    assert Quote(p) == ['_'] + (['_'] + Quote(q));
  }

  lemma {:induction false} QuoteInjective(p: Path, q: Path)
    requires Quote(p) == Quote(q)
    ensures p == q
  {
    if p != [] && q != [] {
      assert Quote(p)[0] == QuoteOne(p[0])[0] && Quote(q)[0] == QuoteOne(q[0])[0];
      assert Unreserved(p[0]) <==> Unreserved(q[0]);
      var k := |QuoteOne(p[0])|;
      assert QuoteOne(p[0]) == Quote(p)[..k] == Quote(q)[..k] == QuoteOne(q[0]);
      assert Quote(p[1..]) == Quote(p)[k..] == Quote(q)[k..] == Quote(q[1..]);
      SameByte(p[0], q[0]);
      QuoteInjective(p[1..], q[1..]);
      assert p == [p[0]] + p[1..] && q == [q[0]] + q[1..];
    }
  }

  lemma SameByte(c: Octet, d: Octet)
    requires QuoteOne(c) == QuoteOne(d)
    ensures c == d
  {
    if !Unreserved(c) {
      assert QuoteOne(c)[1] == QuoteOne(d)[1] && QuoteOne(c)[2] == QuoteOne(d)[2];
      HexInjective(c as int / 16, d as int / 16);
      HexInjective(c as int % 16, d as int % 16);
    }
  }

  /** Two files share a sidecar exactly when their paths flatten to the same string. */
  lemma SharedSidecar(p: Path, q: Path)
    ensures Key(p) == Key(q) <==> Flatten(p) == Flatten(q)
  {
    KeyIsQuotedFlatten(p);
    KeyIsQuotedFlatten(q);
    if Key(p) == Key(q) { QuoteInjective(Flatten(p), Flatten(q)); }
  }

  /** Keys are not unique: `a/b` and `a__b` are different files with one sidecar. */
  lemma KeysCollide()
    ensures exists p: Path, q: Path :: p != q && Key(p) == Key(q)
  {
    var p: Path, q: Path := "a/b", "a__b";
    assert p[1..] == "/b" && p[1..][1..] == "b" && p[1..][1..][1..] == [];
    assert q[1..] == "__b" && q[1..][1..] == "_b" && q[1..][1..][1..] == "b" && q[1..][1..][1..][1..] == [];
    assert Flatten(p) == "a__b" == Flatten(q);
    SharedSidecar(p, q);
  }

  /** Files whose paths contain no underscore never share a sidecar. */
  lemma {:induction false} DistinctWithoutUnderscores(p: Path, q: Path)
    requires '_' !in p && '_' !in q
    ensures Key(p) == Key(q) <==> p == q
  {
    SharedSidecar(p, q);
    if Flatten(p) == Flatten(q) { FlattenInjective(p, q); }
  }

  lemma {:induction false} FlattenInjective(p: Path, q: Path)
    requires '_' !in p && '_' !in q && Flatten(p) == Flatten(q)
    ensures p == q
  {
    if p != [] && q != [] {
      assert Flatten(p)[0] == Flatten(q)[0];
      var k := if p[0] == '/' then 2 else 1;
      assert Flatten(p)[k..] == Flatten(p[1..]) && Flatten(q)[k..] == Flatten(q[1..]);
      FlattenInjective(p[1..], q[1..]);
      assert p == [p[0]] + p[1..] && q == [q[0]] + q[1..];
    }
  }
}
