/** Types shared by the models of several components. */
module Common {

  datatype Option<+T> = None | Some(value: T)

  type Byte = b: int | 0 <= b < 256

  type Bytes = seq<Byte>

  /** A SHA-256 digest, written as the hexadecimal string the cache uses for file names. */
  type Digest = string

  function Joined(pieces: seq<Bytes>): Bytes {
    if pieces == [] then [] else pieces[0] + Joined(pieces[1..])
  }

  function Max(x: int, y: int): int { if x >= y then x else y }

  /** The last element of `s` occurs in any permutation `t` of `s`; without it the rests are permutations. */
  lemma LastElsewhere<T>(s: seq<T>, t: seq<T>) returns (j: nat)
    requires s != [] && multiset(s) == multiset(t)
    ensures j < |t| && t[j] == s[|s|-1]
    ensures multiset(s[..|s|-1]) == multiset(t[..j] + t[j + 1..])
  {
    var last := s[|s|-1];
    assert last in multiset(t);
    j :| 0 <= j < |t| && t[j] == last;
    WithoutOne(s, |s| - 1);
    WithoutOne(t, j);
    assert s[..|s|-1] + s[|s|..] == s[..|s|-1];
  }

  lemma WithoutOne<T>(s: seq<T>, j: nat)
    requires j < |s|
    ensures multiset(s[..j] + s[j + 1..]) == multiset(s) - multiset{s[j]}
  {
    assert s == s[..j] + [s[j]] + s[j + 1..];
  }
}
