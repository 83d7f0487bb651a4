/** The byte strings, the record size and the C-string reading that the archive code shares. */
module Bytes {

  type byte = x: int | 0 <= x < 256

  /** A byte string. Where C would end it with a NUL the terminator is left out. */
  type Str = seq<byte>

  datatype Option<+T> = None | Some(value: T)

  const RECORDSIZE := 512
  const NAMSIZ := 100
  const PATH_MAX := 1024
  const MAX_PATH_NAME := 1088 // PATH_MAX plus TLM_EXTRA_SPACE

  const SLASH: byte := 47
  const DOT: byte := 46
  const BLANK: byte := 32

  predicate NulFree(s: Str) {
    forall i :: 0 <= i < |s| ==> s[i] != 0
  }

  predicate IsAscii(s: string) {
    forall i :: 0 <= i < |s| ==> (s[i] as int) < 256
  }

  function Ascii(s: string): (r: Str)
    requires IsAscii(s)
    ensures |r| == |s|
  {
    seq(|s|, i requires 0 <= i < |s| => s[i] as int)
  }

  function Min(a: int, b: int): int {
    if a <= b then a else b
  }

  function Cut(s: Str, n: nat): (r: Str)
    ensures |r| == Min(|s|, n) && r <= s
  {
    if |s| <= n then s else s[..n]
  }

  /** A number of whole records. */
  predicate Whole(n: int) {
    n % 512 == 0
  }

  /** A length rounded up to whole records, as both buffer calls do with their mask. */
  function Round(n: nat): (r: nat)
    ensures Whole(r) && n <= r < n + 512
    ensures Whole(n) ==> r == n
  {
    (n + 511) / 512 * 512
  }

  /** The size of the next piece: the wanted length in whole records, or what room is left. */
  function Piece(want: nat, room: nat): (n: nat)
    requires 0 < want && 0 < room && Whole(room)
    ensures Whole(n) && 512 <= n <= room && n == Min(Round(want), room)
  {
    Min(Round(want), room)
  }

  lemma WholeArith(a: nat, b: nat)
    requires Whole(a) && Whole(b)
    ensures Whole(a + b) && Whole(a - b)
  {
    var m, n := a / 512, b / 512;
    assert a == 512 * m && b == 512 * n;
    assert a + b == 512 * (m + n) && a - b == 512 * (m - n);
  }

  /** Taking whole records off the front of a payload leaves the rest to be rounded on its own. */
  lemma RoundAdvance(done: nat, n: nat)
    requires Whole(done) && done <= n
    ensures Round(n) == done + Round(n - done)
  {
  }

  /** A piece of at most the rounded length is exactly what its useful bytes round up to. */
  lemma PieceRounds(want: nat, piece: nat)
    requires Whole(piece) && piece <= Round(want)
    ensures Round(Min(piece, want)) == piece
  {
  }

  lemma TailSlice<T>(s: seq<T>, a: nat, i: nat, j: nat)
    requires i <= j && a + j <= |s|
    ensures s[a + i..a + j] == s[a..][i..j]
  {
  }

  lemma HeadSlice<T>(s: seq<T>, a: nat, i: nat, j: nat)
    requires i <= j <= a <= |s|
    ensures s[i..j] == s[..a][i..j]
  {
  }

  function Repeat(c: byte, n: nat): (r: Str)
    ensures |r| == n && forall i :: 0 <= i < n ==> r[i] == c
  {
    seq(n, _ => c)
  }

  /** The bytes before the first NUL. */
  function CStr(s: seq<byte>): (r: Str)
    ensures |r| <= |s| && r == s[..|r|] && NulFree(r)
    ensures |r| < |s| ==> s[|r|] == 0
  {
    if s == [] || s[0] == 0 then [] else
    var t := CStr(s[1..]);
    [s[0]] + t
  }

  /** CStr is the one prefix that is NUL-free and followed by a NUL or the end. */
  lemma {:induction false} CStrUnique(s: seq<byte>, f: Str)
    requires |f| <= |s| && s[..|f|] == f && NulFree(f)
    requires |f| < |s| ==> s[|f|] == 0
    ensures CStr(s) == f
  {
    if f != [] {
      CStrUnique(s[1..], f[1..]);
    }
  }
}
