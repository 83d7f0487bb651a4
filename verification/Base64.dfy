/** Base64 as the session authentication uses it (ndmpd_base64.c), against section 4 of RFC 4648. */
module Base64 {
  import opened Bytes

  const PAD: byte := 61

  /** The letter of a value: A to Z, a to z, 0 to 9, plus, slash. */
  function Letter(v: int): byte
    requires 0 <= v < 64
  {
    if v < 26 then 65 + v else if v < 52 then 71 + v else if v < 62 then v - 4 else if v == 62 then 43 else 47
  }

  /** ndmp_is_base64: a letter of the alphabet. */
  predicate IsLetter(c: byte) {
    65 <= c <= 90 || 97 <= c <= 122 || 48 <= c <= 57 || c == 43 || c == 47
  }

  /** The value of a letter: its place in the alphabet. */
  function ValueOf(c: byte): (v: int)
    requires IsLetter(c)
    ensures 0 <= v < 64 && Letter(v) == c
  {
    if 65 <= c <= 90 then c - 65
    else if 97 <= c <= 122 then c - 71
    else if 48 <= c <= 57 then c + 4
    else if c == 43 then 62 else 63
  }

  lemma LetterValue(v: int)
    requires 0 <= v < 64
    ensures IsLetter(Letter(v)) && ValueOf(Letter(v)) == v
  {
  }

  const ALPHABET := "ABCDEFGHIJKLMNOPQRSTUVWXYZ" + "abcdefghijklmnopqrstuvwxyz" + "0123456789+/"

  /** The letters are those of table 1 of RFC 4648, in its order. */
  lemma LetterIs(v: int)
    requires 0 <= v < 64
    ensures Letter(v) == ALPHABET[v] as int
  {
  }

  // ---- the standard: three bytes are a number of 24 bits, cut into four values of six bits ----

  function Group(a: byte, b: byte, c: byte): int {
    a * 65536 + b * 256 + c
  }

  function Quad(a: byte, b: byte, c: byte): Str {
    var g := Group(a, b, c);
    [Letter(g / 262144), Letter(g / 4096 % 64), Letter(g / 64 % 64), Letter(g % 64)]
  }

  /** Section 4 of RFC 4648: a short last group is filled with zero bits, and padding stands for the missing letters. */
  function Encoding(s: Str): Str {
    if s == [] then []
    else if |s| == 1 then Quad(s[0], 0, 0)[..2] + [PAD, PAD]
    else if |s| == 2 then Quad(s[0], s[1], 0)[..3] + [PAD]
    else Quad(s[0], s[1], s[2]) + Encoding(s[3..])
  }

  // ---- the code: masks and shifts, written as the divisions and remainders they are ----

  /** arr_4 from arr_3. */
  function Split(a: byte, b: byte, c: byte): (r: (int, int, int, int))
    ensures 0 <= r.0 < 64 && 0 <= r.1 < 64 && 0 <= r.2 < 64 && 0 <= r.3 < 64
  {
    (a / 4, a % 4 * 16 + b / 16, b % 16 * 4 + c / 64, c % 64)
  }

  /** arr_3 from arr_4, each byte cut to eight bits. */
  function Merge(p: byte, q: byte, r: byte, s: byte): (byte, byte, byte) {
    ((p * 4 + q / 16 % 4) % 256, (q % 16 * 16 + r / 4 % 16) % 256, (r % 4 * 64 + s) % 256)
  }

  lemma SplitIsGroup(a: byte, b: byte, c: byte)
    ensures var (p, q, r, s) := Split(a, b, c); Quad(a, b, c) == [Letter(p), Letter(q), Letter(r), Letter(s)]
  {
    HighLetters(a, b, c);
    LowLetters(a, b, c);
    hide Group, Letter;
  }

  lemma HighLetters(a: byte, b: byte, c: byte)
    ensures Group(a, b, c) / 262144 == a / 4 && Group(a, b, c) / 4096 % 64 == a % 4 * 16 + b / 16
  {
    assert Group(a, b, c) / 4096 == a * 16 + b / 16;
  }

  lemma LowLetters(a: byte, b: byte, c: byte)
    ensures Group(a, b, c) / 64 % 64 == b % 16 * 4 + c / 64 && Group(a, b, c) % 64 == c % 64
  {
    assert Group(a, b, c) / 64 == a * 1024 + b * 4 + c / 64;
  }

  lemma Nibble(x: int, y: int, n: int, m: int)
    requires 0 <= x && 0 <= y < m && ((n == 4 && m == 16) || (n == 16 && m == 4) || (n == 64 && m == 64))
    ensures (x % n * m + y) / m == x % n && (x % n * m + y) % m == y
  {
  }

  lemma FirstByte(a: byte, b: byte)
    ensures (a / 4 * 4 + (a % 4 * 16 + b / 16) / 16 % 4) % 256 == a
  {
    Nibble(a, b / 16, 4, 16);
  }

  lemma SecondByte(a: byte, b: byte, c: byte)
    ensures ((a % 4 * 16 + b / 16) % 16 * 16 + (b % 16 * 4 + c / 64) / 4 % 16) % 256 == b
  {
    Nibble(a, b / 16, 4, 16);
    Nibble(b, c / 64, 16, 4);
  }

  lemma ThirdByte(b: byte, c: byte)
    ensures ((b % 16 * 4 + c / 64) % 4 * 64 + c % 64) % 256 == c
  {
    Nibble(b, c / 64, 16, 4);
  }

  lemma MergeSplits(a: byte, b: byte, c: byte)
    ensures var (p, q, r, s) := Split(a, b, c); Merge(p, q, r, s) == (a, b, c)
  {
    var (p, q, r, s) := Split(a, b, c);
    assert Merge(p, q, r, s).0 == a by { FirstByte(a, b); }
    assert Merge(p, q, r, s).1 == b by { SecondByte(a, b, c); }
    assert Merge(p, q, r, s).2 == c by { ThirdByte(b, c); }
    hide Merge, Split;
  }

  lemma {:induction false} EncodingJoin(a: Str, b: Str)
    requires |a| % 3 == 0
    ensures Encoding(a + b) == Encoding(a) + Encoding(b)
  {
    if a == [] {
      assert a + b == b;
    } else {
      EncodingJoin(a[3..], b);
      assert (a + b)[3..] == a[3..] + b;
      var q := Quad(a[0], a[1], a[2]);
      assert q + (Encoding(a[3..]) + Encoding(b)) == q + Encoding(a[3..]) + Encoding(b);
    }
  }

  /** ndmp_base64_encode: bytes are gathered three at a time. */
  method Encode(str: Str) returns (ret: Str)
    ensures ret == Encoding(str)
  {
    hide Encoding, Split, Quad, Letter;
    NoBytes();
    ret := [];
    var i, k := 0, 0;
    var arr3: seq<byte> := [0, 0, 0];
    ghost var done := 0;
    assert str[..0] == [];
    while k < |str|
      invariant 0 <= i < 3 && k == done + i <= |str| && |arr3| == 3 && done % 3 == 0
      invariant arr3[..i] == str[done..k]
      invariant ret == Encoding(str[..done])
    {
      ghost var was := arr3;
      arr3 := arr3[i := str[k]];
      assert arr3[..i + 1] == was[..i] + [str[k]];
      assert str[done..k + 1] == str[done..k] + [str[k]];
      i, k := i + 1, k + 1;
      if i == 3 {
        var (p, q, r, s) := Split(arr3[0], arr3[1], arr3[2]);
        SplitIsGroup(arr3[0], arr3[1], arr3[2]);
        OneGroup(str[..done], arr3);
        assert arr3 == arr3[..3] && str[..k] == str[..done] + arr3;
        ret := ret + [Letter(p), Letter(q), Letter(r), Letter(s)];
        i, done := 0, k;
      }
    }
    EncodingJoin(str[..done], arr3[..i]);
    assert str == str[..done] + arr3[..i];
    if i > 0 {
      var tail := EncodeTail(arr3, i);
      ret := ret + tail;
    } else {
      assert ret + [] == ret;
    }
  }

  /** The last one or two bytes: the group is filled with zeros and the letters that say nothing become padding. */
  method EncodeTail(arr3: seq<byte>, i: nat) returns (tail: Str)
    requires |arr3| == 3 && 1 <= i <= 2
    ensures tail == Encoding(arr3[..i])
  {
    var full := arr3;
    for j := i to 3
      invariant |full| == 3 && full[..i] == arr3[..i] && forall n :: i <= n < j ==> full[n] == 0
    {
      full := full[j := 0];
    }
    var (p, q, r, s) := Split(full[0], full[1], full[2]);
    SplitIsGroup(full[0], full[1], full[2]);
    assert full[0] == arr3[0] && (i == 2 ==> full[1] == arr3[1]);
    hide Split, Quad, Letter;
    tail := [Letter(p), Letter(q), Letter(r), Letter(s)][..i + 1];
    for j := i to 3
      invariant tail == [Letter(p), Letter(q), Letter(r), Letter(s)][..i + 1] + Repeat(PAD, j - i)
    {
      tail := tail + [PAD];
    }
    assert Repeat(PAD, 1) == [PAD] && Repeat(PAD, 2) == [PAD, PAD];
  }

  lemma NoBytes()
    ensures Encoding([]) == []
  {
  }

  lemma OneGroup(a: Str, g: Str)
    requires |a| % 3 == 0 && |g| == 3
    ensures Encoding(a + g) == Encoding(a) + Quad(g[0], g[1], g[2])
  {
    EncodingJoin(a, g);
    assert g[3..] == [];
    assert Quad(g[0], g[1], g[2]) + [] == Quad(g[0], g[1], g[2]);
  }

  /** The letters in front of the first padding or other character. */
  function Letters(s: Str): (t: Str)
    ensures t <= s && forall i :: 0 <= i < |t| ==> IsLetter(t[i])
  {
    if s == [] || !IsLetter(s[0]) then [] else [s[0]] + Letters(s[1..])
  }

  /** The bytes of a run of letters; junk is what the table look-up gives for a letter that is not there. */
  function Bytes3(t: Str, junk: byte): Str
    requires forall i :: 0 <= i < |t| ==> IsLetter(t[i])
  {
    if |t| >= 4 then
      var (a, b, c) := Merge(ValueOf(t[0]), ValueOf(t[1]), ValueOf(t[2]), ValueOf(t[3]));
      [a, b, c] + Bytes3(t[4..], junk)
    else if t == [] then []
    else
      var v := (k: nat) => if k < |t| && IsLetter(t[k]) then ValueOf(t[k]) else junk;
      var (a, b, c) := Merge(v(0), v(1), v(2), v(3));
      [a, b, c][..|t| - 1]
  }

  function Decoding(s: Str, junk: byte): Str {
    Bytes3(Letters(s), junk)
  }

  /** One round of the decoding: four letters, or the last few. */
  lemma BytesStep(t: Str, junk: byte)
    requires forall i :: 0 <= i < |t| ==> IsLetter(t[i])
    ensures |t| >= 4 ==>
      var (a, b, c) := Merge(ValueOf(t[0]), ValueOf(t[1]), ValueOf(t[2]), ValueOf(t[3]));
        Bytes3(t, junk) == [a, b, c] + Bytes3(t[4..], junk)
    ensures t == [] ==> Bytes3(t, junk) == []
  {
  }

  lemma {:induction false} BytesJoin(a: Str, b: Str, junk: byte)
    requires |a| % 4 == 0 && (forall i :: 0 <= i < |a| ==> IsLetter(a[i]))
    requires forall i :: 0 <= i < |b| ==> IsLetter(b[i])
    ensures Bytes3(a + b, junk) == Bytes3(a, junk) + Bytes3(b, junk)
  {
    hide Bytes3, Merge;
    BytesStep(a, junk);
    if a == [] {
      assert a + b == b && [] + Bytes3(b, junk) == Bytes3(b, junk);
    } else {
      BytesJoin(a[4..], b, junk);
      BytesStep(a + b, junk);
      assert (a + b)[4..] == a[4..] + b;
      var (x, y, z) := Merge(ValueOf(a[0]), ValueOf(a[1]), ValueOf(a[2]), ValueOf(a[3]));
      Associate([x, y, z], Bytes3(a[4..], junk), Bytes3(b, junk));
    }
  }

  lemma Associate(a: Str, b: Str, c: Str)
    ensures a + (b + c) == a + b + c
  {
  }

  /** The bytes kept from a short last group do not depend on what was looked up for its missing letters. */
  lemma {:induction false} JunkIsDropped(t: Str, j1: byte, j2: byte)
    requires forall i :: 0 <= i < |t| ==> IsLetter(t[i])
    ensures Bytes3(t, j1) == Bytes3(t, j2)
  {
    if |t| >= 4 {
      JunkIsDropped(t[4..], j1, j2);
    }
  }

  /** Whatever string is decoded, the result is the same for every content of the memory behind the table. */
  lemma DecodingIsDefinite(s: Str, j1: byte, j2: byte)
    ensures Decoding(s, j1) == Decoding(s, j2)
  {
    JunkIsDropped(Letters(s), j1, j2);
  }

  /** ndmp_base64_decode; junk is what strchr finds for a NUL, since the table has none. */
  method Decode(str: Str, junk: byte) returns (ret: Str)
    ensures ret == Decoding(str, junk)
  {
    hide Bytes3, Merge, ValueOf, Letter;
    ret := [];
    var i, ind := 0, 0;
    var arr4: seq<byte> := [0, 0, 0, 0];
    ghost var done := 0;
    BytesStep([], junk);
    assert str[..0] == [];
    while ind < |str| && str[ind] != PAD && IsLetter(str[ind])
      invariant 0 <= i < 4 && ind == done + i <= |str| && |arr4| == 4 && done % 4 == 0
      invariant forall j :: 0 <= j < ind ==> IsLetter(str[j])
      invariant arr4[..i] == str[done..ind]
      invariant ret == Bytes3(str[..done], junk)
    {
      OneMore(arr4, i, str, done);
      arr4 := arr4[i := str[ind]];
      i, ind := i + 1, ind + 1;
      if i == 4 {
        GroupLetters(str, done, arr4);
        var (a, b, c) := Merge(ValueOf(arr4[0]), ValueOf(arr4[1]), ValueOf(arr4[2]), ValueOf(arr4[3]));
        NextGroup(str, done, arr4, junk);
        ret := ret + [a, b, c];
        i, done := 0, ind;
      }
    }
    LettersAre(str, ind);
    BytesJoin(str[..done], str[done..ind], junk);
    assert str[..ind] == str[..done] + str[done..ind];
    if i > 0 {
      var tail := DecodeTail(arr4[..i], junk);
      ret := ret + tail;
    } else {
      assert str[done..ind] == [] && ret + [] == ret;
    }
  }

  lemma OneMore(arr4: seq<byte>, i: nat, str: Str, done: nat)
    requires i < |arr4| && done + i < |str| && arr4[..i] == str[done..done + i]
    ensures arr4[i := str[done + i]][..i + 1] == str[done..done + i + 1]
  {
    assert arr4[i := str[done + i]][..i + 1] == arr4[..i] + [str[done + i]];
  }

  lemma GroupLetters(str: Str, done: nat, arr4: seq<byte>)
    requires |arr4| == 4 && done + 4 <= |str| && arr4[..4] == str[done..done + 4]
    requires forall j :: 0 <= j < done + 4 ==> IsLetter(str[j])
    ensures forall j :: 0 <= j < 4 ==> IsLetter(arr4[j]) && arr4[j] == str[done + j]
  {
    hide IsLetter;
    assert arr4 == arr4[..4];
  }

  /** A full group of letters of the text and what it decodes to. */
  lemma NextGroup(str: Str, done: nat, arr4: seq<byte>, junk: byte)
    requires |arr4| == 4 && done % 4 == 0 && done + 4 <= |str| && arr4[..4] == str[done..done + 4]
    requires forall j :: 0 <= j < done + 4 ==> IsLetter(str[j])
    ensures var (a, b, c) := Merge(ValueOf(arr4[0]), ValueOf(arr4[1]), ValueOf(arr4[2]), ValueOf(arr4[3]));
      Bytes3(str[..done + 4], junk) == Bytes3(str[..done], junk) + [a, b, c]
  {
    hide Bytes3, Merge, ValueOf;
    GroupLetters(str, done, arr4);
    hide IsLetter;
    FullGroup(str[..done], arr4, junk);
    assert str[..done + 4] == str[..done] + arr4;
  }

  /** The last one to three letters: the missing ones take whatever the look-up gives, and a byte less is kept. */
  method DecodeTail(t: Str, junk: byte) returns (tail: Str)
    requires 1 <= |t| <= 3 && forall i :: 0 <= i < |t| ==> IsLetter(t[i])
    ensures tail == Bytes3(t, junk)
  {
    var arr4: seq<byte> := [junk, junk, junk, junk];
    for j := 0 to |t|
      invariant |arr4| == 4 && forall n :: 0 <= n < 4 ==> arr4[n] == if n < j then ValueOf(t[n]) else junk
    {
      arr4 := arr4[j := ValueOf(t[j])];
    }
    var (a, b, c) := Merge(arr4[0], arr4[1], arr4[2], arr4[3]);
    tail := [a, b, c][..|t| - 1];
  }

  lemma FullGroup(a: Str, g: Str, junk: byte)
    requires |a| % 4 == 0 && |g| == 4 && (forall i :: 0 <= i < |a| ==> IsLetter(a[i]))
    requires forall i :: 0 <= i < 4 ==> IsLetter(g[i])
    ensures var (x, y, z) := Merge(ValueOf(g[0]), ValueOf(g[1]), ValueOf(g[2]), ValueOf(g[3]));
      Bytes3(a + g, junk) == Bytes3(a, junk) + [x, y, z]
  {
    hide Bytes3, Merge;
    BytesJoin(a, g, junk);
    BytesStep(g, junk);
    BytesStep([], junk);
    assert g[4..] == [];
  }

  lemma {:induction false} LettersAre(s: Str, k: nat)
    requires k <= |s| && (forall i :: 0 <= i < k ==> IsLetter(s[i])) && (k < |s| ==> !IsLetter(s[k]))
    ensures Letters(s) == s[..k]
  {
    if k > 0 {
      LettersAre(s[1..], k - 1);
    }
  }

  // ---- the round trip ----

  /** The letters of an encoding without its padding. */
  function Unpadded(s: Str): Str {
    if s == [] then []
    else if |s| == 1 then Quad(s[0], 0, 0)[..2]
    else if |s| == 2 then Quad(s[0], s[1], 0)[..3]
    else Quad(s[0], s[1], s[2]) + Unpadded(s[3..])
  }

  lemma QuadLetters(a: byte, b: byte, c: byte)
    ensures forall i :: 0 <= i < 4 ==> IsLetter(Quad(a, b, c)[i])
  {
  }

  lemma {:induction false} EncodingLetters(s: Str)
    ensures forall i :: 0 <= i < |Unpadded(s)| ==> IsLetter(Unpadded(s)[i])
    ensures Unpadded(s) <= Encoding(s) && (|Unpadded(s)| < |Encoding(s)| ==> Encoding(s)[|Unpadded(s)|] == PAD)
  {
    if |s| >= 3 {
      EncodingLetters(s[3..]);
      QuadLetters(s[0], s[1], s[2]);
    } else if |s| > 0 {
      QuadLetters(s[0], if |s| == 2 then s[1] else 0, 0);
    }
    hide Quad;
  }

  lemma QuadDecodes(a: byte, b: byte, c: byte)
    ensures var q := Quad(a, b, c);
      && (forall i :: 0 <= i < 4 ==> IsLetter(q[i]))
      && Merge(ValueOf(q[0]), ValueOf(q[1]), ValueOf(q[2]), ValueOf(q[3])) == (a, b, c)
  {
    var (p, q, r, s) := Split(a, b, c);
    SplitIsGroup(a, b, c);
    MergeSplits(a, b, c);
    LetterValue(p);
    LetterValue(q);
    LetterValue(r);
    LetterValue(s);
    QuadLetters(a, b, c);
    hide Quad, Split, Merge, ValueOf, Letter;
  }

  lemma {:induction false} UnpaddedDecodes(s: Str, junk: byte)
    requires forall i :: 0 <= i < |Unpadded(s)| ==> IsLetter(Unpadded(s)[i])
    ensures Bytes3(Unpadded(s), junk) == s
  {
    if |s| >= 3 {
      var q := Quad(s[0], s[1], s[2]);
      QuadDecodes(s[0], s[1], s[2]);
      EncodingLetters(s[3..]);
      UnpaddedDecodes(s[3..], junk);
      hide Quad, Merge, ValueOf;
      BytesStep(Unpadded(s), junk);
      assert Unpadded(s) == q + Unpadded(s[3..]) && Unpadded(s)[4..] == Unpadded(s[3..]);
      assert s == [s[0], s[1], s[2]] + s[3..];
    } else if |s| > 0 {
      ShortDecodes(s, junk);
    }
  }

  /** Two letters hold a byte and three hold two, whatever stands for the missing ones. */
  lemma ShortGroup(t: Str, junk: byte, r: byte, s: byte)
    requires 2 <= |t| <= 3 && (forall i :: 0 <= i < |t| ==> IsLetter(t[i])) && (|t| == 3 ==> r == ValueOf(t[2]))
    ensures var m := Merge(ValueOf(t[0]), ValueOf(t[1]), r, s); Bytes3(t, junk) == [m.0, m.1][..|t| - 1]
  {
    hide IsLetter;
  }

  lemma ShortDecodes(s: Str, junk: byte)
    requires 1 <= |s| <= 2 && forall i :: 0 <= i < |Unpadded(s)| ==> IsLetter(Unpadded(s)[i])
    ensures Bytes3(Unpadded(s), junk) == s
  {
    hide Bytes3, Merge, ValueOf, IsLetter, Letter, Group;
    var b := if |s| == 2 then s[1] else 0;
    var q := Quad(s[0], b, 0);
    QuadDecodes(s[0], b, 0);
    var t := Unpadded(s);
    assert t == q[..|s| + 1] && forall i :: 0 <= i < |t| ==> t[i] == q[i];
    hide Quad, Unpadded;
    ShortGroup(t, junk, ValueOf(q[2]), ValueOf(q[3]));
  }

  /** Decoding an encoding gives the original, for every byte string. */
  lemma RoundTrip(s: Str, junk: byte)
    ensures Decoding(Encoding(s), junk) == s
  {
    hide Bytes3, Unpadded, Encoding, Letters;
    EncodingLetters(s);
    var u, e := Unpadded(s), Encoding(s);
    assert e[..|u|] == u;
    assert forall i :: 0 <= i < |u| ==> IsLetter(e[i]) by {
      assert forall i :: 0 <= i < |u| ==> e[i] == u[i];
    }
    LettersAre(e, |u|);
    UnpaddedDecodes(s, junk);
  }
}
