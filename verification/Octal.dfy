/** Octal and decimal fields of a header: what snprintf prints and what oct_atoi and atoll read back. */
module Octal {
  import opened Bytes

  const ZERO: byte := 48
  const INT_MIN := -0x8000_0000
  const INT_MAX := 0x7fff_ffff

  /** The digits of v in base b, no leading zeros, "0" for zero. */
  function Digits(b: nat, v: nat): (r: Str)
    requires b == 8 || b == 10
    ensures |r| > 0 && AllDigits(b, r)
    decreases v
  {
    if v < b then [ZERO + v] else Digits(b, v / b) + [ZERO + v % b]
  }

  predicate IsDigit(b: nat, c: byte) {
    ZERO <= c < ZERO + b
  }

  predicate AllDigits(b: nat, s: Str) {
    forall i :: 0 <= i < |s| ==> IsDigit(b, s[i])
  }

  /** Positional value of a digit string. */
  function Value(b: nat, s: Str): nat
    requires AllDigits(b, s)
  {
    if s == [] then 0 else Value(b, s[..|s| - 1]) * b + (s[|s| - 1] - ZERO)
  }

  function Pow(b: nat, k: nat): nat {
    if k == 0 then 1 else b * Pow(b, k - 1)
  }

  lemma DivMod(b: nat, v: nat)
    requires b == 8 || b == 10
    ensures v == v / b * b + v % b
  {
    if b == 8 {
    } else {
    }
  }

  lemma {:induction false} DigitsValue(b: nat, v: nat)
    requires b == 8 || b == 10
    ensures Value(b, Digits(b, v)) == v
    decreases v
  {
    var d := Digits(b, v);
    if v >= b {
      DivMod(b, v);
      DigitsValue(b, v / b);
      assert d[..|d| - 1] == Digits(b, v / b);
    } else {
      assert d[..|d| - 1] == [];
    }
  }

  lemma DivBelow(v: nat, b: nat, p: nat)
    requires (b == 8 || b == 10) && v < b * p
    ensures v / b < p
  {
    if b == 8 {
    } else {
    }
  }

  lemma {:induction false} DigitsLength(b: nat, v: nat, k: nat)
    requires (b == 8 || b == 10) && k > 0 && v < Pow(b, k)
    ensures |Digits(b, v)| <= k
    decreases v
  {
    assert Pow(b, 1) == b * Pow(b, 0) && b * 1 == b;
    if v >= b {
      DivBelow(v, b, Pow(b, k - 1));
      DigitsLength(b, v / b, k - 1);
    }
  }

  lemma {:induction false} LeadingZeros(b: nat, n: nat, s: Str)
    requires AllDigits(b, s) && b > 0
    ensures AllDigits(b, Repeat(ZERO, n) + s)
    ensures Value(b, Repeat(ZERO, n) + s) == Value(b, s)
    decreases |s|, n
  {
    var t := Repeat(ZERO, n) + s;
    if s != [] {
      LeadingZeros(b, n, s[..|s| - 1]);
      assert t[..|t| - 1] == Repeat(ZERO, n) + s[..|s| - 1];
    } else if n > 0 {
      LeadingZeros(b, n - 1, s);
      assert t[..|t| - 1] == Repeat(ZERO, n - 1) + s;
      assert 0 * b == 0;
    } else {
      assert t == s;
    }
  }

  /** "%0<w>o" and "%<w>o": the digits padded on the left. */
  function PadLeft(c: byte, w: nat, d: Str): (r: Str)
    ensures |r| == if |d| < w then w else |d|
  {
    if |d| < w then Repeat(c, w - |d|) + d else d
  }

  /** snprintf into cap bytes keeps cap - 1 of them. */
  function Clip(s: Str, cap: nat): (r: Str)
    requires cap > 0
    ensures |r| < cap && |r| <= |s|
  {
    if |s| < cap then s else s[..cap - 1]
  }

  /** "%0<w>o " printed into a field of cap bytes. */
  function OctField(v: nat, w: nat, cap: nat): (r: Str)
    requires cap > 0
    ensures |r| < cap && NulFree(r)
  {
    Clip(PadLeft(ZERO, w, Digits(8, v)) + [BLANK], cap)
  }

  function Wrap32(v: int): (r: int)
    ensures INT_MIN <= r <= INT_MAX
    ensures INT_MIN <= v <= INT_MAX ==> r == v
    ensures (v - r) % 0x1_0000_0000 == 0
  {
    (v - INT_MIN) % 0x1_0000_0000 + INT_MIN
  }

  function SkipBlanks(s: seq<byte>): (r: seq<byte>) {
    if s != [] && s[0] == BLANK then SkipBlanks(s[1..]) else s
  }

  /** The digit loop of oct_atoi: an int that wraps. */
  function OctScan(s: seq<byte>, v: int): int {
    if s == [] || !IsDigit(8, s[0]) then v else OctScan(s[1..], Wrap32(v * 8 + (s[0] - ZERO)))
  }

  function OctAtoi(s: seq<byte>): int {
    OctScan(SkipBlanks(s), 0)
  }

  /** oct_atoi, moving along the string. */
  method OctAtoiLoop(s: seq<byte>) returns (v: int)
    ensures v == OctAtoi(s)
  {
    var p := 0;
    while p < |s| && s[p] == BLANK
      invariant 0 <= p <= |s|
      invariant SkipBlanks(s) == SkipBlanks(s[p..])
    {
      p := p + 1;
    }
    v := 0;
    while p < |s| && IsDigit(8, s[p])
      invariant 0 <= p <= |s|
      invariant OctAtoi(s) == OctScan(s[p..], v)
    {
      v := Wrap32(v * 8 + (s[p] - ZERO));
      p := p + 1;
    }
  }

  predicate EndsDigits(rest: seq<byte>) {
    rest == [] || !IsDigit(8, rest[0])
  }

  lemma ValueSnoc(b: nat, d: Str, n: nat)
    requires AllDigits(b, d) && n < |d|
    ensures AllDigits(b, d[..n]) && AllDigits(b, d[..n + 1])
    ensures Value(b, d[..n + 1]) == Value(b, d[..n]) * b + (d[n] - ZERO)
  {
    assert d[..n + 1][..n] == d[..n];
  }

  lemma OctScanStep(c: byte, rest: seq<byte>, v: int)
    requires IsDigit(8, c)
    ensures OctScan([c] + rest, v) == OctScan(rest, Wrap32(v * 8 + (c - ZERO)))
  {
    assert ([c] + rest)[1..] == rest;
  }

  lemma {:induction false} OctScanValue(d: Str, n: nat, rest: seq<byte>)
    requires AllDigits(8, d) && n <= |d| && Value(8, d) <= INT_MAX && EndsDigits(rest)
    ensures AllDigits(8, d[..n]) && Value(8, d[..n]) <= Value(8, d)
    ensures OctScan(d[n..] + rest, Value(8, d[..n])) == Value(8, d)
    decreases |d| - n
  {
    if n == |d| {
      assert d[..n] == d && d[n..] + rest == rest;
    } else {
      hide OctScan, Value;
      OctScanValue(d, n + 1, rest);
      ValueSnoc(8, d, n);
      OctScanStep(d[n], d[n + 1..] + rest, Value(8, d[..n]));
      assert d[n..] + rest == [d[n]] + (d[n + 1..] + rest);
    }
  }

  lemma {:induction false} SkipRepeat(n: nat, s: seq<byte>)
    requires s == [] || s[0] != BLANK
    ensures SkipBlanks(Repeat(BLANK, n) + s) == s
  {
    if n > 0 {
      SkipRepeat(n - 1, s);
      assert (Repeat(BLANK, n) + s)[1..] == Repeat(BLANK, n - 1) + s;
    } else {
      assert Repeat(BLANK, 0) + s == s;
    }
  }

  /** oct_atoi reads the value of blanks, then digits, then anything that is not a digit. */
  lemma OctAtoiReads(blanks: nat, d: Str, rest: seq<byte>)
    requires d != [] && AllDigits(8, d) && Value(8, d) <= INT_MAX && EndsDigits(rest)
    ensures OctAtoi(Repeat(BLANK, blanks) + d + rest) == Value(8, d)
  {
    assert Repeat(BLANK, blanks) + d + rest == Repeat(BLANK, blanks) + (d + rest);
    SkipRepeat(blanks, d + rest);
    OctScanValue(d, 0, rest);
    assert d[0..] + rest == d + rest && d[..0] == [];
  }

  /** Digits that fill the field to its NUL are kept; shorter ones keep the blank behind them. */
  lemma OctFieldShape(v: nat, w: nat, cap: nat)
    requires 0 < w < cap && |Digits(8, v)| < cap
    ensures var p := PadLeft(ZERO, w, Digits(8, v));
            OctField(v, w, cap) == if |p| == cap - 1 then p else p + [BLANK]
  {
  }

  lemma PaddedReads(v: nat, w: nat, rest: seq<byte>)
    requires v <= INT_MAX && EndsDigits(rest)
    ensures OctAtoi(PadLeft(ZERO, w, Digits(8, v)) + rest) == v
  {
    var d := Digits(8, v);
    DigitsValue(8, v);
    if |d| < w {
      LeadingZeros(8, w - |d|, d);
    }
    var p := PadLeft(ZERO, w, d);
    assert Repeat(BLANK, 0) + p + rest == p + rest;
    OctAtoiReads(0, p, rest);
  }

  /** oct_atoi undoes a printed field, cut by snprintf or not, as long as the digits fit. */
  lemma OctFieldReads(v: nat, w: nat, cap: nat, rest: seq<byte>)
    requires 0 < w < cap && v <= INT_MAX && v < Pow(8, cap - 1)
    requires EndsDigits(rest)
    ensures OctAtoi(OctField(v, w, cap) + rest) == v
  {
    DigitsLength(8, v, cap - 1);
    OctFieldShape(v, w, cap);
    var p := PadLeft(ZERO, w, Digits(8, v));
    if |p| == cap - 1 {
      PaddedReads(v, w, rest);
    } else {
      PaddedReads(v, w, [BLANK] + rest);
      assert p + [BLANK] + rest == p + ([BLANK] + rest);
    }
  }

  const LLONG_MIN := -0x8000_0000_0000_0000
  const LLONG_MAX := 0x7fff_ffff_ffff_ffff
  const PLUS: byte := 43
  const MINUS: byte := 45

  predicate IsSpace(c: byte) {
    c == BLANK || 9 <= c <= 13
  }

  function SkipSpace(s: seq<byte>): seq<byte> {
    if s != [] && IsSpace(s[0]) then SkipSpace(s[1..]) else s
  }

  function Clamp(v: int): (r: int)
    ensures LLONG_MIN <= r <= LLONG_MAX
    ensures LLONG_MIN <= v <= LLONG_MAX ==> r == v
  {
    if v < LLONG_MIN then LLONG_MIN else if v > LLONG_MAX then LLONG_MAX else v
  }

  /** atoll: white space, a sign, and the digits up to the first other byte, kept within 64 bits. */
  function Atoll(s: seq<byte>): int {
    var t := SkipSpace(s);
    if t != [] && t[0] == MINUS then Clamp(-(DecScan(t[1..], 0) as int))
    else if t != [] && t[0] == PLUS then Clamp(DecScan(t[1..], 0))
    else Clamp(DecScan(t, 0))
  }

  function DecScan(s: seq<byte>, v: nat): nat {
    if s == [] || !IsDigit(10, s[0]) then v else DecScan(s[1..], v * 10 + (s[0] - ZERO))
  }

  lemma {:induction false} DecScanValue(d: Str, n: nat, rest: seq<byte>)
    requires AllDigits(10, d) && n <= |d| && (rest == [] || !IsDigit(10, rest[0]))
    ensures AllDigits(10, d[..n]) && DecScan(d[n..] + rest, Value(10, d[..n])) == Value(10, d)
    decreases |d| - n
  {
    if n == |d| {
      assert d[..n] == d && d[n..] + rest == rest;
    } else {
      DecScanValue(d, n + 1, rest);
      ValueSnoc(10, d, n);
      hide Value;
      assert (d[n..] + rest)[1..] == d[n + 1..] + rest;
    }
  }

  lemma {:induction false} SkipSpaces(pre: Str, s: seq<byte>)
    requires (forall i :: 0 <= i < |pre| ==> IsSpace(pre[i])) && (s == [] || !IsSpace(s[0]))
    ensures SkipSpace(pre + s) == s
  {
    if pre == [] {
      assert pre + s == s;
    } else {
      assert (pre + s)[1..] == pre[1..] + s;
      SkipSpaces(pre[1..], s);
    }
  }

  /**
   * A number behind white space, with or without a sign, reads as that number whatever ends its digits, or as the
   * nearest one of 64 bits.
   */
  lemma AtollReads(pre: Str, sign: Str, v: nat, rest: seq<byte>)
    requires (forall i :: 0 <= i < |pre| ==> IsSpace(pre[i])) && (rest == [] || !IsDigit(10, rest[0]))
    requires sign == [] || sign == [PLUS] || sign == [MINUS]
    ensures var n := if sign == [MINUS] then -(v as int) else v;
      Atoll(pre + (sign + Digits(10, v) + rest)) ==
        if n < LLONG_MIN then LLONG_MIN else if n > LLONG_MAX then LLONG_MAX else n
  {
    hide DecScan, Digits, SkipSpace, Atoll, IsSpace;
    var d := Digits(10, v);
    DigitsRead(v, rest);
    assert sign + d + rest == sign + (d + rest) && (d + rest)[0] == d[0];
    NotSpace(sign, d + rest);
    SkipSpaces(pre, sign + (d + rest));
    SignedReads(pre + (sign + (d + rest)), sign, d + rest);
  }

  lemma NotSpace(sign: Str, u: seq<byte>)
    requires (sign == [] || sign == [PLUS] || sign == [MINUS]) && u != [] && IsDigit(10, u[0])
    ensures !IsSpace((sign + u)[0])
  {
  }

  lemma SignedReads(s: seq<byte>, sign: Str, u: seq<byte>)
    requires sign == [] || sign == [PLUS] || sign == [MINUS]
    requires u != [] && IsDigit(10, u[0]) && SkipSpace(s) == sign + u
    ensures Atoll(s) == Clamp(if sign == [MINUS] then -(DecScan(u, 0) as int) else DecScan(u, 0))
  {
    hide DecScan, SkipSpace, Clamp;
    if sign == [] {
      assert sign + u == u;
    } else {
      assert (sign + u)[0] == sign[0] && (sign + u)[1..] == u;
    }
  }

  lemma DigitsRead(v: nat, rest: seq<byte>)
    requires rest == [] || !IsDigit(10, rest[0])
    ensures DecScan(Digits(10, v) + rest, 0) == v
  {
    var d := Digits(10, v);
    DigitsValue(10, v);
    DecScanValue(d, 0, rest);
    assert d[0..] == d && d[..0] == [];
  }
}
