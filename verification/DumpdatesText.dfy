/** The text form of a dumpdates record: escaping, line continuation and reading back (ndmpd_dtime.c). */
module DumpdatesText {
  import opened Bytes

  const TAB: byte := 9
  const NL: byte := 10
  const HASH: byte := 35
  const BACKSLASH: byte := 92
  const DIGIT0: byte := 48

  /** One dumpdates record: dd_name, dd_level, dd_ddate. */
  datatype Rec = Rec(name: Str, level: int, date: int)

  /**
   * What the code takes from the C library: the size of its line buffer, the text of a date without its newline, and
   * the date of a text.
   */
  datatype Env = Env(bufsiz: nat, ctime: int -> Str, unctime: Str -> Option<int>)

  /** A record as it is allocated: ndmp_malloc clears it. */
  const FRESH := Rec([], 0, 0)

  predicate White(c: byte) {
    c == BLANK || c == TAB
  }

  /** IS_LBR_BKTYPE on a nonzero character: one of F, A, I, D in either case. */
  predicate IsLbr(c: int) {
    c in {70, 65, 73, 68, 102, 97, 105, 100}
  }

  // ---- printing ----

  /** put_ddname. */
  function Esc(nm: Str): Str {
    if nm == [] then []
    else (if White(nm[0]) || nm[0] == NL then [BACKSLASH, nm[0]] else [nm[0]]) + Esc(nm[1..])
  }

  lemma EscStep(nm: Str, i: nat)
    requires i < |nm|
    ensures Esc(nm[i..]) == (if White(nm[i]) || nm[i] == NL then [BACKSLASH, nm[i]] else [nm[i]]) + Esc(nm[i + 1..])
  {
    assert nm[i..][1..] == nm[i + 1..];
  }

  lemma Associate(a: Str, b: Str, c: Str)
    ensures a + (b + c) == a + b + c
  {
  }

  /** One byte moves over to what is written. */
  lemma EscFront(out: Str, nm: Str, i: nat)
    requires i < |nm|
    ensures out + Esc(nm[i..]) ==
              (if White(nm[i]) || nm[i] == NL then out + [BACKSLASH] + [nm[i]] else out + [nm[i]]) + Esc(nm[i + 1..])
  {
    EscStep(nm, i);
    hide Esc, White;
    Associate(out, [BACKSLASH], [nm[i]]);
    Associate(out, [BACKSLASH, nm[i]], Esc(nm[i + 1..]));
    Associate(out, [nm[i]], Esc(nm[i + 1..]));
  }

  method PutDdname(nm: Str) returns (out: Str)
    ensures out == Esc(nm)
  {
    out := [];
    assert nm[0..] == nm && nm[|nm|..] == [] && Esc([]) == [];
    hide Esc;
    for i := 0 to |nm|
      invariant out + Esc(nm[i..]) == Esc(nm)
    {
      EscFront(out, nm, i);
      if White(nm[i]) || nm[i] == NL {
        out := out + [BACKSLASH];
      }
      out := out + [nm[i]];
    }
    assert out + [] == out;
  }

  predicate GoodLevel(level: int) {
    0 <= level <= 9 || level in {70, 65, 73, 68}
  }

  function Decimal(n: nat): Str {
    if n < 10 then [DIGIT0 + n] else Decimal(n / 10) + [DIGIT0 + n % 10]
  }

  /** put_ddlevel. */
  function LevelText(level: int): Str {
    if 0 < level < 256 && IsLbr(level) then [level]
    else if level < 0 then [45] + Decimal(-level)
    else Decimal(level)
  }

  /** dumprecout. */
  function RecText(e: Env, r: Rec): Str {
    Esc(r.name) + [TAB] + LevelText(r.level) + [TAB] + e.ctime(r.date) + [NL]
  }

  // ---- reading ----

  /** fgets: a line with its newline, cut at n - 1 bytes. */
  function Fgets(text: Str, n: nat): (chunk: Str)
    ensures chunk <= text && |chunk| <= n
  {
    if text == [] || n <= 1 then []
    else if text[0] == NL then [NL]
    else [text[0]] + Fgets(text[1..], n - 1)
  }

  /**
   * getline_ndmpd: the next line with its continuations joined, and the text behind it. llen is the room left in
   * the buffer; a continued piece never uses it up.
   */
  function GetLine(text: Str, llen: nat, acc: Str): (r: Option<(Str, Str)>)
    ensures r.Some? ==> |r.value.1| < |text|
    decreases |text|
  {
    var chunk := Fgets(text, llen);
    var rest := text[|chunk|..];
    if chunk == [] then None
    else if chunk[0] == HASH then GetLine(rest, llen, acc)
    else
      var k := |chunk| - 1;
      if chunk[k] != NL then None
      else if k == 0 then Some((acc, rest))
      else if chunk[k - 1] != BACKSLASH then Some((acc + chunk[..k], rest))
      else GetLine(rest, llen - k, acc + chunk[..k - 1] + [NL])
  }

  /** One round of getline_ndmpd, from the piece that fgets gave. */
  lemma LineStep(rest: Str, llen: nat, acc: Str, chunk: Str, after: Str)
    requires chunk == Fgets(rest, llen) && after == rest[|chunk|..]
    ensures var k := |chunk| - 1;
      GetLine(rest, llen, acc) ==
        if chunk == [] then None
        else if chunk[0] == HASH then GetLine(after, llen, acc)
        else if chunk[k] != NL then None
        else if k == 0 then Some((acc, after))
        else if chunk[k - 1] != BACKSLASH then Some((acc + chunk[..k], after))
        else GetLine(after, llen - k, acc + chunk[..k - 1] + [NL])
  {
    hide Fgets;
  }

  function SkipWhite(s: Str): Str {
    if s != [] && White(s[0]) then SkipWhite(s[1..]) else s
  }

  /** The name up to an unescaped blank or tab, and what follows it. */
  function Unescape(s: Str): (Str, Str) {
    if s == [] then ([], [])
    else if White(s[0]) then ([], s[1..])
    else if s[0] == BACKSLASH && |s| > 1 && White(s[1]) then
      var (n, r) := Unescape(s[2..]); ([s[1]] + n, r)
    else
      var (n, r) := Unescape(s[1..]); ([s[0]] + n, r)
  }

  lemma UnescapeStep(s: Str)
    ensures Unescape(s) ==
      if s == [] then ([], [])
      else if White(s[0]) then ([], s[1..])
      else
        var i := if s[0] == BACKSLASH && |s| > 1 && White(s[1]) then 1 else 0;
        var (n, r) := Unescape(s[i + 1..]);
        ([s[i]] + n, r)
  {
  }

  /** get_ddname. */
  function DdName(s: Str): (Str, Str) {
    Unescape(SkipWhite(s))
  }

  predicate IsDigit(c: byte) {
    48 <= c <= 57
  }

  function DigitRun(s: Str): (n: nat)
    ensures n <= |s|
  {
    if s == [] || !IsDigit(s[0]) then 0 else 1 + DigitRun(s[1..])
  }

  function AtoiOf(d: Str): int {
    if d == [] then 0 else AtoiOf(d[..|d| - 1]) * 10 + (d[|d| - 1] - DIGIT0)
  }

  /** get_ddlevel: a backup-type letter or a number; the byte behind it is passed over. */
  function DdLevel(s: Str): (int, Str) {
    var t := SkipWhite(s);
    if t != [] && IsLbr(t[0]) then (if t[0] >= 97 then t[0] - 32 else t[0], if |t| > 2 then t[2..] else [])
    else
      var n := DigitRun(t);
      (AtoiOf(t[..n]), if n < |t| then t[n + 1..] else [])
  }

  /** A backup type in a small letter is read as its capital. */
  lemma SmallLetterReads(c: int, rest: Str)
    requires c in {70, 65, 73, 68}
    ensures DdLevel([c] + rest) == DdLevel([c + 32] + rest) && DdLevel([c] + rest).0 == c
  {
    assert ([c] + rest)[1..] == rest == ([c + 32] + rest)[1..];
    if |rest| > 1 {
      assert ([c] + rest)[2..] == rest[1..] == ([c + 32] + rest)[2..];
    }
  }

  /** makedumpdate: when the date does not parse the name and the date are what the record held before. */
  function MakeRec(e: Env, line: Str): Rec {
    var (name, r1) := DdName(line);
    var (level, r2) := DdLevel(r1);
    var date := e.unctime(Cut(SkipWhite(r2), 24));
    if date.None? then Rec(FRESH.name, level, FRESH.date) else Rec(Cut(name, MAX_PATH_NAME - 1), level, date.value)
  }

  /** getrecord: empty lines are passed over. */
  function GetRecord(e: Env, text: Str): (r: Option<(Rec, Str)>)
    ensures r.Some? ==> |r.value.1| < |text|
    decreases |text|
  {
    var l := GetLine(text, e.bufsiz, []);
    if l.None? then None else
      if l.value.0 == [] then GetRecord(e, l.value.1) else Some((MakeRec(e, l.value.0), l.value.1))
  }

  /** readdumptimes: records until one cannot be read. */
  function ReadAll(e: Env, text: Str): seq<Rec>
    decreases |text|
  {
    var r := GetRecord(e, text);
    if r.None? then [] else [r.value.0] + ReadAll(e, r.value.1)
  }

  lemma LineNone(llen: nat)
    ensures GetLine([], llen, []) == None
  {
  }

  // ---- lines ----

  predicate NoNl(s: Str) {
    forall i :: 0 <= i < |s| ==> s[i] != NL
  }

  /** Neither the text nor a line of it starts with the comment sign. */
  predicate HashFree(u: Str) {
    (u != [] ==> u[0] != HASH) && LinesHashFree(u)
  }

  predicate LinesHashFree(u: Str) {
    forall i :: 0 <= i < |u| - 1 && u[i] == NL ==> u[i + 1] != HASH
  }

  predicate EndsInBackslash(u: Str) {
    u != [] && u[|u| - 1] == BACKSLASH
  }

  /** Newlines escaped. */
  function EscNl(u: Str): Str {
    if u == [] then [] else (if u[0] == NL then [BACKSLASH, NL] else [u[0]]) + EscNl(u[1..])
  }

  function FirstNl(u: Str): (k: nat)
    ensures k <= |u| && NoNl(u[..k]) && (k < |u| ==> u[k] == NL)
  {
    if u == [] || u[0] == NL then 0 else
      var k := 1 + FirstNl(u[1..]);
      assert u[..k] == [u[0]] + u[1..][..k - 1];
      k
  }

  lemma {:induction false} EscNlSplit(u: Str)
    ensures var k := FirstNl(u); EscNl(u) == u[..k] + EscNlFrom(u, k)
  {
    if u != [] && u[0] != NL {
      EscNlSplit(u[1..]);
      var k := FirstNl(u);
      assert k == |u| || u[1..][k..] == u[k + 1..];
      assert EscNlFrom(u[1..], k - 1) == EscNlFrom(u, k);
      Shifted(u, k, EscNlFrom(u, k));
    } else {
      assert u[..0] == [] && [] + EscNl(u) == EscNl(u);
    }
  }

  function EscNlFrom(u: Str, k: nat): Str
    requires k <= |u|
  {
    if k == |u| then [] else [BACKSLASH, NL] + EscNl(u[k + 1..])
  }

  lemma Shifted(u: Str, k: nat, tail: Str)
    requires 0 < k <= |u|
    ensures [u[0]] + (u[1..][..k - 1] + tail) == u[..k] + tail
  {
  }

  lemma FgetsStep(c: byte, text: Str, n: nat)
    requires c != NL && n > 1
    ensures Fgets([c] + text, n) == [c] + Fgets(text, n - 1)
  {
    assert ([c] + text)[1..] == text;
  }

  lemma CutFront(c: byte, s: Str, m: nat)
    requires m <= |s|
    ensures ([c] + s)[..m + 1] == [c] + s[..m]
    ensures c != NL && NoNl(s) ==> NoNl([c] + s)
  {
  }

  lemma {:induction false} FgetsLine(a: Str, rest: Str, n: nat)
    requires NoNl(a)
    ensures var got := Fgets(a + [NL] + rest, n);
      if |a| + 1 < n then got == a + [NL] else NoNl(got) && got == (a + [NL])[..if n == 0 then 0 else n - 1]
  {
    var t := a + [NL] + rest;
    if a != [] && n > 1 {
      var b := a[1..];
      assert a == [a[0]] + b && t == [a[0]] + (b + [NL] + rest) && a + [NL] == [a[0]] + (b + [NL]);
      FgetsStep(a[0], b + [NL] + rest, n);
      hide Fgets;
      FgetsLine(b, rest, n - 1);
      if n - 1 <= |a| {
        CutFront(a[0], b + [NL], n - 2);
        CutFront(a[0], Fgets(b + [NL] + rest, n - 1), 0);
      }
    } else {
      assert a == [] ==> t == [NL] + rest;
    }
  }

  /** fgets stops behind the first newline, at the end of the text, or when the room is used. */
  lemma {:induction false} FgetsIs(text: Str, n: nat, k: nat)
    requires k <= |text| && (k < n || k == 0)
    requires if k > 0 && text[k - 1] == NL then NoNl(text[..k - 1]) else NoNl(text[..k]) && (k + 1 >= n || k == |text|)
    ensures Fgets(text, n) == text[..k]
  {
    if k > 0 && text[0] != NL {
      assert text[1..][..k - 1] == text[1..k];
      if text[k - 1] == NL {
        assert text[1..][..k - 2] == text[..k - 1][1..];
      } else {
        assert text[1..][..k - 1] == text[..k][1..];
      }
      FgetsIs(text[1..], n - 1, k - 1);
    }
  }

  /** A line of the file that is not continued. */
  lemma LastLine(u: Str, rest: Str, llen: nat, acc: Str)
    requires NoNl(u) && HashFree(u) && !EndsInBackslash(u) && llen >= 2
    ensures GetLine(u + [NL] + rest, llen, acc) == if |u| + 2 <= llen then Some((acc + u, rest)) else None
  {
    var t := u + [NL] + rest;
    FgetsLine(u, rest, llen);
    LineStep(t, llen, acc, Fgets(t, llen), t[|Fgets(t, llen)|..]);
    hide GetLine, Fgets;
    if |u| + 2 <= llen {
      assert t[|u| + 1..] == rest;
      assert (u + [NL])[..|u|] == u && acc + [] == acc;
    }
  }

  /** A line that is continued. */
  lemma ContinuedLine(a: Str, rest: Str, llen: nat, acc: Str)
    requires NoNl(a) && HashFree(a) && llen >= 2
    ensures GetLine(a + [BACKSLASH, NL] + rest, llen, acc) ==
              if |a| + 3 <= llen then GetLine(rest, llen - (|a| + 1), acc + a + [NL]) else None
  {
    var b := a + [BACKSLASH];
    var t := a + [BACKSLASH, NL] + rest;
    assert t == b + [NL] + rest;
    FgetsLine(b, rest, llen);
    LineStep(t, llen, acc, Fgets(t, llen), t[|Fgets(t, llen)|..]);
    hide GetLine, Fgets;
    if |a| + 3 <= llen {
      assert t[|b| + 1..] == rest;
      assert (b + [NL])[..|a|] == a;
    }
  }

  lemma TailFine(u: Str, k: nat)
    requires k < |u| && u[k] == NL && HashFree(u) && !EndsInBackslash(u)
    ensures HashFree(u[k + 1..]) && !EndsInBackslash(u[k + 1..]) && HashFree(u[..k])
  {
  }

  lemma Pieces(acc: Str, a: Str, v: Str, ev: Str, rest: Str)
    ensures (a + ([BACKSLASH, NL] + ev)) + [NL] + rest == a + [BACKSLASH, NL] + (ev + [NL] + rest)
    ensures acc + a + [NL] + v == acc + (a + [NL] + v)
  {
  }

  /** The first line of a text with newlines is continued by the rest of it. */
  lemma FrontLine(u: Str, rest: Str, llen: nat, acc: Str, k: nat)
    requires HashFree(u) && !EndsInBackslash(u) && llen >= 2 && k == FirstNl(u) < |u|
    ensures var v := u[k + 1..];
      && HashFree(v) && !EndsInBackslash(v) && acc + u[..k] + [NL] + v == acc + u
      && GetLine(EscNl(u) + [NL] + rest, llen, acc) ==
           if k + 3 <= llen then GetLine(EscNl(v) + [NL] + rest, llen - (k + 1), acc + u[..k] + [NL]) else None
  {
    hide GetLine, EscNl, HashFree, EndsInBackslash;
    EscNlSplit(u);
    TailFine(u, k);
    var v := u[k + 1..];
    assert u == u[..k] + [NL] + v;
    Pieces(acc, u[..k], v, EscNl(v), rest);
    ContinuedLine(u[..k], EscNl(v) + [NL] + rest, llen, acc);
  }

  /** A text with escaped newlines comes back as one line exactly when it fits the buffer with its newline and NUL. */
  lemma {:induction false} LineReads(u: Str, rest: Str, llen: nat, acc: Str)
    requires HashFree(u) && !EndsInBackslash(u) && llen >= 2
    ensures GetLine(EscNl(u) + [NL] + rest, llen, acc) == if |u| + 2 <= llen then Some((acc + u, rest)) else None
    decreases |u|
  {
    hide GetLine, EscNl, HashFree, EndsInBackslash;
    var k := FirstNl(u);
    if k == |u| {
      EscNlSplit(u);
      assert u[..k] == u && EscNl(u) == u;
      LastLine(u, rest, llen, acc);
    } else {
      FrontLine(u, rest, llen, acc, k);
      if k + 3 <= llen {
        LineReads(u[k + 1..], rest, llen - (k + 1), acc + u[..k] + [NL]);
      }
    }
  }

  // ---- names ----

  /** Blanks and tabs escaped. */
  function EscWhite(nm: Str): Str {
    if nm == [] then [] else (if White(nm[0]) then [BACKSLASH, nm[0]] else [nm[0]]) + EscWhite(nm[1..])
  }

  lemma {:induction false} EscNlJoin(a: Str, b: Str)
    ensures EscNl(a + b) == EscNl(a) + EscNl(b)
  {
    if a == [] {
      assert a + b == b && EscNl(a) + EscNl(b) == EscNl(b);
    } else {
      var ab := a + b;
      assert ab[1..] == a[1..] + b && ab[0] == a[0];
      EscNlJoin(a[1..], b);
      Associate(if a[0] == NL then [BACKSLASH, NL] else [a[0]], EscNl(a[1..]), EscNl(b));
    }
  }

  lemma {:induction false} EscNlNone(u: Str)
    requires NoNl(u)
    ensures EscNl(u) == u
  {
    if u != [] {
      EscNlNone(u[1..]);
    }
  }

  /** The one pass of put_ddname is the two escapings one after the other. */
  lemma {:induction false} EscBoth(nm: Str)
    ensures Esc(nm) == EscNl(EscWhite(nm))
  {
    if nm != [] {
      EscBoth(nm[1..]);
      var head := if White(nm[0]) then [BACKSLASH, nm[0]] else [nm[0]];
      EscNlJoin(head, EscWhite(nm[1..]));
      if White(nm[0]) {
        EscNlNone(head);
      }
    }
  }

  lemma {:induction false} EscWhiteFine(nm: Str)
    ensures nm != [] ==> EscWhite(nm) != [] && EscWhite(nm)[0] == if White(nm[0]) then BACKSLASH else nm[0]
    ensures LinesHashFree(nm) ==> LinesHashFree(EscWhite(nm))
  {
    if nm != [] {
      EscWhiteFine(nm[1..]);
      var head := if White(nm[0]) then [BACKSLASH, nm[0]] else [nm[0]];
      if LinesHashFree(nm) {
        assert LinesHashFree(nm[1..]);
        forall i | 0 <= i < |EscWhite(nm)| - 1 && EscWhite(nm)[i] == NL ensures EscWhite(nm)[i + 1] != HASH {
          if i >= |head| {
            assert EscWhite(nm)[i] == EscWhite(nm[1..])[i - |head|];
          }
        }
      }
    }
  }

  /** get_ddname undoes the escaping and stops behind the separator, unless the name ends in a backslash. */
  lemma {:induction false} UnescapeReads(nm: Str, rest: Str)
    requires !EndsInBackslash(nm)
    ensures Unescape(EscWhite(nm) + [TAB] + rest) == (nm, rest)
  {
    var s := EscWhite(nm) + [TAB] + rest;
    UnescapeStep(s);
    hide Unescape;
    if nm == [] {
      assert s == [TAB] + rest && s[1..] == rest;
    } else {
      var t := EscWhite(nm[1..]) + [TAB] + rest;
      EscWhiteFine(nm[1..]);
      UnescapeReads(nm[1..], rest);
      Escaped(nm, rest);
      assert nm == [nm[0]] + nm[1..];
      assert nm[0] == BACKSLASH ==> nm[1..] != [];
    }
  }

  /** What is left of an escaped name behind its first character. */
  lemma Escaped(nm: Str, rest: Str)
    requires nm != []
    ensures var s, t := EscWhite(nm) + [TAB] + rest, EscWhite(nm[1..]) + [TAB] + rest;
      if White(nm[0]) then |s| > 1 && s[0] == BACKSLASH && s[1] == nm[0] && s[2..] == t
      else s[0] == nm[0] && s[1..] == t && |t| > 0 && (nm[1..] == [] ==> t[0] == TAB)
  {
    var head := if White(nm[0]) then [BACKSLASH, nm[0]] else [nm[0]];
    assert EscWhite(nm) == head + EscWhite(nm[1..]) && (nm[1..] == [] ==> EscWhite(nm[1..]) == []);
    hide EscWhite;
    HeadOf(head, EscWhite(nm[1..]), [TAB] + rest);
    Associate(EscWhite(nm), [TAB], rest);
    Associate(EscWhite(nm[1..]), [TAB], rest);
  }

  lemma HeadOf(head: Str, a: Str, b: Str)
    ensures (head + a + b)[|head|..] == a + b
    ensures head != [] ==> (head + a + b)[0] == head[0]
    ensures |head| > 1 ==> (head + a + b)[1] == head[1]
  {
  }

  /** A name that ends in a backslash swallows the separator. */
  lemma {:induction false} UnescapeSwallows(nm: Str, rest: Str)
    requires EndsInBackslash(nm)
    ensures var got := Unescape(EscWhite(nm) + [TAB] + rest).0; |got| >= |nm| && got[|nm| - 1] == TAB
  {
    var s := EscWhite(nm) + [TAB] + rest;
    UnescapeStep(s);
    hide Unescape;
    Escaped(nm, rest);
    if |nm| > 1 {
      EscWhiteFine(nm[1..]);
      UnescapeSwallows(nm[1..], rest);
    }
  }

  /** The name comes back, with the next field next, exactly when it is not empty and does not end in a backslash. */
  lemma NameReadsIff(nm: Str, rest: Str)
    requires rest != [] && !White(rest[0])
    ensures DdName(EscWhite(nm) + [TAB] + rest) == (nm, rest) <==> nm != [] && !EndsInBackslash(nm)
  {
    var s := EscWhite(nm) + [TAB] + rest;
    EscWhiteFine(nm);
    if nm == [] {
      assert s == [TAB] + rest;
      assert SkipWhite(s) == rest;
      assert Unescape(rest).0 != [];
    } else {
      assert SkipWhite(s) == s;
      if EndsInBackslash(nm) {
        UnescapeSwallows(nm, rest);
      } else {
        UnescapeReads(nm, rest);
      }
    }
  }

  // ---- records ----

  predicate GoodDate(e: Env, date: int) {
    var t := e.ctime(date);
    |t| == 24 && NoNl(t) && NulFree(t) && !White(t[0]) && t[23] != BACKSLASH && e.unctime(t) == Some(date)
  }

  predicate GoodPath(p: Str) {
    p != [] && |p| < MAX_PATH_NAME && NulFree(p) && HashFree(p) && !EndsInBackslash(p)
  }

  /** What a record's line holds behind the path. */
  function Fields(e: Env, r: Rec): Str {
    [TAB] + LevelText(r.level) + [TAB] + e.ctime(r.date)
  }

  lemma FieldsFine(e: Env, r: Rec)
    requires GoodLevel(r.level) && GoodDate(e, r.date)
    ensures var t := Fields(e, r); NoNl(t) && t != [] && t[0] == TAB && t[|t| - 1] != BACKSLASH
    ensures HASH !in e.ctime(r.date) ==> HASH !in Fields(e, r)
  {
    assert Fields(e, r)[|Fields(e, r)| - 1] == e.ctime(r.date)[23];
  }

  /** The record as the line that the reader gets, its newlines plain. */
  function Body(e: Env, r: Rec): Str {
    EscWhite(r.name) + Fields(e, r)
  }

  predicate GoodRec(e: Env, r: Rec) {
    GoodPath(r.name) && GoodLevel(r.level) && GoodDate(e, r.date) && |Body(e, r)| + 2 <= e.bufsiz
  }

  lemma RecTextIsLine(e: Env, r: Rec)
    requires GoodLevel(r.level) && NoNl(e.ctime(r.date))
    ensures RecText(e, r) == EscNl(Body(e, r)) + [NL]
  {
    FieldsNoNl(e, r);
    hide Esc, EscNl, EscWhite, LevelText;
    EscBoth(r.name);
    EscNlJoin(EscWhite(r.name), Fields(e, r));
    EscNlNone(Fields(e, r));
    Laced(Esc(r.name), LevelText(r.level), e.ctime(r.date));
  }

  lemma FieldsNoNl(e: Env, r: Rec)
    requires GoodLevel(r.level) && NoNl(e.ctime(r.date))
    ensures NoNl(Fields(e, r))
  {
  }

  lemma Laced(name: Str, level: Str, date: Str)
    ensures name + [TAB] + level + [TAB] + date + [NL] == name + ([TAB] + level + [TAB] + date) + [NL]
  {
  }

  lemma BodyFine(e: Env, r: Rec)
    requires HashFree(r.name) && GoodLevel(r.level) && GoodDate(e, r.date)
    ensures HashFree(Body(e, r)) && !EndsInBackslash(Body(e, r))
  {
    EscWhiteFine(r.name);
    FieldsFine(e, r);
    hide EscWhite, Fields, GoodDate, GoodLevel;
  }

  lemma FieldsRead(e: Env, level: int, date: int)
    requires GoodLevel(level) && GoodDate(e, date)
    ensures var s := LevelText(level) + [TAB] + e.ctime(date);
      && s != [] && !White(s[0]) && DdLevel(s) == (level, e.ctime(date))
      && SkipWhite(e.ctime(date)) == e.ctime(date) == Cut(e.ctime(date), 24)
  {
    var s := LevelText(level) + [TAB] + e.ctime(date);
    assert SkipWhite(s) == s && s[2..] == e.ctime(date);
    if !IsLbr(level) {
      assert DigitRun(s) == 1 && s[..1] == [DIGIT0 + level];
      assert [DIGIT0 + level][..0] == [];
      assert AtoiOf([DIGIT0 + level]) == level;
    }
  }

  /** The line of a record parses to the record. */
  lemma BodyParses(e: Env, r: Rec)
    requires GoodPath(r.name) && GoodLevel(r.level) && GoodDate(e, r.date)
    ensures MakeRec(e, Body(e, r)) == r
  {
    var fields := LevelText(r.level) + [TAB] + e.ctime(r.date);
    FieldsRead(e, r.level, r.date);
    assert Body(e, r) == EscWhite(r.name) + [TAB] + fields;
    NameReadsIff(r.name, fields);
  }

  /** Writing a record and reading it back, whatever text follows it. */
  lemma RecordReads(e: Env, r: Rec, rest: Str)
    requires GoodRec(e, r)
    ensures GetRecord(e, RecText(e, r) + rest) == Some((r, rest))
  {
    hide EscNl, RecText, GetLine, MakeRec, HashFree;
    RecTextIsLine(e, r);
    BodyFine(e, r);
    BodyParses(e, r);
    LineReads(Body(e, r), rest, e.bufsiz, []);
    assert [] + Body(e, r) == Body(e, r);
    assert Body(e, r) != [];
  }

  /** A record too long for the line buffer stops the reading: it and every record behind it are lost. */
  lemma TooLongLosesRest(e: Env, r: Rec, rest: Str)
    requires HashFree(r.name) && GoodLevel(r.level) && GoodDate(e, r.date) && 2 <= e.bufsiz < |Body(e, r)| + 2
    ensures ReadAll(e, RecText(e, r) + rest) == []
  {
    hide EscNl, RecText, GetLine, MakeRec, HashFree;
    RecTextIsLine(e, r);
    BodyFine(e, r);
    LineReads(Body(e, r), rest, e.bufsiz, []);
  }

  /** A one-line record whose path starts with the comment sign is passed over as a comment. */
  lemma HashIsComment(e: Env, r: Rec, rest: Str)
    requires r.name != [] && r.name[0] == HASH && NoNl(r.name) && GoodLevel(r.level) && GoodDate(e, r.date)
    requires |Body(e, r)| + 2 <= e.bufsiz
    ensures GetRecord(e, RecText(e, r) + rest) == GetRecord(e, rest)
  {
    RecTextIsLine(e, r);
    var b := Body(e, r);
    EscWhiteFine(r.name);
    EscWhiteNoNl(r.name);
    EscNlNone(b);
    FgetsLine(b, rest, e.bufsiz);
    assert (b + [NL] + rest)[|b| + 1..] == rest;
    assert RecText(e, r) + rest == b + [NL] + rest;
    assert GetLine(b + [NL] + rest, e.bufsiz, []) == GetLine(rest, e.bufsiz, []);
  }

  lemma {:induction false} EscWhiteNoNl(nm: Str)
    requires NoNl(nm)
    ensures NoNl(EscWhite(nm))
  {
    if nm != [] {
      EscWhiteNoNl(nm[1..]);
    }
  }

  lemma {:induction false} EscNulFree(nm: Str)
    requires NulFree(nm)
    ensures NulFree(Esc(nm))
  {
    if nm != [] {
      EscNulFree(nm[1..]);
    }
  }

  lemma RecTextNulFree(e: Env, r: Rec)
    requires GoodRec(e, r)
    ensures NulFree(RecText(e, r))
  {
    EscNulFree(r.name);
    hide Esc;
  }

  // ---- exactly when a record comes back ----

  lemma {:induction false} EscWhitePrefix(nm: Str, k: nat)
    requires k <= |nm|
    ensures EscWhite(nm[..k]) <= EscWhite(nm)
  {
    if k > 0 {
      EscWhitePrefix(nm[1..], k - 1);
      assert nm[..k][1..] == nm[1..][..k - 1];
    }
  }

  /** A name read from a text stands escaped at its front. */
  lemma {:induction false} UnescapedFront(s: Str)
    ensures EscWhite(Unescape(s).0) <= s
    decreases |s|
  {
    UnescapeStep(s);
    var n := Unescape(s).0;
    if s != [] && !White(s[0]) {
      var i := if s[0] == BACKSLASH && |s| > 1 && White(s[1]) then 1 else 0;
      UnescapedFront(s[i + 1..]);
      hide Unescape;
      assert n[1..] == Unescape(s[i + 1..]).0 && n[0] == s[i];
      assert s == s[..i + 1] + s[i + 1..];
    }
  }

  lemma {:induction false} SkipWhiteIs(s: Str) returns (i: nat)
    ensures i <= |s| && SkipWhite(s) == s[i..]
  {
    i := 0;
    if s != [] && White(s[0]) {
      var j := SkipWhiteIs(s[1..]);
      i := j + 1;
    }
  }

  /** The record has a path or a date that is not 0, so it is not what a date that does not parse leaves. */
  predicate NotFresh(r: Rec) {
    r.name != FRESH.name || r.date != FRESH.date
  }

  /** A line that parses to a record has its escaped name behind leading blanks. */
  lemma ParsedFront(e: Env, r: Rec, line: Str) returns (i: nat)
    requires NotFresh(r) && MakeRec(e, line) == r
    ensures i <= |line| && EscWhite(r.name) <= line[i..]
  {
    i := SkipWhiteIs(line);
    var name := DdName(line).0;
    UnescapedFront(line[i..]);
    EscWhitePrefix(name, |r.name|);
    hide EscWhite;
    assert r.name == Cut(name, MAX_PATH_NAME - 1) == name[..|r.name|];
  }

  /** No line that the reader gives has a comment sign behind a newline. */
  lemma {:induction false} LineHashFree(text: Str, llen: nat, acc: Str)
    requires LinesHashFree(acc) && (acc != [] ==> acc[|acc| - 1] == NL)
    requires GetLine(text, llen, acc).Some?
    ensures LinesHashFree(GetLine(text, llen, acc).value.0)
    decreases |text|
  {
    var chunk := Fgets(text, llen);
    var rest, k := text[|chunk|..], |chunk| - 1;
    LineStep(text, llen, acc, chunk, rest);
    FgetsNoNl(text, llen);
    hide GetLine, Fgets;
    if chunk[0] == HASH {
      LineHashFree(rest, llen, acc);
    } else if k > 0 {
      LineJoins(acc, chunk[..k]);
      if chunk[k - 1] == BACKSLASH {
        LineJoins(acc, chunk[..k - 1]);
        hide LinesHashFree;
        LineHashFree(rest, llen - k, acc + chunk[..k - 1] + [NL]);
      }
    }
  }

  lemma LineJoins(acc: Str, c: Str)
    requires LinesHashFree(acc) && (acc != [] ==> acc[|acc| - 1] == NL) && NoNl(c) && (c != [] ==> c[0] != HASH)
    ensures LinesHashFree(acc + c) && LinesHashFree(acc + c + [NL])
  {
  }

  /** Only the last byte of a piece can be a newline, and a piece does not reach past one. */
  lemma {:induction false} FgetsNoNl(text: Str, n: nat)
    ensures var c := Fgets(text, n);
      && (c != [] ==> NoNl(c[..|c| - 1]))
      && (forall i :: 0 <= i < |text| && text[i] == NL ==> |c| <= i + 1)
      && (text != [] && n >= 2 ==> c != [])
  {
    if text != [] && n > 1 && text[0] != NL {
      FgetsNoNl(text[1..], n - 1);
      var d := Fgets(text[1..], n - 1);
      assert Fgets(text, n) == [text[0]] + d;
      assert d != [] ==> ([text[0]] + d)[..|d|] == [text[0]] + d[..|d| - 1];
    }
  }

  /** A name with a comment sign behind one of its newlines never comes back, wherever it is read from. */
  lemma {:induction false} InnerHashLost(e: Env, r: Rec, text: Str)
    requires NotFresh(r) && !LinesHashFree(r.name) && GetRecord(e, text).Some?
    ensures GetRecord(e, text).value.0 != r
    decreases |text|
  {
    hide MakeRec, LinesHashFree;
    assert LinesHashFree([]) by { EmptyFine(); }
    var l := GetLine(text, e.bufsiz, []).value;
    LineHashFree(text, e.bufsiz, []);
    hide GetLine;
    if l.0 == [] {
      InnerHashLost(e, r, l.1);
    } else if MakeRec(e, l.0) == r {
      var i := ParsedFront(e, r, l.0);
      HashInside(r.name, l.0, i);
    }
  }

  lemma EmptyFine()
    ensures LinesHashFree([])
  {
  }

  lemma HashInside(nm: Str, line: Str, i: nat)
    requires i <= |line| && EscWhite(nm) <= line[i..] && !LinesHashFree(nm)
    ensures !LinesHashFree(line)
  {
    var q := HashBehindNl(nm);
    hide EscWhite;
    assert line[i + q] == line[i..][q] && line[i + q + 1] == line[i..][q + 1];
  }

  /** Escaping keeps a newline and the comment sign behind it together. */
  lemma {:induction false} HashBehindNl(nm: Str) returns (q: nat)
    requires !LinesHashFree(nm)
    ensures q + 1 < |EscWhite(nm)| && EscWhite(nm)[q] == NL && EscWhite(nm)[q + 1] == HASH
  {
    var head := if White(nm[0]) then [BACKSLASH, nm[0]] else [nm[0]];
    assert EscWhite(nm) == head + EscWhite(nm[1..]);
    if nm[0] == NL && nm[1] == HASH {
      q := 0;
      assert EscWhite(nm[1..])[0] == HASH;
    } else {
      assert exists i :: 0 <= i < |nm[1..]| - 1 && nm[1..][i] == NL && nm[1..][i + 1] == HASH by {
        var i :| 0 <= i < |nm| - 1 && nm[i] == NL && nm[i + 1] == HASH;
        assert nm[1..][i - 1] == NL && nm[1..][i] == HASH;
      }
      var p := HashBehindNl(nm[1..]);
      q := p + |head|;
    }
  }

  /** A cut through an escaped text leaves one, behind a newline if it parted that newline from its escape. */
  lemma {:induction false} CutEscaped(v: Str, m: nat) returns (j: nat, parted: bool)
    requires m <= |EscNl(v)|
    ensures j <= |v| && (m > 0 ==> j > 0)
    ensures EscNl(v)[m..] == (if parted then [NL] else []) + EscNl(v[j..])
  {
    if m == 0 {
      j, parted := 0, false;
    } else {
      var head := if v[0] == NL then [BACKSLASH, NL] else [v[0]];
      assert EscNl(v) == head + EscNl(v[1..]);
      if m < |head| {
        j, parted := 1, true;
      } else {
        var i, p := CutEscaped(v[1..], m - |head|);
        j, parted := i + 1, p;
        assert v[1..][i..] == v[j..];
      }
    }
  }

  lemma CommentPassed(e: Env, text: Str)
    requires e.bufsiz >= 2 && text != [] && text[0] == HASH
    ensures var c := Fgets(text, e.bufsiz); c != [] && GetRecord(e, text) == GetRecord(e, text[|c|..])
  {
    FgetsNoNl(text, e.bufsiz);
    LineStep(text, e.bufsiz, [], Fgets(text, e.bufsiz), text[|Fgets(text, e.bufsiz)|..]);
    hide GetLine, Fgets;
  }

  lemma EmptyLinePassed(e: Env, text: Str)
    requires e.bufsiz >= 2
    ensures GetRecord(e, [NL] + text) == GetRecord(e, text)
  {
    FgetsLine([], text, e.bufsiz);
    assert [] + [NL] + text == [NL] + text && ([NL] + text)[1..] == text;
    LineStep([NL] + text, e.bufsiz, [], Fgets([NL] + text, e.bufsiz), text);
  }

  /**
   * Reading from inside a printed record to exactly its end gives the record of a tail of its line that does not
   * start with the comment sign.
   */
  lemma {:induction false} TailIsRead(e: Env, v: Str, rest: Str, r: Rec) returns (j: nat)
    requires e.bufsiz >= 2 && LinesHashFree(v) && !EndsInBackslash(v)
    requires GetRecord(e, EscNl(v) + [NL] + rest) == Some((r, rest))
    ensures j < |v| && v[j] != HASH && MakeRec(e, v[j..]) == r
    decreases |v|
  {
    hide MakeRec, EscNl, GetLine, Fgets;
    var text := EscNl(v) + [NL] + rest;
    if HashFree(v) {
      LineReads(v, rest, e.bufsiz, []);
      assert [] + v == v && v[0..] == v;
      j := 0;
    } else {
      EscNlHead(v);
      CommentPassed(e, text);
      FgetsNoNl(text, e.bufsiz);
      var m := |Fgets(text, e.bufsiz)|;
      assert text[|EscNl(v)|] == NL && text[|EscNl(v)| + 1..] == rest;
      if m == |EscNl(v)| + 1 {
        assert false;
      } else {
        var i, parted := CutEscaped(v, m);
        CutText(EscNl(v), rest, m, EscNl(v[i..]), parted);
        hide GetRecord, LinesHashFree, HashFree;
        EmptyLinePassed(e, EscNl(v[i..]) + [NL] + rest);
        TailHashFree(v, i);
        var p := TailIsRead(e, v[i..], rest, r);
        j := i + p;
        assert v[i..][p..] == v[j..];
      }
    }
  }

  lemma CutText(ev: Str, rest: Str, m: nat, tail: Str, parted: bool)
    requires m <= |ev| && ev[m..] == (if parted then [NL] else []) + tail
    ensures (ev + [NL] + rest)[m..] == if parted then [NL] + (tail + [NL] + rest) else tail + [NL] + rest
  {
    assert (ev + [NL] + rest)[m..] == ev[m..] + [NL] + rest;
  }

  lemma EscNlHead(v: Str)
    requires v != [] && v[0] != NL
    ensures EscNl(v) != [] && EscNl(v)[0] == v[0]
  {
  }

  lemma TailHashFree(v: Str, i: nat)
    requires i <= |v| && LinesHashFree(v) && !EndsInBackslash(v)
    ensures LinesHashFree(v[i..]) && !EndsInBackslash(v[i..])
  {
  }

  lemma LastHash(a: Str) returns (q: nat)
    requires HASH in a
    ensures q < |a| && a[q] == HASH && HASH !in a[q + 1..]
  {
    if a[|a| - 1] == HASH {
      q := |a| - 1;
    } else {
      q := LastHash(a[..|a| - 1]);
      assert a[q + 1..] == a[..|a| - 1][q + 1..] + [a[|a| - 1]];
    }
  }

  /** A text with the comment sign is not found again behind its start when only other characters follow it. */
  lemma FoundOnce(a: Str, tail: Str, i: nat)
    requires HASH in a && HASH !in tail && 0 < i <= |a + tail|
    ensures !(a <= (a + tail)[i..])
  {
    var w := (a + tail)[i..];
    var q := LastHash(a);
    if q < |w| {
      assert w[q] == (a + tail)[i + q];
      assert if i + q < |a| then w[q] == a[q + 1..][i - 1] else w[q] == tail[i + q - |a|];
      assert w[q] != a[q];
    }
  }

  /** A path that starts with the comment sign does not come back. */
  lemma FirstHashLost(e: Env, r: Rec, rest: Str)
    requires NotFresh(r) && GoodLevel(r.level) && GoodDate(e, r.date) && HASH !in e.ctime(r.date)
    requires r.name != [] && r.name[0] == HASH && LinesHashFree(r.name)
    ensures GetRecord(e, RecText(e, r) + rest) != Some((r, rest))
  {
    var b, a, tail := Body(e, r), EscWhite(r.name), Fields(e, r);
    RecTextIsLine(e, r);
    EscWhiteFine(r.name);
    FieldsFine(e, r);
    hide EscNl, RecText, MakeRec, EscWhite, LinesHashFree, GetLine, Fields, GoodDate, GoodLevel, NotFresh, GetRecord;
    TailJoins(a, tail);
    assert HASH in a;
    if GetRecord(e, RecText(e, r) + rest) == Some((r, rest)) {
      SmallBuffer(e, RecText(e, r) + rest);
      var j := TailIsRead(e, b, rest, r);
      var i := ParsedFront(e, r, b[j..]);
      assert b[j..][i..] == b[j + i..];
      FoundOnce(a, tail, j + i);
    }
  }

  lemma TailJoins(a: Str, tail: Str)
    requires LinesHashFree(a) && HASH !in tail && tail != [] && tail[|tail| - 1] != BACKSLASH && NoNl(tail)
    ensures LinesHashFree(a + tail) && !EndsInBackslash(a + tail)
  {
    forall i | 0 <= i < |a + tail| - 1 && (a + tail)[i] == NL ensures (a + tail)[i + 1] != HASH {
      assert i < |a|;
      assert i == |a| - 1 ==> (a + tail)[i + 1] == tail[0];
    }
  }

  /** A line buffer of less than two bytes reads nothing. */
  lemma SmallBuffer(e: Env, text: Str)
    ensures e.bufsiz < 2 ==> GetRecord(e, text) == None
  {
    LineStep(text, e.bufsiz, [], Fgets(text, e.bufsiz), text[|Fgets(text, e.bufsiz)|..]);
  }

  /** A record without the comment sign at a line's start. */
  lemma PlainReadsIff(e: Env, r: Rec, rest: Str)
    requires NotFresh(r) && |r.name| < MAX_PATH_NAME && NulFree(r.name)
    requires GoodLevel(r.level) && GoodDate(e, r.date) && HashFree(r.name) && e.bufsiz >= 2
    ensures GetRecord(e, RecText(e, r) + rest) == Some((r, rest)) <==>
              r.name != [] && !EndsInBackslash(r.name) && |Body(e, r)| + 2 <= e.bufsiz
  {
    RecTextIsLine(e, r);
    BodyFine(e, r);
    BodyParsesIff(e, r);
    hide EscNl, RecText, MakeRec, HashFree, GetLine;
    LineReads(Body(e, r), rest, e.bufsiz, []);
    assert [] + Body(e, r) == Body(e, r) && Body(e, r) != [];
  }

  lemma BodyParsesIff(e: Env, r: Rec)
    requires NotFresh(r) && |r.name| < MAX_PATH_NAME && NulFree(r.name)
    requires GoodLevel(r.level) && GoodDate(e, r.date) && HashFree(r.name)
    ensures MakeRec(e, Body(e, r)) == r <==> r.name != [] && !EndsInBackslash(r.name)
  {
    var fields := LevelText(r.level) + [TAB] + e.ctime(r.date);
    FieldsRead(e, r.level, r.date);
    assert Body(e, r) == EscWhite(r.name) + [TAB] + fields;
    EscWhiteFine(r.name);
    var s := EscWhite(r.name) + [TAB] + fields;
    if r.name == [] {
      assert SkipWhite(s) == SkipWhite(fields) == fields;
      assert DdName(s).0 != [];
    } else if EndsInBackslash(r.name) {
      assert SkipWhite(s) == s;
      UnescapeSwallows(r.name, fields);
    } else {
      BodyParses(e, r);
    }
  }

  /**
   * Exactly when a record comes back, whatever text follows it: its path is not empty, has no comment sign at the
   * start of any of its lines, does not end in a backslash, and its line fits the buffer with newline and NUL.
   */
  lemma RecordReadsIff(e: Env, r: Rec, rest: Str)
    requires NotFresh(r) && |r.name| < MAX_PATH_NAME && NulFree(r.name)
    requires GoodLevel(r.level) && GoodDate(e, r.date) && HASH !in e.ctime(r.date)
    ensures GetRecord(e, RecText(e, r) + rest) == Some((r, rest)) <==>
              && r.name != [] && HashFree(r.name) && !EndsInBackslash(r.name)
              && |Body(e, r)| + 2 <= e.bufsiz
  {
    hide GetRecord, RecText, EscWhite;
    SmallBuffer(e, RecText(e, r) + rest);
    if !LinesHashFree(r.name) {
      if GetRecord(e, RecText(e, r) + rest).Some? {
        InnerHashLost(e, r, RecText(e, r) + rest);
      }
    } else if !HashFree(r.name) {
      FirstHashLost(e, r, rest);
    } else if e.bufsiz >= 2 {
      PlainReadsIff(e, r, rest);
    }
  }

  /** A text whose last line is continued is read and goes on with what follows. */
  lemma {:induction false} ContinuedReads(u: Str, rest: Str, llen: nat, acc: Str)
    requires HashFree(u) && llen >= 2
    ensures GetLine(EscNl(u) + [BACKSLASH, NL] + rest, llen, acc) ==
              if |u| + 3 <= llen then GetLine(rest, llen - (|u| + 1), acc + u + [NL]) else None
    decreases |u|
  {
    hide GetLine, EscNl, HashFree;
    var k := FirstNl(u);
    EscNlSplit(u);
    if k == |u| {
      assert u[..k] == u && EscNl(u) == u;
      ContinuedLine(u, rest, llen, acc);
    } else {
      var v := u[k + 1..];
      HeadFine(u, k);
      ContinuedPieces(acc, u[..k], v, EscNl(v), rest);
      ContinuedLine(u[..k], EscNl(v) + [BACKSLASH, NL] + rest, llen, acc);
      assert u == u[..k] + [NL] + v;
      if k + 3 <= llen {
        ContinuedReads(v, rest, llen - (k + 1), acc + u[..k] + [NL]);
      }
    }
  }

  lemma HeadFine(u: Str, k: nat)
    requires k < |u| && u[k] == NL && HashFree(u)
    ensures HashFree(u[k + 1..]) && HashFree(u[..k])
  {
  }

  lemma ContinuedPieces(acc: Str, a: Str, v: Str, ev: Str, rest: Str)
    ensures (a + ([BACKSLASH, NL] + ev)) + [BACKSLASH, NL] + rest == a + [BACKSLASH, NL] + (ev + [BACKSLASH, NL] + rest)
    ensures acc + a + [NL] + v + [NL] == acc + (a + [NL] + v) + [NL]
  {
  }

  lemma {:induction false} EscWhiteJoin(a: Str, b: Str)
    ensures EscWhite(a + b) == EscWhite(a) + EscWhite(b)
  {
    if a == [] {
      assert a + b == b;
    } else {
      var ab := a + b;
      assert ab[1..] == a[1..] + b && ab[0] == a[0];
      EscWhiteJoin(a[1..], b);
      Associate(if White(a[0]) then [BACKSLASH, a[0]] else [a[0]], EscWhite(a[1..]), EscWhite(b));
    }
  }

  lemma EscWhiteLines(a: Str, h: Str)
    ensures EscWhite(a + [NL] + h) == EscWhite(a) + [NL] + EscWhite(h)
  {
    assert EscWhite([NL]) == [NL];
    EscWhiteJoin(a + [NL], h);
    EscWhiteJoin(a, [NL]);
  }

  lemma EscNlLines(u: Str, v: Str)
    requires NoNl(v)
    ensures EscNl(u + [NL] + v) == EscNl(u) + [BACKSLASH, NL] + v
  {
    assert EscNl([NL]) == [BACKSLASH, NL];
    EscNlJoin(u + [NL], v);
    EscNlJoin(u, [NL]);
    EscNlNone(v);
  }

  /** The text of a record whose path is a, a newline, and one more line. */
  lemma SwallowText(e: Env, r: Rec, a: Str, h: Str, tail: Str)
    requires r.name == a + [NL] + h && NoNl(h) && GoodLevel(r.level) && GoodDate(e, r.date)
    requires tail == EscWhite(h) + Fields(e, r)
    ensures NoNl(tail) && RecText(e, r) == EscNl(EscWhite(a)) + [BACKSLASH, NL] + tail + [NL]
    ensures |Body(e, r)| == |EscWhite(a)| + 1 + |tail|
  {
    hide EscWhite, EscNl, RecText, Fields, NoNl, LevelText, GoodLevel;
    FieldsFine(e, r);
    assert NoNl(e.ctime(r.date));
    hide GoodDate;
    RecTextIsLine(e, r);
    EscWhiteLines(a, h);
    EscWhiteNoNl(h);
    NoNlJoin(EscWhite(h), Fields(e, r));
    EscNlLines(EscWhite(a), tail);
    Associate(EscWhite(a) + [NL], EscWhite(h), Fields(e, r));
  }

  lemma NoNlJoin(a: Str, b: Str)
    requires NoNl(a) && NoNl(b)
    ensures NoNl(a + b)
  {
  }

  /**
   * A path with a newline and a comment sign behind it takes the next record with it: that one comes back under a
   * path with the first part glued in front.
   */
  lemma InnerHashSwallowsNext(e: Env, r: Rec, a: Str, h: Str, next: Rec, rest: Str)
    requires r.name == a + [NL] + h && HashFree(a) && NoNl(h) && h != [] && h[0] == HASH
    requires GoodLevel(r.level) && GoodDate(e, r.date) && GoodRec(e, next) && |a| + 1 + |next.name| < MAX_PATH_NAME
    requires |EscWhite(a)| + 1 + |Body(e, next)| + 2 <= e.bufsiz && |Body(e, r)| + 2 <= e.bufsiz
    ensures GetRecord(e, RecText(e, r) + RecText(e, next) + rest) ==
              Some((Rec(a + [NL] + next.name, next.level, next.date), rest))
  {
    var u, tail, b := EscWhite(a), EscWhite(h) + Fields(e, r), Body(e, next);
    SwallowText(e, r, a, h, tail);
    RecTextIsLine(e, next);
    SwallowFacts(e, a, h, next);
    assert tail[0] == HASH;
    hide EscNl, RecText, GetLine, MakeRec, EscWhite, GoodRec, Body, Fields, HashFree, GoodDate, NoNl;
    SwallowLine(u, tail, b, rest, e.bufsiz);
    assert u + [NL] + b != [];
  }

  lemma SwallowFacts(e: Env, a: Str, h: Str, next: Rec)
    requires HashFree(a) && h != [] && h[0] == HASH && GoodRec(e, next) && |a| + 1 + |next.name| < MAX_PATH_NAME
    ensures HashFree(EscWhite(a)) && HashFree(Body(e, next)) && !EndsInBackslash(Body(e, next))
    ensures EscWhite(h) != [] && EscWhite(h)[0] == HASH
    ensures MakeRec(e, EscWhite(a) + [NL] + Body(e, next)) == Rec(a + [NL] + next.name, next.level, next.date)
  {
    EscWhiteFine(a);
    EscWhiteFine(h);
    BodyFine(e, next);
    GluedParses(e, a, next);
    hide EscWhite, MakeRec, Body, LinesHashFree;
  }

  /** A comment inside a continued line is dropped, and the line goes on behind it. */
  lemma SwallowLine(u: Str, tail: Str, b: Str, rest: Str, llen: nat)
    requires HashFree(u) && NoNl(tail) && tail != [] && tail[0] == HASH && HashFree(b) && !EndsInBackslash(b)
    requires |u| + 1 + |b| + 2 <= llen && |u| + 1 + |tail| + 2 <= llen
    ensures GetLine(EscNl(u) + [BACKSLASH, NL] + tail + [NL] + (EscNl(b) + [NL]) + rest, llen, []) ==
              Some((u + [NL] + b, rest))
  {
    hide EscNl, GetLine, HashFree, NoNl;
    var text2 := EscNl(b) + [NL] + rest;
    SwallowRegroup(EscNl(u), tail, EscNl(b), rest);
    ContinuedReads(u, tail + [NL] + text2, llen, []);
    assert [] + u + [NL] == u + [NL];
    CommentLine(tail, text2, llen - (|u| + 1), u + [NL]);
    LineReads(b, rest, llen - (|u| + 1), u + [NL]);
  }

  lemma SwallowRegroup(u: Str, tail: Str, b: Str, rest: Str)
    ensures u + [BACKSLASH, NL] + tail + [NL] + (b + [NL]) + rest ==
              u + [BACKSLASH, NL] + (tail + [NL] + (b + [NL] + rest))
  {
  }

  lemma CommentLine(c: Str, rest: Str, llen: nat, acc: Str)
    requires c != [] && c[0] == HASH && NoNl(c) && |c| + 2 <= llen
    ensures GetLine(c + [NL] + rest, llen, acc) == GetLine(rest, llen, acc)
  {
    var t := c + [NL] + rest;
    FgetsLine(c, rest, llen);
    LineStep(t, llen, acc, Fgets(t, llen), t[|Fgets(t, llen)|..]);
    hide GetLine, Fgets;
    assert t[|c| + 1..] == rest;
  }

  lemma GluedParses(e: Env, a: Str, next: Rec)
    requires HashFree(a) && GoodRec(e, next) && |a| + 1 + |next.name| < MAX_PATH_NAME
    ensures var glued := Rec(a + [NL] + next.name, next.level, next.date);
      MakeRec(e, EscWhite(a) + [NL] + Body(e, next)) == glued
  {
    var name := a + [NL] + next.name;
    var fields := LevelText(next.level) + [TAB] + e.ctime(next.date);
    FieldsRead(e, next.level, next.date);
    EscWhiteLines(a, next.name);
    GluedName(a, next.name);
    assert next.name != [];
    hide EscWhite, DdLevel, LevelText, DdName;
    GluedLine(EscWhite(a), EscWhite(next.name), LevelText(next.level), e.ctime(next.date));
    NameReadsIff(name, fields);
    assert Cut(name, MAX_PATH_NAME - 1) == name;
  }

  lemma GluedLine(a: Str, nm: Str, level: Str, date: Str)
    ensures a + [NL] + (nm + ([TAB] + level + [TAB] + date)) == a + [NL] + nm + [TAB] + (level + [TAB] + date)
  {
  }

  lemma GluedName(a: Str, nm: Str)
    requires nm != [] && !EndsInBackslash(nm)
    ensures a + [NL] + nm != [] && !EndsInBackslash(a + [NL] + nm)
  {
  }
}
