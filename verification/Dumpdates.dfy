/** The dumpdates store: a text file rewritten on every put, which behaves as a map (ndmpd_dtime.c). */
module Dumpdates {
  import opened Bytes
  import T = DumpdatesText

  /** A text file open for reading. */
  class File {
    const text: Str
    var pos: nat

    ghost predicate Valid()
      reads this
    {
      pos <= |text|
    }

    ghost function Rest(): Str
      requires Valid()
      reads this
    {
      text[pos..]
    }

    constructor (text: Str)
      ensures Valid() && Rest() == text && this.text == text
    {
      this.text, pos := text, 0;
    }

    /** fgets into buf at an offset, n bytes of room. */
    method Fgets(buf: array<byte>, at: nat, n: nat) returns (k: nat)
      requires Valid() && at + n <= buf.Length
      modifies `pos, buf
      ensures Valid() && k < n + 1 && (k < n || n == 0)
      ensures buf[at..at + k] == T.Fgets(old(Rest()), n) && Rest() == old(Rest())[k..]
      ensures buf[..at] == old(buf[..at])
    {
      k := 0;
      var more := true;
      ghost var rest := Rest();
      while more && k + 1 < n && pos < |text|
        invariant Valid() && k <= |rest| && pos == old(pos) + k && (k < n || n == k == 0)
        invariant buf[..at] == old(buf[..at]) && buf[at..at + k] == rest[..k]
        invariant if more then T.NoNl(rest[..k]) else k > 0 && rest[k - 1] == T.NL && T.NoNl(rest[..k - 1])
        decreases |text| - pos
      {
        buf[at + k] := text[pos];
        more := text[pos] != T.NL;
        pos, k := pos + 1, k + 1;
      }
      T.FgetsIs(rest, n, k);
      assert Rest() == rest[k..];
      if k > 0 {
        buf[at + k] := 0;
      }
    }
  }

  /** getline_ndmpd: pieces are joined in the buffer; the line ends with a NUL. */
  method GetLine(f: File, buf: array<byte>) returns (len: Option<nat>)
    requires f.Valid() && buf.Length >= 2
    modifies f`pos, buf
    ensures f.Valid()
    ensures var r := T.GetLine(old(f.Rest()), buf.Length, []);
      && len.Some? == r.Some?
      && (r.Some? ==> len.value < buf.Length && buf[..len.value] == r.value.0 && buf[len.value] == 0 &&
                      f.Rest() == r.value.1)
  {
    hide T.GetLine, T.Fgets;
    var line, llen := 0, buf.Length;
    assert buf[..0] == [];
    while true
      invariant f.Valid() && line + llen == buf.Length && llen >= 2
      invariant T.GetLine(f.Rest(), llen, buf[..line]) == T.GetLine(old(f.Rest()), buf.Length, [])
      decreases |f.text| - f.pos
    {
      ghost var rest, acc := f.Rest(), buf[..line];
      var k := f.Fgets(buf, line, llen);
      ghost var chunk := buf[line..line + k];
      T.LineStep(rest, llen, acc, chunk, f.Rest());
      if k == 0 {
        return None;
      }
      if buf[line] == T.HASH {
        continue;
      }
      var end := line + k - 1;
      if buf[end] != T.NL {
        return None;
      }
      buf[end] := 0;
      if k == 1 {
        return Some(line);
      }
      assert buf[..end] == acc + chunk[..k - 1];
      if buf[end - 1] != T.BACKSLASH {
        return Some(end);
      }
      buf[end - 1] := T.NL;
      assert buf[..end] == acc + chunk[..k - 2] + [T.NL];
      line, llen := end, llen - (k - 1);
    }
  }

  lemma {:induction false} SkipWhiteAt(s: Str, i: nat)
    requires i <= |s| && (forall j :: 0 <= j < i ==> T.White(s[j])) && (i < |s| ==> !T.White(s[i]))
    ensures T.SkipWhite(s) == s[i..]
  {
    if i > 0 {
      SkipWhiteAt(s[1..], i - 1);
    }
  }

  /** strspn over blanks and tabs. */
  method SkipBlanks(buf: array<byte>, end: nat) returns (save: nat)
    requires end < buf.Length && buf[end] == 0
    ensures save <= end && T.SkipWhite(buf[..end]) == buf[save..end]
  {
    save := 0;
    while T.White(buf[save])
      invariant save <= end
      invariant forall j :: 0 <= j < save ==> T.White(buf[j])
      decreases end - save
    {
      save := save + 1;
    }
    SkipWhiteAt(buf[..end], save);
    assert buf[..end][save..] == buf[save..end];
  }

  /** One byte of the name is copied down, past a backslash that escapes it. */
  method CopyDown(buf: array<byte>, ghost save: nat, h: nat, bp: nat, end: nat) returns (bp': nat)
    requires save <= h <= bp < end < buf.Length && buf[end] == 0 && buf[bp] != 0 && !T.White(buf[bp])
    modifies buf
    ensures bp < bp' <= end && h < bp'
    ensures var (n, r) := old(T.Unescape(buf[bp..end])); var (n', r') := T.Unescape(buf[bp'..end]);
            old(buf[save..h]) + n == buf[save..h + 1] + n' && r == r'
    ensures forall i :: bp' <= i < buf.Length ==> buf[i] == old(buf[i])
  {
    hide T.Unescape;
    ghost var name, s := buf[save..h], buf[bp..end];
    bp' := bp;
    if buf[bp] == T.BACKSLASH && T.White(buf[bp + 1]) {
      bp' := bp + 1;
    }
    ghost var i := bp' - bp;
    CopyStep(name, s, i);
    hide T.White;
    assert s[i + 1..] == buf[bp' + 1..end];
    buf[h] := buf[bp'];
    assert buf[save..h + 1] == name + [s[i]];
    bp' := bp' + 1;
    assert buf[bp'..end] == s[i + 1..];
  }

  /**
   * get_ddname: the name is unescaped in place. It lies in buf[save..h], closed by a NUL, and bp is where the next
   * field begins; the bytes behind that are untouched.
   */
  method GetDdname(buf: array<byte>, end: nat) returns (save: nat, h: nat, bp: nat)
    requires end < buf.Length && buf[end] == 0 && NulFree(buf[..end])
    modifies buf
    ensures save <= h <= bp <= end && buf[h] == 0
    ensures T.DdName(old(buf[..end])) == (buf[save..h], buf[bp..end])
  {
    hide T.Unescape, T.SkipWhite;
    ghost var was := buf[..];
    assert was[..end] == buf[..end];
    save := SkipBlanks(buf, end);
    h, bp := save, save;
    ghost var spec := T.Unescape(was[save..end]);
    assert buf[save..end] == was[save..end] && buf[save..h] + spec.0 == spec.0;
    while buf[bp] != 0
      invariant save <= h <= bp <= end && (forall i :: bp <= i < buf.Length ==> buf[i] == was[i])
      invariant spec == (buf[save..h] + T.Unescape(buf[bp..end]).0, T.Unescape(buf[bp..end]).1)
      decreases end - bp
    {
      if T.White(buf[bp]) {
        T.UnescapeStep(buf[bp..end]);
        assert buf[bp..end][1..] == buf[bp + 1..end] && buf[save..h] + [] == buf[save..h];
        bp := bp + 1;
        buf[h] := 0;
        return;
      }
      bp := CopyDown(buf, save, h, bp, end);
      h := h + 1;
    }
    AtEnd(was[..end], bp);
    T.UnescapeStep(buf[bp..end]);
    assert buf[save..h] + [] == buf[save..h];
    buf[h] := 0;
  }

  lemma AtEnd(s: Str, bp: nat)
    requires NulFree(s) && bp <= |s|
    ensures bp < |s| ==> s[bp] != 0
  {
  }

  lemma CopyStep(name: Str, s: Str, i: nat)
    requires s != [] && !T.White(s[0])
    requires i == if s[0] == T.BACKSLASH && |s| > 1 && T.White(s[1]) then 1 else 0
    ensures var (n, r) := T.Unescape(s); var (n', r') := T.Unescape(s[i + 1..]);
            name + n == name + [s[i]] + n' && r == r'
  {
    hide T.Unescape;
    T.UnescapeStep(s);
    Spelled(name, s[i], T.Unescape(s[i + 1..]).0);
  }

  lemma Spelled(name: Str, c: byte, more: Str)
    ensures name + ([c] + more) == name + [c] + more
  {
  }

  /** What a round hands on is free of NULs when its text and what was joined so far are. */
  lemma RoundNulFree(text: Str, llen: nat, acc: Str)
    requires NulFree(text) && NulFree(acc)
    ensures var chunk := T.Fgets(text, llen); var k := |chunk| - 1;
      && NulFree(text[|chunk|..])
      && (k >= 0 ==> NulFree(acc + chunk[..k]))
      && (k >= 1 ==> NulFree(acc + chunk[..k - 1] + [T.NL]))
  {
    hide T.Fgets;
  }

  lemma {:induction false} LineNulFree(text: Str, llen: nat, acc: Str)
    requires NulFree(text) && NulFree(acc)
    ensures T.GetLine(text, llen, acc).Some? ==> NulFree(T.GetLine(text, llen, acc).value.0)
    decreases |text|
  {
    RoundNulFree(text, llen, acc);
    hide NulFree, T.Fgets;
    var chunk := T.Fgets(text, llen);
    if chunk != [] {
      if chunk[0] == T.HASH {
        LineNulFree(text[|chunk|..], llen, acc);
      } else if |chunk| > 1 && |chunk| - 1 < llen {
        LineNulFree(text[|chunk|..], llen - (|chunk| - 1), acc + chunk[..|chunk| - 2] + [T.NL]);
      }
    }
  }

  /** getrecord: the next record, its name unescaped in the line buffer. */
  method GetRecord(e: T.Env, f: File) returns (r: Option<T.Rec>)
    requires f.Valid() && NulFree(f.text) && e.bufsiz >= 2
    modifies f`pos
    ensures f.Valid()
    ensures var spec := T.GetRecord(e, old(f.Rest()));
      r.Some? == spec.Some? && (spec.Some? ==> r.value == spec.value.0 && f.Rest() == spec.value.1)
  {
    var buf := new byte[e.bufsiz];
    while true
      invariant f.Valid() && T.GetRecord(e, f.Rest()) == T.GetRecord(e, old(f.Rest()))
      decreases |f.text| - f.pos
    {
      hide T.GetLine;
      LineNulFree(f.Rest(), buf.Length, []);
      var len := GetLine(f, buf);
      if len.None? {
        return None;
      }
      if len.value == 0 {
        continue;
      }
      ghost var line := buf[..len.value];
      var save, h, bp := GetDdname(buf, len.value);
      var level, rest := T.DdLevel(buf[bp..len.value]).0, T.DdLevel(buf[bp..len.value]).1;
      var date := e.unctime(Cut(T.SkipWhite(rest), 24));
      r := Some(if date.None? then T.Rec(T.FRESH.name, level, T.FRESH.date)
                else T.Rec(Cut(buf[save..h], MAX_PATH_NAME - 1), level, date.value));
      assert r.value == T.MakeRec(e, line);
      return;
    }
  }

  lemma ReadStep(e: T.Env, text: Str)
    ensures var r := T.GetRecord(e, text);
      T.ReadAll(e, text) == if r.None? then [] else [r.value.0] + T.ReadAll(e, r.value.1)
  {
  }

  lemma Onto<A>(list: seq<A>, a: A, more: seq<A>)
    ensures list + ([a] + more) == list + [a] + more
  {
  }

  /** readdumptimes: the list of all records. */
  method ReadDumpTimes(e: T.Env, text: Str) returns (list: seq<T.Rec>)
    requires NulFree(text) && e.bufsiz >= 2
    ensures list == T.ReadAll(e, text)
  {
    hide T.GetRecord, T.ReadAll;
    var f := new File(text);
    list := [];
    while true
      invariant f.Valid() && f.text == text && list + T.ReadAll(e, f.Rest()) == T.ReadAll(e, text)
      decreases |text| - f.pos
    {
      ReadStep(e, f.Rest());
      ghost var was := list;
      var r := GetRecord(e, f);
      if r.None? {
        assert list + [] == list;
        return;
      }
      list := list + [r.value];
      Onto(was, r.value, T.ReadAll(e, f.Rest()));
    }
  }

  predicate Hit(r: T.Rec, path: Str, level: int) {
    r.level == level && r.name == path
  }

  /** What a put makes of the list: matching records get the date; without one a record is appended. */
  function PutList(rs: seq<T.Rec>, path: Str, level: int, date: int): seq<T.Rec> {
    Updated(rs, path, level, date) +
      if exists i :: 0 <= i < |rs| && Hit(rs[i], path, level) then []
      else [T.Rec(Cut(path, MAX_PATH_NAME - 1), level, date)]
  }

  function Updated(rs: seq<T.Rec>, path: Str, level: int, date: int): (r: seq<T.Rec>)
    ensures |r| == |rs|
    ensures forall i :: 0 <= i < |rs| ==> r[i] == if Hit(rs[i], path, level) then rs[i].(date := date) else rs[i]
  {
    if rs == [] then [] else
      Updated(rs[..|rs| - 1], path, level, date) +
        [if Hit(rs[|rs| - 1], path, level) then rs[|rs| - 1].(date := date) else rs[|rs| - 1]]
  }

  /** The records as they are written to the file. */
  function Dump(e: T.Env, rs: seq<T.Rec>): Str {
    if rs == [] then [] else T.RecText(e, rs[0]) + Dump(e, rs[1..])
  }

  /** dumprecout. */
  method DumpRecOut(e: T.Env, r: T.Rec) returns (out: Str)
    ensures out == T.RecText(e, r)
  {
    out := T.PutDdname(r.name);
    out := out + [T.TAB] + T.LevelText(r.level) + [T.TAB] + e.ctime(r.date) + [T.NL];
  }

  /** The first record of that path and level with a later date. */
  function First(rs: seq<T.Rec>, path: Str, level: int, t: int): Option<T.Rec> {
    if rs == [] then None
    else if Hit(rs[0], path, level) && rs[0].date > t then Some(rs[0])
    else First(rs[1..], path, level, t)
  }

  /** find_date. */
  method FindDate(list: seq<T.Rec>, path: Str, level: int, t: int) returns (found: Option<T.Rec>)
    ensures found == First(list, path, level, t)
  {
    for i := 0 to |list|
      invariant First(list, path, level, t) == First(list[i..], path, level, t)
    {
      if list[i].level == level && list[i].date > t && path == list[i].name {
        return Some(list[i]);
      }
    }
    return None;
  }

  /** The highest level below with a later date, and that date. */
  function Below(rs: seq<T.Rec>, path: Str, level: int, t: int): (int, int)
    decreases level
  {
    if level <= 0 then (0, 0) else
      var r := First(rs, path, level - 1, t);
      if r.Some? then (level - 1, r.value.date) else Below(rs, path, level - 1, t)
  }

  /** ndmpd_get_dumptime on the list: the level and the date to start from. */
  function DumpTime(rs: seq<T.Rec>, path: Str, level: int, t: int): (int, int) {
    if level == 0 then (0, 0)
    else if T.IsLbr(level) then
      var r := First(rs, path, level, t);
      (level, if r.Some? then r.value.date else 0)
    else Below(rs, path, level, t)
  }

  /** The dumpdates file, None until it is made. */
  class Store {
    const e: T.Env
    var file: Option<Str>

    ghost predicate Valid()
      reads this
    {
      e.bufsiz >= 2 && NulFree(Text())
    }

    ghost function Text(): Str
      reads this
    {
      if file.None? then [] else file.value
    }

    constructor (e: T.Env)
      requires e.bufsiz >= 2
      ensures Valid() && Text() == [] && this.e == e
    {
      this.e, file := e, None;
    }

    /** initdumptimes: a missing file is made. */
    method InitDumpTimes() returns (list: seq<T.Rec>)
      requires Valid()
      modifies this
      ensures Valid() && Text() == old(Text()) && list == T.ReadAll(e, Text())
    {
      if file.None? {
        file := Some([]);
      }
      list := ReadDumpTimes(e, file.value);
    }

    /** putdumptime: the whole file is read, changed in memory and written anew. */
    method PutDumpTime(path: Str, level: int, date: int)
      requires Valid()
      modifies this
      ensures var rs := PutList(T.ReadAll(e, old(Text())), path, level, date);
        Text() == Dump(e, rs) && (AllGood(e, rs) ==> Valid())
    {
      hide Dump, T.ReadAll, AllGood;
      ghost var rs := PutList(T.ReadAll(e, Text()), path, level, date);
      var list := InitDumpTimes();
      var now, found := UpdateList(list, path, level, date);
      var out := DumpAll(e, now);
      if !found {
        var r := T.Rec(Cut(path, MAX_PATH_NAME - 1), level, date);
        var text := DumpAll(e, [r]);
        DumpJoin(e, now, [r]);
        out := out + text;
      } else {
        assert now + [] == now;
      }
      file := Some(out);
      if AllGood(e, rs) {
        DumpNulFree(e, rs);
      }
    }

    /** ndmpd_get_dumptime. */
    method GetDumpTime(path: Str, level: int, t: int) returns (from: int, date: int)
      requires Valid()
      modifies this
      ensures Valid() && Text() == old(Text())
      ensures (from, date) == DumpTime(T.ReadAll(e, Text()), path, level, t)
    {
      if level == 0 {
        return 0, 0;
      }
      var list := InitDumpTimes();
      if list == [] {
        BelowNone(path, level, t);
        return if T.IsLbr(level) then level else 0, 0;
      }
      if T.IsLbr(level) {
        var save := FindDate(list, path, level, t);
        return level, if save.Some? then save.value.date else 0;
      }
      var i := level - 1;
      while i >= 0
        invariant i <= level - 1 && Valid() && Text() == old(Text())
        invariant Below(list, path, level, t) == Below(list, path, i + 1, t)
      {
        var save := FindDate(list, path, i, t);
        if save.Some? {
          FirstHits(list, path, i, t);
          return save.value.level, save.value.date;
        }
        i := i - 1;
      }
      return 0, 0;
    }
  }

  predicate AllGood(e: T.Env, rs: seq<T.Rec>) {
    forall i :: 0 <= i < |rs| ==> T.GoodRec(e, rs[i])
  }

  lemma {:induction false} DumpNulFree(e: T.Env, rs: seq<T.Rec>)
    requires AllGood(e, rs)
    ensures NulFree(Dump(e, rs))
  {
    if rs != [] {
      T.RecTextNulFree(e, rs[0]);
      DumpNulFree(e, rs[1..]);
      hide T.RecText;
    }
  }

  lemma {:induction false} BelowNone(path: Str, level: int, t: int)
    ensures Below([], path, level, t) == (0, 0)
    decreases level
  {
    if level > 0 {
      BelowNone(path, level - 1, t);
    }
  }

  lemma {:induction false} FirstHits(rs: seq<T.Rec>, path: Str, level: int, t: int)
    ensures var r := First(rs, path, level, t);
      r.Some? ==> r.value in rs && Hit(r.value, path, level) && r.value.date > t
    ensures First(rs, path, level, t).None? ==> forall r :: r in rs && Hit(r, path, level) ==> r.date <= t
  {
    if rs != [] {
      FirstHits(rs[1..], path, level, t);
      assert rs == [rs[0]] + rs[1..];
    }
  }

  /** The search of putdumptime: every matching record gets the date. */
  method UpdateList(list: seq<T.Rec>, path: Str, level: int, date: int) returns (now: seq<T.Rec>, found: bool)
    ensures now == Updated(list, path, level, date)
    ensures found <==> exists j :: 0 <= j < |list| && Hit(list[j], path, level)
  {
    now, found := list, false;
    for i := 0 to |list|
      invariant |now| == |list|
      invariant found <==> exists j :: 0 <= j < i && Hit(list[j], path, level)
      invariant forall j :: 0 <= j < |list| ==>
                  now[j] == if j < i && Hit(list[j], path, level) then list[j].(date := date) else list[j]
    {
      if now[i].level == level && path == now[i].name {
        found := true;
        now := now[i := now[i].(date := date)];
      }
    }
  }

  method DumpAll(e: T.Env, list: seq<T.Rec>) returns (out: Str)
    ensures out == Dump(e, list)
  {
    hide T.RecText;
    out := [];
    for i := 0 to |list|
      invariant out + Dump(e, list[i..]) == Dump(e, list)
    {
      var text := DumpRecOut(e, list[i]);
      assert list[i..][1..] == list[i + 1..];
      T.Associate(out, text, Dump(e, list[i + 1..]));
      out := out + text;
    }
    assert out + [] == out;
  }

  lemma {:induction false} DumpJoin(e: T.Env, a: seq<T.Rec>, b: seq<T.Rec>)
    ensures Dump(e, a + b) == Dump(e, a) + Dump(e, b)
  {
    hide T.RecText;
    if a == [] {
      assert a + b == b;
      assert [] + Dump(e, b) == Dump(e, b);
    } else {
      DumpJoin(e, a[1..], b);
      assert (a + b)[1..] == a[1..] + b;
      T.Associate(T.RecText(e, a[0]), Dump(e, a[1..]), Dump(e, b));
    }
  }

  // ---- the file as a map ----

  /** Writing good records and reading the file gives the records. */
  lemma {:induction false} ReadsBack(e: T.Env, rs: seq<T.Rec>)
    requires AllGood(e, rs) && e.bufsiz >= 2
    ensures T.ReadAll(e, Dump(e, rs)) == rs
  {
    hide T.RecText, T.GoodRec, T.GetLine;
    if rs == [] {
      assert T.GetLine([], e.bufsiz, []).None? by { T.LineNone(e.bufsiz); }
    } else {
      T.RecordReads(e, rs[0], Dump(e, rs[1..]));
      ReadsBack(e, rs[1..]);
      assert rs == [rs[0]] + rs[1..];
    }
  }

  function Key(r: T.Rec): (Str, int) {
    (r.name, r.level)
  }

  function AsMap(rs: seq<T.Rec>): map<(Str, int), int> {
    if rs == [] then map[] else AsMap(rs[..|rs| - 1])[Key(rs[|rs| - 1]) := rs[|rs| - 1].date]
  }

  /** One record per path and level. */
  predicate Distinct(rs: seq<T.Rec>) {
    forall i, j :: 0 <= i < j < |rs| ==> Key(rs[i]) != Key(rs[j])
  }

  lemma {:induction false} MapAt(rs: seq<T.Rec>, k: (Str, int))
    requires Distinct(rs)
    ensures k in AsMap(rs) <==> exists i :: 0 <= i < |rs| && Key(rs[i]) == k
    ensures forall i :: 0 <= i < |rs| && Key(rs[i]) == k ==> k in AsMap(rs) && AsMap(rs)[k] == rs[i].date
  {
    if rs != [] {
      MapAt(rs[..|rs| - 1], k);
    }
  }

  lemma PutDistinct(rs: seq<T.Rec>, path: Str, level: int, date: int)
    requires Distinct(rs) && |path| < MAX_PATH_NAME
    ensures Distinct(PutList(rs, path, level, date))
  {
    var now := PutList(rs, path, level, date);
    assert forall i :: 0 <= i < |rs| ==> Key(now[i]) == Key(rs[i]);
    assert forall i :: 0 <= i < |rs| ==> (Hit(rs[i], path, level) <==> Key(rs[i]) == (path, level));
  }

  /** A put is a map update, and keeps one record per path and level. */
  lemma PutIsUpdate(rs: seq<T.Rec>, path: Str, level: int, date: int)
    requires Distinct(rs) && |path| < MAX_PATH_NAME
    ensures Distinct(PutList(rs, path, level, date))
    ensures AsMap(PutList(rs, path, level, date)) == AsMap(rs)[(path, level) := date]
  {
    PutDistinct(rs, path, level, date);
    hide AsMap, PutList, Distinct;
    var m, n := AsMap(PutList(rs, path, level, date)), AsMap(rs)[(path, level) := date];
    forall k: (Str, int) ensures Agree(m, n, k) {
      PutAtKey(rs, path, level, date, k);
    }
    SameMap(m, n);
  }

  predicate Agree(m: map<(Str, int), int>, n: map<(Str, int), int>, k: (Str, int)) {
    (k in m <==> k in n) && (k in m ==> m[k] == n[k])
  }

  lemma SameMap(m: map<(Str, int), int>, n: map<(Str, int), int>)
    requires forall k :: Agree(m, n, k)
    ensures m == n
  {
    assert forall k :: Agree(m, n, k) ==> (k in m <==> k in n) && (k in m ==> m[k] == n[k]);
  }

  lemma PutAtKey(rs: seq<T.Rec>, path: Str, level: int, date: int, k: (Str, int))
    requires Distinct(rs) && |path| < MAX_PATH_NAME && Distinct(PutList(rs, path, level, date))
    ensures Agree(AsMap(PutList(rs, path, level, date)), AsMap(rs)[(path, level) := date], k)
  {
    var now := PutList(rs, path, level, date);
    MapAt(rs, k);
    MapAt(now, k);
    PutAt(rs, path, level, date, k);
    hide AsMap, PutList;
  }

  lemma PutAt(rs: seq<T.Rec>, path: Str, level: int, date: int, k: (Str, int))
    requires |path| < MAX_PATH_NAME && Distinct(rs)
    ensures var now := PutList(rs, path, level, date);
      && ((exists i :: 0 <= i < |now| && Key(now[i]) == k) <==>
            k == (path, level) || exists i :: 0 <= i < |rs| && Key(rs[i]) == k)
      && forall i :: 0 <= i < |now| && Key(now[i]) == k ==>
           if k == (path, level) then now[i].date == date else i < |rs| && now[i] == rs[i]
  {
    var now := PutList(rs, path, level, date);
    assert forall i :: 0 <= i < |rs| ==> Key(now[i]) == Key(rs[i]);
    if exists i :: 0 <= i < |rs| && Key(rs[i]) == k {
      var i :| 0 <= i < |rs| && Key(rs[i]) == k;
      assert Key(now[i]) == k;
    }
    if k == (path, level) {
      if exists i :: 0 <= i < |rs| && Hit(rs[i], path, level) {
        var i :| 0 <= i < |rs| && Hit(rs[i], path, level);
        assert Key(now[i]) == k;
      } else {
        assert Key(now[|rs|]) == k;
      }
    }
  }

  /** A path that does not fit a record's name is never found again: each put of it appends one more record. */
  lemma LongPathPilesUp(e: T.Env, text: Str, path: Str, level: int, date: int)
    requires |path| >= MAX_PATH_NAME
    ensures var rs := T.ReadAll(e, text);
      PutList(rs, path, level, date) == rs + [T.Rec(path[..MAX_PATH_NAME - 1], level, date)]
  {
    var rs := T.ReadAll(e, text);
    NamesFit(e, text);
    assert Updated(rs, path, level, date) == rs;
  }

  lemma {:induction false} NamesFit(e: T.Env, text: Str)
    ensures forall i :: 0 <= i < |T.ReadAll(e, text)| ==> |T.ReadAll(e, text)[i].name| < MAX_PATH_NAME
    decreases |text|
  {
    var r := T.GetRecord(e, text);
    if r.Some? {
      OneFits(e, text);
      NamesFit(e, r.value.1);
    }
  }

  lemma {:induction false} OneFits(e: T.Env, text: Str)
    ensures T.GetRecord(e, text).Some? ==> |T.GetRecord(e, text).value.0.name| < MAX_PATH_NAME
    decreases |text|
  {
    hide T.DdName, T.DdLevel;
    var l := T.GetLine(text, e.bufsiz, []);
    if l.Some? && l.value.0 == [] {
      OneFits(e, l.value.1);
    }
  }

  datatype Put = Put(path: Str, level: int, date: int)

  /** The text of the file after a run of puts on an empty file. */
  function FileAfter(e: T.Env, puts: seq<Put>): Str {
    if puts == [] then [] else
      var p := puts[|puts| - 1];
      Dump(e, PutList(T.ReadAll(e, FileAfter(e, puts[..|puts| - 1])), p.path, p.level, p.date))
  }

  function MapOf(puts: seq<Put>): map<(Str, int), int> {
    if puts == [] then map[] else
      var p := puts[|puts| - 1];
      MapOf(puts[..|puts| - 1])[(p.path, p.level) := p.date]
  }

  /** After any run of good puts the file holds one record per path and level, with the last date put. */
  lemma {:induction false} FileIsMap(e: T.Env, puts: seq<Put>)
    requires e.bufsiz >= 2
    requires forall i :: 0 <= i < |puts| ==> T.GoodRec(e, T.Rec(puts[i].path, puts[i].level, puts[i].date))
    ensures var rs := T.ReadAll(e, FileAfter(e, puts));
      AllGood(e, rs) && Distinct(rs) && FileAfter(e, puts) == Dump(e, rs) && AsMap(rs) == MapOf(puts)
  {
    if puts == [] {
      ReadsBack(e, []);
    } else {
      var p := puts[|puts| - 1];
      var was := T.ReadAll(e, FileAfter(e, puts[..|puts| - 1]));
      FileIsMap(e, puts[..|puts| - 1]);
      PutIsUpdate(was, p.path, p.level, p.date);
      PutGood(e, was, p);
      ReadsBack(e, PutList(was, p.path, p.level, p.date));
    }
  }

  lemma PutGood(e: T.Env, rs: seq<T.Rec>, p: Put)
    requires AllGood(e, rs) && T.GoodRec(e, T.Rec(p.path, p.level, p.date))
    ensures AllGood(e, PutList(rs, p.path, p.level, p.date))
  {
    var now := PutList(rs, p.path, p.level, p.date);
    forall i | 0 <= i < |now| ensures T.GoodRec(e, now[i]) {
      if i < |rs| && Hit(rs[i], p.path, p.level) {
        assert now[i] == T.Rec(p.path, p.level, p.date);
      }
    }
  }

  predicate Later(m: map<(Str, int), int>, path: Str, level: int, t: int) {
    (path, level) in m && m[(path, level)] > t
  }

  lemma FirstIsLookup(rs: seq<T.Rec>, path: Str, level: int, t: int)
    requires Distinct(rs)
    ensures var m := AsMap(rs); var r := First(rs, path, level, t);
      r == if Later(m, path, level, t) then Some(T.Rec(path, level, m[(path, level)])) else None
  {
    FirstHits(rs, path, level, t);
    MapAt(rs, (path, level));
  }

  /** The greatest lower level with a later date, with its date; without one level 0 and date 0. */
  lemma {:induction false} BelowIsGreatest(rs: seq<T.Rec>, path: Str, level: int, t: int)
    requires Distinct(rs)
    ensures var (from, date) := Below(rs, path, level, t); var m := AsMap(rs);
      if exists i :: 0 <= i < level && Later(m, path, i, t)
      then
        && 0 <= from < level && Later(m, path, from, t) && date == m[(path, from)]
        && forall i :: from < i < level ==> !Later(m, path, i, t)
      else (from, date) == (0, 0)
    decreases level
  {
    if level > 0 {
      FirstIsLookup(rs, path, level - 1, t);
      BelowIsGreatest(rs, path, level - 1, t);
    }
  }

  /** What ndmpd_get_dumptime answers on the file after any run of good puts. */
  lemma DumpTimeAfterPuts(e: T.Env, puts: seq<Put>, path: Str, level: int, t: int)
    requires e.bufsiz >= 2
    requires forall i :: 0 <= i < |puts| ==> T.GoodRec(e, T.Rec(puts[i].path, puts[i].level, puts[i].date))
    ensures var (from, date) := DumpTime(T.ReadAll(e, FileAfter(e, puts)), path, level, t); var m := MapOf(puts);
      if level == 0 then (from, date) == (0, 0)
      else if T.IsLbr(level) then from == level && date == if Later(m, path, level, t) then m[(path, level)] else 0
      else if exists i :: 0 <= i < level && Later(m, path, i, t)
      then
        && 0 <= from < level && Later(m, path, from, t) && date == m[(path, from)]
        && forall i :: from < i < level ==> !Later(m, path, i, t)
      else (from, date) == (0, 0)
  {
    var rs := T.ReadAll(e, FileAfter(e, puts));
    FileIsMap(e, puts);
    FirstIsLookup(rs, path, level, t);
    BelowIsGreatest(rs, path, level, t);
  }
}
