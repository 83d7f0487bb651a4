/** Restoring what was printed: the archive round trip. */
module TarRoundTrip {
  import opened Bytes
  import opened Octal
  import opened TarHeader
  import opened TarFormat
  import opened Selection
  import opened TarRestore

  // ---- what the codec is promised for ----

  /** Permission bits only, a time that fits an int, C strings. */
  predicate GoodAttr(a: Attr) {
    a.mode < 0x1000 && a.mtime <= INT_MAX && NulFree(a.uname) && NulFree(a.gname)
  }

  /** An absolute path. */
  predicate GoodName(name: Str) {
    name != [] && name[0] == SLASH && NulFree(name) && |name| < PATH_MAX
  }

  predicate GoodAcl(acl: Option<Str>) {
    acl.Some? ==> 0 < |acl.value| <= INT_MAX
  }

  /** The long-name records of a huge file's sections all fit the one buffer that collects them. */
  predicate NamesFit(f: Entry, done: nat, section: nat, used: nat)
    requires f.File? && done <= |f.data|
    decreases |f.data| - done
  {
    done == |f.data| ||
    (var n := |SectionName(f.name, section)|;
     var used' := if n >= NAMSIZ then used + n else used;
     used' <= MAX_PATH_NAME && NamesFit(f, done + SectionSize(f, done), section + 1, used'))
  }

  predicate Printable(e: Entry) {
    && GoodName(e.name) && GoodAttr(e.attr)
    && match e
       case Dir(_, _, _, acl) => GoodAcl(acl)
       case Sym(_, target, _, nlink, _, _) => nlink <= 1 && target != [] && NulFree(target) && |target| < MAX_PATH_NAME
       case File(_, data, nlink, ino, _, acl) =>
         && GoodAcl(acl) && |data| <= LLONG_MAX
         && (nlink > 1 ==> 0 < ino <= INT_MAX && |data| <= MAX_TAR_IMAGE)
         && (|data| > MAX_TAR_IMAGE ==> NamesFit(e, 0, 1, 0))
  }

  // ---- one header ----

  /** The attributes a printed header carries: ids the header cannot hold or that have no name become nobody. */
  function Shown(a: Attr): Fields {
    Fields(a.mode, OwnerId(a.uid, a.uname), OwnerId(a.gid, a.gname), a.mtime, Cut(a.uname, 31), Cut(a.gname, 31))
  }

  lemma HeadReads(name: Str, link: Str, a: Attr, size: nat, flag: byte, ino: Str)
    requires GoodAttr(a) && NulFree(name) && NulFree(link) && |name| < NAMSIZ && |link| < NAMSIZ && |ino| < 12
    ensures var r := HeaderOf(name, link, a, size, flag, ino).Record();
            && Verify(r) == 1 && r[FLAG] == flag && CStr(r) == name && CStr(r[LINKNAME..]) == link
            && r[0] == At(name, 0) && FieldsOf(r) == Shown(a)
            && (size <= INT_MAX ==> OctAtoi(r[SIZE..]) == size)
  {
    var h := HeaderOf(name, link, a, size, flag, ino);
    RecordReads(h);
    RecordOwners(h);
    RecordNumbers(h, a.mode, OwnerId(a.uid, a.uname), OwnerId(a.gid, a.gname), a.mtime);
    if size <= INT_MAX {
      RecordSize(h, size);
    }
  }

  /**
   * What a header says of an owner: the id, if it has seven octal digits at most and a name is known for it, else that
   * of nobody.
   */
  predicate TellsOwner(shown: int, id: nat, name: Str) {
    shown == if id < 0x20_0000 && name != [] then id else 65534
  }

  /** Attributes read from a header are those of the entry, the names cut to what the header holds. */
  predicate TellsAttr(f: Fields, a: Attr) {
    && f.mode == a.mode && f.mtime == a.mtime && TellsOwner(f.uid, a.uid, a.uname) && TellsOwner(f.gid, a.gid, a.gname)
    && f.uname <= a.uname && |f.uname| == Min(|a.uname|, 31) && f.gname <= a.gname && |f.gname| == Min(|a.gname|, 31)
  }

  lemma ShownTells(a: Attr)
    ensures TellsAttr(Shown(a), a)
  {
  }

  lemma HeadRecords(name: Str, link: Str, a: Attr, size: nat, flag: byte, ino: Str, count: nat, r: seq<byte>)
    requires Rec(r) in HeadBlocks(name, link, a, size, flag, ino, count)
    ensures r == NameHeader(name, a, count).Record() || r == LinkHeader(link, a, Bump(count, name)).Record()
            || r == HeadRec(name, link, a, size, flag, ino, count)
  {
    hide HeaderOf, NameHeader, LinkHeader, Short, Bump;
  }

  lemma OneTells(name: Str, link: Str, a: Attr, size: nat, flag: byte, ino: Str)
    requires GoodAttr(a) && NulFree(name) && NulFree(link) && |name| < NAMSIZ && |link| < NAMSIZ && |ino| < 12
    ensures TellsAttr(FieldsOf(HeaderOf(name, link, a, size, flag, ino).Record()), a)
  {
    hide HeaderOf, OctAtoi, Verify, CStr, Shown, TellsAttr, FieldsOf;
    HeadReads(name, link, a, size, flag, ino);
    ShownTells(a);
  }

  /** Every header record that is printed for an entry, those of its long name and link too, tells its attributes. */
  lemma PrintedTells(name: Str, link: Str, a: Attr, size: nat, flag: byte, ino: Str, count: nat, r: seq<byte>)
    requires GoodAttr(a) && NulFree(name) && NulFree(link) && |ino| < 12
    requires Rec(r) in HeadBlocks(name, link, a, size, flag, ino, count)
    ensures |r| == RECORDSIZE && TellsAttr(FieldsOf(r), a)
    ensures a.uid < 0x20_0000 && a.uname != [] ==> OctAtoi(r[UID..]) == a.uid
    ensures a.gid < 0x20_0000 && a.gname != [] ==> OctAtoi(r[GID..]) == a.gid
  {
    hide HeaderOf, Tag, OctAtoi, TellsAttr, HeadBlocks, GoodAttr, NulFree, Short, Bump, FieldsOf, Header.Record;
    var c1 := Bump(count, name);
    var c2 := Bump(c1, link);
    NulFreeEmpty();
    HeadRecords(name, link, a, size, flag, ino, count, r);
    if r == NameHeader(name, a, count).Record() {
      TagNulFree(count, FIL);
      OneTells(Tag(count, FIL), [], a, |name|, LF_LONGNAME, []);
    } else if r == LinkHeader(link, a, c1).Record() {
      TagNulFree(c1, SLK);
      OneTells([], Tag(c1, SLK), a, |link|, LF_LONGLINK, []);
    } else {
      ShortFits(name, c2, FIL);
      ShortFits(link, Bump(c2, name), SLK);
      OneTells(Short(name, c2, FIL), Short(link, Bump(c2, name), SLK), a, size, flag, ino);
    }
    TellsIds(r, a);
  }

  lemma ShortFits(text: Str, count: nat, ext: string)
    requires NulFree(text) && (ext == FIL || ext == SLK)
    ensures |Short(text, count, ext)| < NAMSIZ && NulFree(Short(text, count, ext))
  {
    hide Tag, NulFree;
    TagNulFree(count, ext);
  }

  lemma TellsIds(r: seq<byte>, a: Attr)
    requires |r| == RECORDSIZE && TellsAttr(FieldsOf(r), a)
    ensures a.uid < 0x20_0000 && a.uname != [] ==> OctAtoi(r[UID..]) == a.uid
    ensures a.gid < 0x20_0000 && a.gname != [] ==> OctAtoi(r[GID..]) == a.gid
  {
    hide OctAtoi, CStr;
  }

  /** A record laid at pos is the one the loop reads there. */
  lemma RecAt(c: Choice, st: St, s: seq<byte>, pos: nat, r: seq<byte>, rest: seq<Block>)
    requires Laid(s, pos, [Rec(r)] + rest) && |r| == RECORDSIZE && Verify(r) == 1 && !st.multi
    ensures Step(c, st, s, pos) == Process(c, LoadHeader(st, r), r, OctAtoi(r[SIZE..]), s, pos + RECORDSIZE)
    ensures Laid(s, pos + RECORDSIZE, rest)
  {
    hide Verify, Process, OctAtoi, FieldsOf;
    var bs := [Rec(r)] + rest;
    assert bs[0] == Rec(r) && bs[1..] == rest;
    assert s[pos..][..RECORDSIZE] == r;
  }

  lemma MemAt(s: seq<byte>, pos: nat, m: Block, rest: seq<Block>)
    requires Laid(s, pos, [m] + rest) && m.Mem?
    ensures Avail(s, pos, m.len) && |m.bytes| <= m.len && Payload(s, pos, m.len)[..|m.bytes|] == m.bytes
    ensures Past(pos, m.len) == pos + m.Span() && Laid(s, pos + m.Span(), rest)
  {
    var bs := [m] + rest;
    assert bs[0] == m && bs[1..] == rest;
    assert s[pos..][..m.len][..|m.bytes|] == s[pos..][..|m.bytes|];
  }

  function Loaded(st: St, a: Attr, flag: byte): St {
    st.(acls := st.acls.(attr := Shown(a)), aclSpot := 0, last := flag)
  }

  // ---- long names and links ----

  function AfterName(st: St, name: Str, a: Attr): St {
    if |name| < NAMSIZ then st else
      Loaded(st, a, LF_LONGNAME).(longname := Splice(st.longname, st.nmEnd, name),
                                  nmEnd := st.nmEnd + |name|, left := 0)
  }

  function AfterLink(st: St, link: Str, a: Attr): St {
    if |link| < NAMSIZ then st else
      Loaded(st, a, LF_LONGLINK).(longlink := Splice(st.longlink, st.lnkEnd, link),
                                  lnkEnd := st.lnkEnd + |link|, left := 0)
  }

  lemma LongSizeFits(n: nat, end: nat)
    requires end + n <= MAX_PATH_NAME
    ensures LongSize(n, end) == n
  {
  }

  /** A record with attributes a and a size that announces the text behind it. */
  predicate Announces(r: seq<byte>, flag: byte, a: Attr, text: Str) {
    |r| == RECORDSIZE && Verify(r) == 1 && r[FLAG] == flag && FieldsOf(r) == Shown(a) && OctAtoi(r[SIZE..]) == |text|
  }

  /** A payload that is all fixed. */
  lemma TextAt(s: seq<byte>, pos: nat, text: Str, rest: seq<Block>)
    requires Laid(s, pos, [Mem(text, |text|)] + rest)
    ensures Avail(s, pos, |text|) && Payload(s, pos, |text|) == text && Past(pos, |text|) == pos + Round(|text|)
    ensures Laid(s, pos + Round(|text|), rest)
  {
    MemAt(s, pos, Mem(text, |text|), rest);
    var p := Payload(s, pos, |text|);
    assert p[..|text|] == p;
  }

  lemma CStrWhole(text: Str)
    requires NulFree(text)
    ensures CStr(text) == text
  {
    CStrUnique(text, text);
  }

  lemma HeaderLoaded(st: St, r: seq<byte>, flag: byte, a: Attr, text: Str)
    requires Announces(r, flag, a, text) && flag != LF_MULTIVOL && flag != LF_VOLHDR && flag != LF_HUMONGUS
    ensures LoadHeader(st, r) == Loaded(st, a, flag)
  {
    hide Verify, FieldsOf, OctAtoi, Shown;
  }

  /** The branches of the switch that a printed header other than a file's takes. */
  lemma Branches(c: Choice, st: St, r: seq<byte>, size: int, s: seq<byte>, pos: nat)
    requires |r| == RECORDSIZE
    ensures r[FLAG] == LF_LONGNAME ==> Process(c, st, r, size, s, pos) == OnLongName(st, size, s, pos)
    ensures r[FLAG] == LF_LONGLINK ==> Process(c, st, r, size, s, pos) == OnLongLink(st, size, s, pos)
    ensures r[FLAG] == LF_ACL ==> Process(c, st, r, size, s, pos) == OnAcl(st, size, s, pos)
    ensures r[FLAG] == LF_HUMONGUS ==> Process(c, st, r, size, s, pos) == OnHuge(st, size, s, pos)
    ensures r[FLAG] == LF_DIR ==> Process(c, st, r, size, s, pos) == Some((OnDir(c, st, r), pos))
    ensures r[FLAG] == LF_SYMLINK ==> Process(c, st, r, size, s, pos) == Some((OnSym(c, st, r), pos))
  {
    hide OctAtoi, OnFile, OnLongName, OnLongLink, OnAcl, OnHuge, OnSym, OnDir, OnFifo, OnQueuedLink;
  }

  lemma NameTaken(st: St, s: seq<byte>, pos: nat, name: Str, a: Attr)
    requires NulFree(name) && |name| >= NAMSIZ && st.nmEnd + |name| <= MAX_PATH_NAME
    requires Avail(s, pos, |name|) && Payload(s, pos, |name|) == name && Past(pos, |name|) == pos + Round(|name|)
    ensures OnLongName(Loaded(st, a, LF_LONGNAME), |name|, s, pos) ==
              Some((AfterName(st, name, a), pos + Round(|name|)))
  {
    hide Avail, Payload, Past, Round, CStr, Shown, NulFree, LongSize;
    LongSizeFits(|name|, st.nmEnd);
    CStrWhole(name);
  }

  lemma LinkTaken(st: St, s: seq<byte>, pos: nat, link: Str, a: Attr)
    requires NulFree(link) && |link| >= NAMSIZ && st.lnkEnd + |link| <= MAX_PATH_NAME
    requires Avail(s, pos, |link|) && Payload(s, pos, |link|) == link && Past(pos, |link|) == pos + Round(|link|)
    ensures OnLongLink(Loaded(st, a, LF_LONGLINK), |link|, s, pos) ==
              Some((AfterLink(st, link, a), pos + Round(|link|)))
  {
    hide Avail, Payload, Past, Round, CStr, Shown, NulFree, LongSize;
    LongSizeFits(|link|, st.lnkEnd);
    CStrWhole(link);
  }

  lemma NameStep(c: Choice, st: St, s: seq<byte>, pos: nat, r: seq<byte>, name: Str, a: Attr, rest: seq<Block>)
    requires Announces(r, LF_LONGNAME, a, name) && NulFree(name) && |name| >= NAMSIZ
    requires Laid(s, pos, [Rec(r)] + ([Mem(name, |name|)] + rest))
    requires Sane(st) && !st.multi && st.nmEnd + |name| <= MAX_PATH_NAME
    ensures Step(c, st, s, pos) == Some((AfterName(st, name, a), pos + RECORDSIZE + Round(|name|)))
    ensures Laid(s, pos + RECORDSIZE + Round(|name|), rest)
  {
    hide Verify, FieldsOf, OctAtoi, Shown, Round, Laid, Step, Process, LoadHeader, Avail, Payload, Past, OnLongName,
         Loaded, AfterName, NulFree;
    RecAt(c, st, s, pos, r, [Mem(name, |name|)] + rest);
    TextAt(s, pos + RECORDSIZE, name, rest);
    HeaderLoaded(st, r, LF_LONGNAME, a, name);
    Branches(c, LoadHeader(st, r), r, |name|, s, pos + RECORDSIZE);
    NameTaken(st, s, pos + RECORDSIZE, name, a);
  }

  lemma LinkStep(c: Choice, st: St, s: seq<byte>, pos: nat, r: seq<byte>, link: Str, a: Attr, rest: seq<Block>)
    requires Announces(r, LF_LONGLINK, a, link) && NulFree(link) && |link| >= NAMSIZ
    requires Laid(s, pos, [Rec(r)] + ([Mem(link, |link|)] + rest))
    requires Sane(st) && !st.multi && st.lnkEnd + |link| <= MAX_PATH_NAME
    ensures Step(c, st, s, pos) == Some((AfterLink(st, link, a), pos + RECORDSIZE + Round(|link|)))
    ensures Laid(s, pos + RECORDSIZE + Round(|link|), rest)
  {
    hide Verify, FieldsOf, OctAtoi, Shown, Round, Laid, Step, Process, LoadHeader, Avail, Payload, Past, OnLongLink,
         Loaded, AfterLink, NulFree;
    RecAt(c, st, s, pos, r, [Mem(link, |link|)] + rest);
    TextAt(s, pos + RECORDSIZE, link, rest);
    HeaderLoaded(st, r, LF_LONGLINK, a, link);
    Branches(c, LoadHeader(st, r), r, |link|, s, pos + RECORDSIZE);
    LinkTaken(st, s, pos + RECORDSIZE, link, a);
  }

  lemma NameRecord(c: Choice, st: St, s: seq<byte>, pos: nat, name: Str, a: Attr, count: nat, rest: seq<Block>)
    requires Laid(s, pos, LongBlocks(NameHeader(name, a, count), name) + rest)
    requires GoodAttr(a) && NulFree(name) && Sane(st) && !st.multi && |name| <= INT_MAX
    requires |name| >= NAMSIZ ==> st.nmEnd + |name| <= MAX_PATH_NAME
    ensures var bs := LongBlocks(NameHeader(name, a, count), name);
            && Run(c, st, s, pos) == Run(c, AfterName(st, name, a), s, pos + SpanOf(bs))
            && Laid(s, pos + SpanOf(bs), rest)
  {
    hide Laid, Run, Shown, Step, Verify, FieldsOf, OctAtoi, HeaderOf, Splice, Round, CStr;
    var bs := LongBlocks(NameHeader(name, a, count), name);
    if |name| < NAMSIZ {
      assert bs + rest == rest;
    } else {
      TagNulFree(count, FIL);
      HeadReads(Tag(count, FIL), [], a, |name|, LF_LONGNAME, []);
      var r := NameHeader(name, a, count).Record();
      assert bs + rest == [Rec(r)] + ([Mem(name, |name|)] + rest);
      PairSpan(r, Mem(name, |name|));
      NameStep(c, st, s, pos, r, name, a, rest);
      RunStep(c, st, s, pos);
    }
  }

  lemma LinkRecord(c: Choice, st: St, s: seq<byte>, pos: nat, link: Str, a: Attr, count: nat, rest: seq<Block>)
    requires Laid(s, pos, LongBlocks(LinkHeader(link, a, count), link) + rest)
    requires GoodAttr(a) && NulFree(link) && Sane(st) && !st.multi && |link| <= INT_MAX
    requires |link| >= NAMSIZ ==> st.lnkEnd + |link| <= MAX_PATH_NAME
    ensures var bs := LongBlocks(LinkHeader(link, a, count), link);
            && Run(c, st, s, pos) == Run(c, AfterLink(st, link, a), s, pos + SpanOf(bs))
            && Laid(s, pos + SpanOf(bs), rest)
  {
    hide Laid, Run, Shown, Step, Verify, FieldsOf, OctAtoi, HeaderOf, Splice, Round, CStr;
    var bs := LongBlocks(LinkHeader(link, a, count), link);
    if |link| < NAMSIZ {
      assert bs + rest == rest;
    } else {
      TagNulFree(count, SLK);
      HeadReads([], Tag(count, SLK), a, |link|, LF_LONGLINK, []);
      var r := LinkHeader(link, a, count).Record();
      assert bs + rest == [Rec(r)] + ([Mem(link, |link|)] + rest);
      PairSpan(r, Mem(link, |link|));
      LinkStep(c, st, s, pos, r, link, a, rest);
      RunStep(c, st, s, pos);
    }
  }

  lemma PairSpan(r: seq<byte>, m: Block)
    ensures SpanOf([Rec(r), m]) == RECORDSIZE + m.Span()
  {
    assert [Rec(r), m][1..] == [m] && [m][1..] == [];
    assert SpanOf([m]) == m.Span();
  }

  lemma TagNulFree(count: nat, ext: string)
    requires ext == FIL || ext == SLK
    ensures NulFree(Tag(count, ext)) && Tag(count, ext)[0] != 0
  {
    var t := Ascii(LONGNAME_PREFIX) + PadLeft(ZERO, 8, Digits(10, count)) + Ascii(ext);
    assert NulFree(t);
  }

  // ---- a whole header ----

  function AfterNames(st: St, name: Str, link: Str, a: Attr): St {
    AfterLink(AfterName(st, name, a), link, a)
  }

  /** The header record of HeadBlocks. */
  function HeadRec(name: Str, link: Str, a: Attr, size: nat, flag: byte, ino: Str, count: nat): (r: seq<byte>)
    ensures |r| == RECORDSIZE
  {
    var c2 := Bump(Bump(count, name), link);
    HeaderOf(Short(name, c2, FIL), Short(link, Bump(c2, name), SLK), a, size, flag, ino).Record()
  }

  predicate Room(st: St, name: Str, link: Str) {
    && NulFree(name) && NulFree(link) && |name| <= INT_MAX && |link| <= INT_MAX
    && (|name| >= NAMSIZ ==> st.nmEnd + |name| <= MAX_PATH_NAME)
    && (|link| >= NAMSIZ ==> st.lnkEnd + |link| <= MAX_PATH_NAME)
  }

  /** The long-name and long-link records before a header are read into the state. */
  lemma NamesRun(c: Choice, st: St, s: seq<byte>, pos: nat, name: Str, link: Str, a: Attr, size: nat, flag: byte,
                 ino: Str, count: nat, rest: seq<Block>)
    requires Laid(s, pos, HeadBlocks(name, link, a, size, flag, ino, count) + rest)
    requires GoodAttr(a) && Sane(st) && !st.multi && Room(st, name, link)
    ensures var at := pos + SpanOf(HeadBlocks(name, link, a, size, flag, ino, count)) - RECORDSIZE;
            && at >= pos
            && Run(c, st, s, pos) == Run(c, AfterNames(st, name, link, a), s, at)
            && Laid(s, at, [Rec(HeadRec(name, link, a, size, flag, ino, count))] + rest)
  {
    hide Laid, Run, Shown, HeaderOf, Splice, SpanOf;
    var l := LongBlocks(NameHeader(name, a, count), name);
    var c1 := Bump(count, name);
    var k := LongBlocks(LinkHeader(link, a, c1), link);
    var h := [Rec(HeadRec(name, link, a, size, flag, ino, count))];
    assert HeadBlocks(name, link, a, size, flag, ino, count) == l + k + h;
    Regroup(l + k, h, rest);
    Regroup(l, k, h + rest);
    NameRecord(c, st, s, pos, name, a, count, k + (h + rest));
    LinkRecord(c, AfterName(st, name, a), s, pos + SpanOf(l), link, a, c1, h + rest);
    SpanConcat(l + k, h);
    SpanConcat(l, k);
    OneSpan(HeadRec(name, link, a, size, flag, ino, count));
  }

  lemma OneSpan(r: seq<byte>)
    ensures SpanOf([Rec(r)]) == RECORDSIZE
  {
    assert [Rec(r)][1..] == [];
  }

  /** The header itself: what the loop finds in it and which branch it takes. */
  lemma HeadStep(c: Choice, st: St, s: seq<byte>, at: nat, name: Str, link: Str, a: Attr, size: nat, flag: byte,
                 ino: Str, count: nat, rest: seq<Block>)
    requires Laid(s, at, [Rec(HeadRec(name, link, a, size, flag, ino, count))] + rest)
    requires GoodAttr(a) && !st.multi && NulFree(name) && NulFree(link) && |ino| < 12
    requires flag != LF_MULTIVOL && flag != LF_VOLHDR && flag != LF_HUMONGUS
    ensures var r := HeadRec(name, link, a, size, flag, ino, count);
            && Step(c, st, s, at) == Process(c, Loaded(st, a, flag), r, OctAtoi(r[SIZE..]), s, at + RECORDSIZE)
            && Laid(s, at + RECORDSIZE, rest)
            && r[FLAG] == flag && (size <= INT_MAX ==> OctAtoi(r[SIZE..]) == size)
            && (|name| < NAMSIZ ==> CStr(r) == name) && (|link| < NAMSIZ ==> CStr(r[LINKNAME..]) == link)
            && (name != [] ==> r[0] != 0) && (name != [] && |name| < NAMSIZ ==> r[0] == name[0])
  {
    hide Laid, Process, HeaderOf, Tag, Shown, Verify, OctAtoi, CStr, FieldsOf;
    var c2 := Bump(Bump(count, name), link);
    var c3 := Bump(c2, name);
    TagNulFree(c2, FIL);
    TagNulFree(c3, SLK);
    HeadReads(Short(name, c2, FIL), Short(link, c3, SLK), a, size, flag, ino);
    RecAt(c, st, s, at, HeadRec(name, link, a, size, flag, ino, count), rest);
  }

  lemma HeadInode(name: Str, link: Str, a: Attr, size: nat, flag: byte, ino: nat, count: nat)
    requires ino <= INT_MAX
    ensures OctAtoi(HeadRec(name, link, a, size, flag, OctField(ino, 11, 12), count)[SHARED..]) == ino
  {
    var c2 := Bump(Bump(count, name), link);
    var short, tag := Short(name, c2, FIL), Short(link, Bump(c2, name), SLK);
    RecordInode(HeaderOf(short, tag, a, size, flag, OctField(ino, 11, 12)), ino);
  }

  // ---- ACL and huge-file records ----

  function AfterAcl(st: St, acl: Option<Str>): St {
    if acl.None? then st else
      st.(acls := Acls(NO_ACLS.attr, acl), aclSpot := |acl.value|, last := LF_ACL, left := 0)
  }

  lemma AclHeaderReads(size: nat)
    requires size <= INT_MAX
    ensures var r := AclHeader(size).Record(); Verify(r) == 1 && r[FLAG] == LF_ACL && OctAtoi(r[SIZE..]) == size
  {
    RecordReads(AclHeader(size));
    RecordSize(AclHeader(size), size);
  }

  lemma AclStep(c: Choice, st: St, s: seq<byte>, pos: nat, r: seq<byte>, acl: Str, rest: seq<Block>)
    requires |r| == RECORDSIZE && Verify(r) == 1 && r[FLAG] == LF_ACL && OctAtoi(r[SIZE..]) == |acl|
    requires Laid(s, pos, [Rec(r)] + ([Mem(acl, |acl|)] + rest)) && !st.multi
    ensures Step(c, st, s, pos) == Some((AfterAcl(st, Some(acl)), pos + RECORDSIZE + Round(|acl|)))
    ensures Laid(s, pos + RECORDSIZE + Round(|acl|), rest)
  {
    hide Verify, FieldsOf, OctAtoi, Round, Process, Step, Laid, Avail, Payload, Past;
    RecAt(c, st, s, pos, r, [Mem(acl, |acl|)] + rest);
    TextAt(s, pos + RECORDSIZE, acl, rest);
    Branches(c, LoadHeader(st, r), r, |acl|, s, pos + RECORDSIZE);
    assert [] + acl == acl;
  }

  lemma AclRun(c: Choice, st: St, s: seq<byte>, pos: nat, acl: Option<Str>, rest: seq<Block>)
    requires Laid(s, pos, AclBlocks(acl) + rest) && GoodAcl(acl) && Sane(st) && !st.multi
    ensures Run(c, st, s, pos) == Run(c, AfterAcl(st, acl), s, pos + SpanOf(AclBlocks(acl)))
    ensures Laid(s, pos + SpanOf(AclBlocks(acl)), rest)
  {
    hide Laid, Run, AclHeader, OctAtoi, Verify, Step, Round;
    if acl.None? {
      assert AclBlocks(acl) + rest == rest;
    } else {
      var r := AclHeader(|acl.value|).Record();
      var m := Mem(acl.value, |acl.value|);
      assert AclBlocks(acl) + rest == [Rec(r)] + ([m] + rest);
      AclHeaderReads(|acl.value|);
      PairSpan(r, m);
      AclStep(c, st, s, pos, r, acl.value, rest);
      RunStep(c, st, s, pos);
    }
  }

  function AfterHuge(st: St, name: Str, size: nat): St {
    st.(aclSpot := 0, last := LF_HUMONGUS, hugename := name, hugeSize := size)
  }

  lemma HugeHeaderReads(len: nat)
    requires len <= INT_MAX
    ensures var r := HugeHeader(len).Record(); Verify(r) == 1 && r[FLAG] == LF_HUMONGUS && OctAtoi(r[SIZE..]) == len
  {
    RecordReads(HugeHeader(len));
    RecordSize(HugeHeader(len), len);
  }

  lemma {:induction false} WordLengthOf(d: Str, rest: Str)
    requires AllDigits(10, d) && rest != [] && rest[0] == BLANK
    ensures WordLength(d + rest) == |d|
    decreases |d|
  {
    if d == [] {
      assert d + rest == rest;
    } else {
      assert (d + rest)[1..] == d[1..] + rest;
      WordLengthOf(d[1..], rest);
    }
  }

  lemma FirstWordOf(d: Str, name: Str)
    requires d != [] && AllDigits(10, d) && GoodName(name)
    ensures FirstWord(d + [BLANK] + name) == (d, name)
  {
    var line := d + [BLANK] + name;
    assert line[1..] == d[1..] + ([BLANK] + name);
    WordLengthOf(d[1..], [BLANK] + name);
    assert line[..|d|] == d && line[|d|..] == [BLANK] + name;
    assert ([BLANK] + name)[1..] == name && SkipBlanks(name) == name;
  }

  /** The text of the huge-file record gives back the size and the name, whatever follows its NUL. */
  lemma HugeTextReads(name: Str, size: nat, text: Str)
    requires GoodName(name) && HugeText(name, size) <= text && size <= LLONG_MAX
    ensures var (word, rest) := FirstWord(CStr(text)); Atoll(word) == size && rest == name
  {
    var d := Digits(10, size);
    var line := d + [BLANK] + name;
    assert NulFree(line);
    assert text[|line|] == HugeText(name, size)[|line|];
    CStrUnique(text, line);
    FirstWordOf(d, name);
    AtollReads([], [], size, []);
    assert [] + ([] + d + []) == d;
  }

  lemma HugeStep(c: Choice, st: St, s: seq<byte>, pos: nat, r: seq<byte>, name: Str, size: nat, rest: seq<Block>)
    requires |r| == RECORDSIZE && Verify(r) == 1 && r[FLAG] == LF_HUMONGUS && OctAtoi(r[SIZE..]) == HugeLen(name)
    requires Laid(s, pos, [Rec(r)] + ([Mem(HugeText(name, size), HugeLen(name))] + rest)) && !st.multi
    requires GoodName(name) && size <= LLONG_MAX
    ensures Step(c, st, s, pos) == Some((AfterHuge(st, name, size), pos + RECORDSIZE + Round(HugeLen(name))))
    ensures Laid(s, pos + RECORDSIZE + Round(HugeLen(name)), rest)
  {
    hide Verify, FieldsOf, OctAtoi, Round, HugeText, FirstWord, CStr, Atoll, Process, Step, Laid;
    var m := Mem(HugeText(name, size), HugeLen(name));
    RecAt(c, st, s, pos, r, [m] + rest);
    MemAt(s, pos + RECORDSIZE, m, rest);
    HugeTextReads(name, size, Payload(s, pos + RECORDSIZE, m.len));
    Branches(c, LoadHeader(st, r), r, m.len, s, pos + RECORDSIZE);
  }

  lemma HugeRun(c: Choice, st: St, s: seq<byte>, pos: nat, name: Str, size: nat, rest: seq<Block>)
    requires Laid(s, pos, HugeBlocks(name, size) + rest) && Sane(st) && !st.multi && GoodName(name)
    requires size <= LLONG_MAX
    ensures Run(c, st, s, pos) == Run(c, AfterHuge(st, name, size), s, pos + SpanOf(HugeBlocks(name, size)))
    ensures Laid(s, pos + SpanOf(HugeBlocks(name, size)), rest)
  {
    hide Laid, Run, HugeHeader, OctAtoi, Verify, Step, Round, HugeText;
    var r := HugeHeader(HugeLen(name)).Record();
    var m := Mem(HugeText(name, size), HugeLen(name));
    assert HugeBlocks(name, size) + rest == [Rec(r)] + ([m] + rest);
    HugeHeaderReads(HugeLen(name));
    PairSpan(r, m);
    HugeStep(c, st, s, pos, r, name, size, rest);
    RunStep(c, st, s, pos);
  }

  // ---- what a restore makes of each entry ----

  /** What the restore side carries from entry to entry: the link queue, and an ACL nobody has used yet. */
  datatype Carry = Carry(links: map<int, Option<Str>>, acl: Option<Str>)

  function CarryOf(st: St): Carry {
    Carry(st.links, st.acls.acl)
  }

  /** Nothing of an earlier entry is left in the names, the huge-file counters or the open file. */
  predicate Clean(st: St) {
    && st.longname == [] && st.nmEnd == 0 && st.longlink == [] && st.lnkEnd == 0
    && st.hugename == [] && st.hugeSize == 0 && st.fp == None && !st.multi && Sane(st)
  }

  function AclOr(acl: Option<Str>, k: Carry): Option<Str> {
    if acl.Some? then acl else k.acl
  }

  predicate Queued(f: Entry, k: Carry)
    requires f.File?
  {
    f.nlink > 1 && f.ino in k.links
  }

  /** The objects an entry should come back as. */
  ghost function Expected(c: Choice, e: Entry, k: Carry): seq<Restored> {
    var path := Target(c, e.name);
    if path.None? then [] else
      match e
      case Dir(name, _, attr, acl) =>
        if Wanted(c, name).kind == Parent then [] else [NewDir(path.value, Acls(Shown(attr), AclOr(acl, k)))]
      case Sym(_, target, _, _, _, attr) =>
        [NewSym(path.value, target, Acls(Shown(attr), k.acl))]
      case File(_, data, _, ino, attr, acl) =>
        if !Queued(e, k) then [NewFile(path.value, data, Acls(Shown(attr), AclOr(acl, k)))]
        else if k.links[ino].Some? then [NewHard(path.value, k.links[ino].value, Acls(Shown(attr), AclOr(acl, k)))]
        else []
  }

  /** What is carried on: an ACL stays behind when its entry is not put back. */
  ghost function After(c: Choice, e: Entry, k: Carry): Carry {
    var acl := if e.Sym? then k.acl else AclOr(e.acl, k);
    Carry(if e.File? && e.nlink > 1 then AddLink(k.links, e.ino, Target(c, e.name)) else k.links,
          if Expected(c, e, k) != [] then None else acl)
  }

  /** The printer's queue and the restorer's hold the same about the entry's inode. */
  predicate Agrees(e: Entry, links: map<int, Option<Str>>, queue: set<int>) {
    e.File? && e.nlink > 1 ==> (e.ino in links <==> e.ino in queue)
  }

  predicate AllAgree(es: seq<Entry>, links: map<int, Option<Str>>, queue: set<int>) {
    forall e :: e in es ==> Agrees(e, links, queue)
  }

  lemma NameRead(st: St, name: Str, link: Str, a: Attr, r: seq<byte>)
    requires st.longname == [] && st.nmEnd == 0 && st.longlink == [] && st.lnkEnd == 0
    requires NulFree(name) && NulFree(link) && |r| == RECORDSIZE
    requires |name| < NAMSIZ ==> CStr(r) == name
    requires |link| < NAMSIZ ==> CStr(r[LINKNAME..]) == link
    ensures var st' := AfterNames(st, name, link, a);
            Name(st', r) == name && (if st'.longlink == [] then CStr(r[LINKNAME..]) else st'.longlink) == link
  {
    hide CStr, NulFree, Shown;
    CStrWhole(name);
    CStrWhole(link);
    assert [] + name == name && [] + link == link;
  }

  /** A clean state has room for the names of a printable entry, and they leave it in order. */
  lemma NamesFitClean(st: St, acl: Option<Str>, name: Str, link: Str, a: Attr)
    requires Clean(st) && NulFree(name) && NulFree(link) && |name| <= MAX_PATH_NAME && |link| <= MAX_PATH_NAME
    ensures var st1 := AfterAcl(st, acl);
            var st2 := AfterNames(st1, name, link, a);
            && Sane(st) && !st.multi && Sane(st1) && !st1.multi && Sane(st2) && !st2.multi && Room(st1, name, link)
            && st1.longname == [] && st1.nmEnd == 0 && st1.longlink == [] && st1.lnkEnd == 0 && st1.hugename == []
  {
    hide NulFree, Splice, Shown;
  }

  lemma DirTaken(c: Choice, st: St, e: Entry, r: seq<byte>)
    requires e.Dir? && Clean(st) && Name(AfterNames(AfterAcl(st, e.acl), e.name, [], e.attr), r) == e.name
    ensures var st' := OnDir(c, Loaded(AfterNames(AfterAcl(st, e.acl), e.name, [], e.attr), e.attr, LF_DIR), r);
            && Sane(st') && Clean(st') && st'.made == st.made + Expected(c, e, CarryOf(st))
            && CarryOf(st') == After(c, e, CarryOf(st))
  {
    hide Target, Wanted, Shown, Splice, CStr, PopTo;
  }

  lemma DirRun(c: Choice, st: St, s: seq<byte>, pos: nat, e: Entry, p: Printer, rest: seq<Block>) returns (st': St)
    requires e.Dir? && Printable(e) && Clean(st) && Laid(s, pos, EntryBlocks(e, p) + rest)
    ensures Sane(st') && Run(c, st, s, pos) == Run(c, st', s, pos + SpanOf(EntryBlocks(e, p)))
    ensures Laid(s, pos + SpanOf(EntryBlocks(e, p)), rest)
    ensures Clean(st') && st'.made == st.made + Expected(c, e, CarryOf(st)) && CarryOf(st') == After(c, e, CarryOf(st))
  {
    hide Laid, Run, HeadBlocks, HeadRec, AclBlocks, Shown, Step, CStr, OctAtoi, Process, OnDir, Clean, Expected, After,
         CarryOf, AfterAcl, AfterNames, Loaded, Sane, Room, NulFree, GoodAttr, GoodAcl, SpanOf, Name;
    NulFreeEmpty();
    NamesFitClean(st, e.acl, e.name, [], e.attr);
    var h := HeadBlocks(e.name, [], e.attr, e.size, LF_DIR, [], p.count);
    assert AclBlocks(e.acl) + h + rest == AclBlocks(e.acl) + (h + rest);
    AclRun(c, st, s, pos, e.acl, h + rest);
    SpanConcat(AclBlocks(e.acl), h);
    var st1 := AfterAcl(st, e.acl);
    var pos1 := pos + SpanOf(AclBlocks(e.acl));
    NamesRun(c, st1, s, pos1, e.name, [], e.attr, e.size, LF_DIR, [], p.count, rest);
    var at := pos1 + SpanOf(h) - RECORDSIZE;
    var st2 := AfterNames(st1, e.name, [], e.attr);
    HeadStep(c, st2, s, at, e.name, [], e.attr, e.size, LF_DIR, [], p.count, rest);
    var r := HeadRec(e.name, [], e.attr, e.size, LF_DIR, [], p.count);
    NameRead(st1, e.name, [], e.attr, r);
    var st3 := Loaded(st2, e.attr, LF_DIR);
    st' := OnDir(c, st3, r);
    Branches(c, st3, r, OctAtoi(r[SIZE..]), s, at + RECORDSIZE);
    DirTaken(c, st, e, r);
    RunStep(c, st2, s, at);
  }

  lemma SymTaken(c: Choice, st: St, e: Entry, r: seq<byte>)
    requires e.Sym? && Clean(st) && |r| == RECORDSIZE
    requires var st2 := AfterNames(st, e.name, e.target, e.attr);
      Name(st2, r) == e.name && (if st2.longlink == [] then CStr(r[LINKNAME..]) else st2.longlink) == e.target
    ensures var st' := OnSym(c, Loaded(AfterNames(st, e.name, e.target, e.attr), e.attr, LF_SYMLINK), r);
            && Sane(st') && Clean(st') && st'.made == st.made + Expected(c, e, CarryOf(st))
            && CarryOf(st') == After(c, e, CarryOf(st))
  {
    hide Target, Wanted, Shown, Splice, CStr;
  }

  lemma SymRun(c: Choice, st: St, s: seq<byte>, pos: nat, e: Entry, p: Printer, rest: seq<Block>) returns (st': St)
    requires e.Sym? && Printable(e) && Clean(st) && Laid(s, pos, EntryBlocks(e, p) + rest)
    ensures Sane(st') && Run(c, st, s, pos) == Run(c, st', s, pos + SpanOf(EntryBlocks(e, p)))
    ensures Laid(s, pos + SpanOf(EntryBlocks(e, p)), rest)
    ensures Clean(st') && st'.made == st.made + Expected(c, e, CarryOf(st)) && CarryOf(st') == After(c, e, CarryOf(st))
  {
    hide Laid, Run, HeadBlocks, HeadRec, Shown, Step, CStr, OctAtoi, Process, OnSym, Clean, Expected, After,
         CarryOf, AfterNames, Loaded, Sane, Room, NulFree, GoodAttr, SpanOf, Name;
    NamesFitClean(st, None, e.name, e.target, e.attr);
    var ino := InoField(e.nlink, e.ino);
    var h := HeadBlocks(e.name, e.target, e.attr, e.size, LF_SYMLINK, ino, p.count);
    NamesRun(c, st, s, pos, e.name, e.target, e.attr, e.size, LF_SYMLINK, ino, p.count, rest);
    var at := pos + SpanOf(h) - RECORDSIZE;
    var st2 := AfterNames(st, e.name, e.target, e.attr);
    HeadStep(c, st2, s, at, e.name, e.target, e.attr, e.size, LF_SYMLINK, ino, p.count, rest);
    var r := HeadRec(e.name, e.target, e.attr, e.size, LF_SYMLINK, ino, p.count);
    NameRead(st, e.name, e.target, e.attr, r);
    var st3 := Loaded(st2, e.attr, LF_SYMLINK);
    st' := OnSym(c, st3, r);
    Branches(c, st3, r, OctAtoi(r[SIZE..]), s, at + RECORDSIZE);
    SymTaken(c, st, e, r);
    RunStep(c, st2, s, at);
  }

  // ---- regular files ----

  /** One header of a file and, with it, the step that reads its data. */
  lemma FileHeadRun(c: Choice, st: St, s: seq<byte>, pos: nat, f: Entry, section: nat, size: nat, count: nat,
                    rest: seq<Block>)
      returns (at: nat, r: seq<byte>)
    requires f.File? && GoodAttr(f.attr) && Sane(st) && !st.multi && Room(st, SectionName(f.name, section), [])
    requires f.name != [] && f.name[0] == SLASH && size <= INT_MAX && (f.nlink > 1 ==> f.ino <= INT_MAX)
    requires Laid(s, pos, FileHead(f, section, size, count) + rest)
    ensures at + RECORDSIZE == pos + SpanOf(FileHead(f, section, size, count)) && |r| == RECORDSIZE
    ensures var st2 := AfterName(st, SectionName(f.name, section), f.attr);
            && Run(c, st, s, pos) == Run(c, st2, s, at) && Sane(st2)
            && Step(c, st2, s, at) ==
                 Process(c, Loaded(st2, f.attr, LinkFlag([], f.nlink)), r, size, s, at + RECORDSIZE)
    ensures Laid(s, at + RECORDSIZE, rest)
    ensures r[FLAG] == LinkFlag([], f.nlink) && r[0] != 0
    ensures |SectionName(f.name, section)| < NAMSIZ ==> CStr(r) == SectionName(f.name, section) && r[0] == SLASH
    ensures f.nlink > 1 ==> OctAtoi(r[SHARED..]) == f.ino
  {
    hide Laid, Run, HeadBlocks, HeadRec, Shown, Step, CStr, OctAtoi, Splice, Wanted, Process;
    var name, flag, ino := SectionName(f.name, section), LinkFlag([], f.nlink), InoField(f.nlink, f.ino);
    NamesRun(c, st, s, pos, name, [], f.attr, size, flag, ino, count, rest);
    at := pos + SpanOf(FileHead(f, section, size, count)) - RECORDSIZE;
    var st2 := AfterNames(st, name, [], f.attr);
    HeadStep(c, st2, s, at, name, [], f.attr, size, flag, ino, count, rest);
    r := HeadRec(name, [], f.attr, size, flag, ino, count);
    if f.nlink > 1 {
      HeadInode(name, [], f.attr, size, flag, f.ino, count);
    }
  }

  /** A file whose header announces all of its data. */
  lemma OnFileWhole(c: Choice, st: St, r: seq<byte>, hard: Option<int>, s: seq<byte>, pos: nat, name: Str, data: Str)
    requires |r| == RECORDSIZE && FileName(st, r) == name
    requires st.hugename == [] && st.hugeSize == 0 && st.fp.None? && !st.multi && Sane(st)
    requires Avail(s, pos, |data|) && Payload(s, pos, |data|) == data
    ensures OnFile(c, st, r, |data|, hard, s, pos).Some?
    ensures var (st', pos') := OnFile(c, st, r, |data|, hard, s, pos).value;
            var path := Target(c, name);
            && pos' == Past(pos, |data|) && Clean(st')
            && st'.made == st.made + (if path.Some? then [NewFile(path.value, data, st.acls)] else [])
            && st'.links == (if hard.Some? then AddLink(st.links, hard.value, path) else st.links)
            && st'.acls == if path.Some? then NO_ACLS else st.acls
  {
    assert [] + data == data;
  }

  /** The blocks of a file that is not huge: a header, and its data unless it is empty or out already. */
  lemma PlainBlocks(f: Entry, p: Printer)
    requires f.File? && |f.data| <= MAX_TAR_IMAGE
    ensures FileBlocks(f, p) == FileHead(f, 0, |f.data|, p.count)
                                + if LinkDone(f, p.queue) || f.data == [] then [] else [Mem(f.data, |f.data|)]
  {
    var h := FileHead(f, 0, |f.data|, p.count);
    assert h + [] == h;
    if !(LinkDone(f, p.queue) || f.data == []) {
      assert f.data[0..|f.data|] == f.data;
      assert SectionBlocks(f, |f.data|, 1, HeadCount(SectionName(f.name, 0), [], p.count)) == [];
      assert h + [Mem(f.data, |f.data|)] + [] == h + [Mem(f.data, |f.data|)];
    }
  }

  lemma DataAt(s: seq<byte>, pos: nat, data: Str, rest: seq<Block>)
    requires Laid(s, pos, (if data == [] then [] else [Mem(data, |data|)]) + rest) && pos <= |s|
    ensures Avail(s, pos, |data|) && Payload(s, pos, |data|) == data && Laid(s, Past(pos, |data|), rest)
    ensures Past(pos, |data|) == pos + SpanOf(if data == [] then [] else [Mem(data, |data|)])
  {
    if data == [] {
      assert [] + rest == rest;
    } else {
      TextAt(s, pos, data, rest);
      assert [Mem(data, |data|)][1..] == [];
    }
  }

  function NoAcl(f: Entry): Entry
    requires f.File?
  {
    File(f.name, f.data, f.nlink, f.ino, f.attr, None)
  }

  lemma Regroup<T>(a: seq<T>, b: seq<T>, c: seq<T>)
    ensures a + b + c == a + (b + c)
  {
  }

  function Hard(f: Entry): Option<int>
    requires f.File?
  {
    if f.nlink > 1 then Some(f.ino) else None
  }

  /** The branch a file's header takes: a link to a queued inode, or a file. */
  lemma FileBranch(c: Choice, st: St, f: Entry, r: seq<byte>, size: int, s: seq<byte>, pos: nat)
    requires f.File? && |r| == RECORDSIZE && r[FLAG] == LinkFlag([], f.nlink) && r[0] != 0
    requires f.nlink > 1 ==> f.ino > 0 && OctAtoi(r[SHARED..]) == f.ino
    ensures Process(c, st, r, size, s, pos) ==
              if f.nlink > 1 && f.ino in st.links then Some((OnQueuedLink(c, st, r, f.ino), pos))
              else OnFile(c, st, r, size, Hard(f), s, pos)
  {
    hide OctAtoi, OnFile, OnQueuedLink;
  }

  /** The state in which the data of a file of one section is read. */
  function FileSt(st: St, f: Entry): St
    requires f.File?
  {
    Loaded(AfterName(st, f.name, f.attr), f.attr, LinkFlag([], f.nlink))
  }

  lemma QueuedTaken(c: Choice, st: St, f: Entry, r: seq<byte>)
    requires f.File? && Clean(st) && Queued(f, CarryOf(st)) && Name(FileSt(st, f), r) == f.name
    ensures f.ino in FileSt(st, f).links
    ensures var st' := OnQueuedLink(c, FileSt(st, f), r, f.ino);
            && Sane(st') && Clean(st') && st'.made == st.made + Expected(c, NoAcl(f), CarryOf(st))
            && CarryOf(st') == After(c, NoAcl(f), CarryOf(st))
  {
    hide Target, Wanted, Shown, Splice, CStr, Name;
  }

  lemma WholeTaken(c: Choice, st: St, f: Entry, r: seq<byte>, s: seq<byte>, pos: nat)
    requires f.File? && Clean(st) && !Queued(f, CarryOf(st)) && |r| == RECORDSIZE
    requires FileName(FileSt(st, f), r) == f.name
    requires Avail(s, pos, |f.data|) && Payload(s, pos, |f.data|) == f.data
    ensures OnFile(c, FileSt(st, f), r, |f.data|, Hard(f), s, pos).Some?
    ensures var (st', pos') := OnFile(c, FileSt(st, f), r, |f.data|, Hard(f), s, pos).value;
            && pos' == Past(pos, |f.data|) && Sane(st') && Clean(st')
            && st'.made == st.made + Expected(c, NoAcl(f), CarryOf(st))
            && CarryOf(st') == After(c, NoAcl(f), CarryOf(st))
  {
    hide Target, Wanted, Shown, Splice, CStr, FileName, OnFile, Avail, Payload, Past;
    OnFileWhole(c, FileSt(st, f), r, Hard(f), s, pos, f.name, f.data);
  }

  function DataOut(f: Entry, p: Printer): Str
    requires f.File?
  {
    if LinkDone(f, p.queue) then [] else f.data
  }

  /** The header of a file of one section is read: what it is called, and where its data is. */
  lemma PlainHead(c: Choice, st: St, s: seq<byte>, pos: nat, f: Entry, p: Printer, rest: seq<Block>)
      returns (at: nat, r: seq<byte>)
    requires f.File? && Printable(f) && |f.data| <= MAX_TAR_IMAGE && Clean(st)
    requires Laid(s, pos, FileBlocks(f, p) + rest)
    ensures |r| == RECORDSIZE && r[FLAG] == LinkFlag([], f.nlink) && r[0] != 0
    ensures f.nlink > 1 ==> f.ino > 0 && OctAtoi(r[SHARED..]) == f.ino
    ensures at + RECORDSIZE == pos + SpanOf(FileHead(f, 0, |f.data|, p.count))
    ensures var st2 := AfterName(st, f.name, f.attr);
            && Sane(st) && Sane(st2) && Run(c, st, s, pos) == Run(c, st2, s, at)
            && Step(c, st2, s, at) == Process(c, FileSt(st, f), r, |f.data|, s, at + RECORDSIZE)
    ensures var data := DataOut(f, p);
            && Avail(s, at + RECORDSIZE, |data|) && Payload(s, at + RECORDSIZE, |data|) == data
            && Past(at + RECORDSIZE, |data|) == pos + SpanOf(FileBlocks(f, p))
            && Laid(s, pos + SpanOf(FileBlocks(f, p)), rest)
    ensures Name(FileSt(st, f), r) == f.name && FileName(FileSt(st, f), r) == f.name
  {
    hide Laid, Run, FileHead, Shown, Step, CStr, OctAtoi, Avail, Payload, Process, Past, SpanOf, Clean, AfterName,
         Loaded, Sane, Room, NulFree, GoodAttr, Name, FileName, LinkFlag, NamesFit, FileBlocks;
    NulFreeEmpty();
    NamesFitClean(st, None, f.name, [], f.attr);
    var data := DataOut(f, p);
    var h, m := FileHead(f, 0, |f.data|, p.count), if data == [] then [] else [Mem(data, |data|)];
    PlainBlocks(f, p);
    Regroup(h, m, rest);
    at, r := FileHeadRun(c, st, s, pos, f, 0, |f.data|, p.count, m + rest);
    SpanConcat(h, m);
    FileNameRead(st, f.name, f.attr, r);
    FileStSame(st, f, r);
    LaidBound(s, at + RECORDSIZE, m + rest);
    DataAt(s, at + RECORDSIZE, data, rest);
  }

  /** After its ACL record: a file of one section. */
  lemma PlainFileRun(c: Choice, st: St, s: seq<byte>, pos: nat, f: Entry, p: Printer, rest: seq<Block>)
      returns (st': St)
    requires f.File? && Printable(f) && |f.data| <= MAX_TAR_IMAGE && Clean(st) && Agrees(f, st.links, p.queue)
    requires Laid(s, pos, FileBlocks(f, p) + rest)
    ensures Sane(st') && Run(c, st, s, pos) == Run(c, st', s, pos + SpanOf(FileBlocks(f, p)))
    ensures Laid(s, pos + SpanOf(FileBlocks(f, p)), rest)
    ensures Clean(st') && st'.made == st.made + Expected(c, NoAcl(f), CarryOf(st))
    ensures CarryOf(st') == After(c, NoAcl(f), CarryOf(st))
  {
    hide Laid, Run, Step, CStr, OctAtoi, Avail, Payload, OnFile, Process, OnQueuedLink, SpanOf, Clean, Expected, After,
         AfterName, Sane, Name, FileName, Printable, FileBlocks, FileSt;
    var at, r := PlainHead(c, st, s, pos, f, p, rest);
    FileStSame(st, f, r);
    FileBranch(c, FileSt(st, f), f, r, |f.data|, s, at + RECORDSIZE);
    if LinkDone(f, p.queue) {
      QueuedTaken(c, st, f, r);
      st' := OnQueuedLink(c, FileSt(st, f), r, f.ino);
    } else {
      WholeTaken(c, st, f, r, s, at + RECORDSIZE);
      st' := OnFile(c, FileSt(st, f), r, |f.data|, Hard(f), s, at + RECORDSIZE).value.0;
    }
    RunStep(c, AfterName(st, f.name, f.attr), s, at);
  }

  /** The attributes loaded with the header change neither the names nor the queue. */
  lemma FileStSame(st: St, f: Entry, r: seq<byte>)
    requires f.File? && r != []
    ensures var st2 := AfterName(st, f.name, f.attr);
            && Name(FileSt(st, f), r) == Name(st2, r) && FileName(FileSt(st, f), r) == FileName(st2, r)
            && FileSt(st, f).links == st.links
  {
    hide CStr, Shown, Splice;
  }

  lemma FileNameRead(st: St, name: Str, a: Attr, r: seq<byte>)
    requires st.longname == [] && st.nmEnd == 0 && st.hugename == []
    requires GoodName(name) && |r| == RECORDSIZE
    requires |name| < NAMSIZ ==> CStr(r) == name && r[0] == SLASH
    ensures FileName(AfterName(st, name, a), r) == name && Name(AfterName(st, name, a), r) == name
  {
    CStrWhole(name);
    assert [] + name == name;
  }

  // ---- huge files ----

  /** Between two sections: done bytes are in the open file, and the huge-file counter holds the rest. */
  ghost predicate MidFile(c: Choice, st: St, f: Entry, done: nat, used: nat)
    requires f.File?
  {
    && done <= |f.data| && st.hugename == f.name && st.hugeSize == |f.data| - done && st.nmEnd == used
    && st.longlink == [] && st.lnkEnd == 0 && !st.multi && Sane(st)
    && st.fp == (if done == 0 || Target(c, f.name).None? then None
                 else Some(OpenFile(Target(c, f.name).value, f.data[..done])))
  }

  /** The next bytes join the open file, which is closed with the last ones. */
  lemma SectionWritten(c: Choice, st: St, f: Entry, done: nat, used: nat)
    requires f.File? && done < |f.data| && MidFile(c, st, f, done, used)
    ensures var n, path := SectionSize(f, done), Target(c, f.name);
            var st1 := RestoreFile(st, path, f.data[done..done + n], n);
            && st1 == st.(fp := st1.fp, made := st1.made, acls := st1.acls)
            && if done + n < |f.data|
               then && st1.made == st.made && st1.acls == st.acls
                    && st1.fp == if path.None? then None else Some(OpenFile(path.value, f.data[..done + n]))
               else && st1.fp.None?
                    && st1.made == st.made + (if path.Some? then [NewFile(path.value, f.data, st.acls)] else [])
                    && st1.acls == if path.Some? then NO_ACLS else st.acls
  {
    hide Target, Wanted;
    var n := SectionSize(f, done);
    Adjoins(f.data, done, done + n);
  }

  lemma Adjoins(d: Str, i: nat, j: nat)
    requires i <= j <= |d|
    ensures d[..i] + d[i..j] == d[..j] && (i == 0 ==> [] + d[i..j] == d[..j]) && (j == |d| ==> d[..j] == d)
  {
  }

  /** One section is read: the file stays open until the last one, and is closed then. */
  lemma OnFileSection(c: Choice, st: St, r: seq<byte>, s: seq<byte>, pos: nat, f: Entry, done: nat, used: nat)
    requires f.File? && done < |f.data| && f.name != [] && MidFile(c, st, f, done, used) && |r| == RECORDSIZE
    requires var n := SectionSize(f, done); Avail(s, pos, n) && Payload(s, pos, n) == f.data[done..done + n]
    ensures OnFile(c, st, r, SectionSize(f, done), None, s, pos).Some?
    ensures var n := SectionSize(f, done);
            var (st', pos') := OnFile(c, st, r, n, None, s, pos).value;
            var path := Target(c, f.name);
            && pos' == Past(pos, n) && st'.links == st.links
            && if done + n < |f.data|
               then MidFile(c, st', f, done + n, used) && st'.made == st.made && st'.acls == st.acls
               else && Clean(st')
                    && st'.made == st.made + (if path.Some? then [NewFile(path.value, f.data, st.acls)] else [])
                    && st'.acls == if path.Some? then NO_ACLS else st.acls
  {
    hide Target, Wanted, RestoreFile, PopTo, CStr, Avail, Payload, Past;
    SectionWritten(c, st, f, done, used);
  }

  lemma SectionMem(s: seq<byte>, pos: nat, f: Entry, done: nat, rest: seq<Block>)
    requires f.File? && done < |f.data| && Laid(s, pos, [SectionData(f, done)] + rest)
    ensures var n := SectionSize(f, done);
            && Avail(s, pos, n) && Payload(s, pos, n) == f.data[done..done + n]
            && Past(pos, n) == pos + SpanOf([SectionData(f, done)]) && Laid(s, Past(pos, n), rest)
  {
    var n := SectionSize(f, done);
    TextAt(s, pos, f.data[done..done + n], rest);
    assert [SectionData(f, done)][1..] == [];
  }

  lemma SectionNameGood(name: Str, section: nat)
    requires GoodName(name)
    ensures NulFree(SectionName(name, section))
  {
  }

  /** How much of the name buffer a section's name takes up. */
  function Used(f: Entry, section: nat, used: nat): nat
    requires f.File?
  {
    var n := |SectionName(f.name, section)|;
    if n >= NAMSIZ then used + n else used
  }

  /** What one section leaves: the file half written, or done. */
  ghost predicate SectionDone(c: Choice, st: St, st': St, f: Entry, done: nat, used: nat)
    requires f.File? && done <= |f.data|
  {
    var path := Target(c, f.name);
    var acls := Acls(Shown(f.attr), st.acls.acl);
    && Sane(st') && st'.links == st.links
    && if done < |f.data| then MidFile(c, st', f, done, used) && st'.made == st.made && st'.acls == acls
       else && Clean(st') && st'.made == st.made + (if path.Some? then [NewFile(path.value, f.data, acls)] else [])
            && st'.acls == if path.Some? then NO_ACLS else acls
  }

  lemma SectionTaken(c: Choice, st: St, r: seq<byte>, s: seq<byte>, pos: nat, f: Entry, done: nat, section: nat,
                     used: nat)
    requires f.File? && done < |f.data| && f.name != [] && MidFile(c, st, f, done, used) && |r| == RECORDSIZE
    requires var n := SectionSize(f, done); Avail(s, pos, n) && Payload(s, pos, n) == f.data[done..done + n]
    ensures var n := SectionSize(f, done);
            var st3 := Loaded(AfterName(st, SectionName(f.name, section), f.attr), f.attr, LF_NORMAL);
            && OnFile(c, st3, r, n, None, s, pos).Some? && OnFile(c, st3, r, n, None, s, pos).value.1 == Past(pos, n)
            && SectionDone(c, st, OnFile(c, st3, r, n, None, s, pos).value.0, f, done + n, Used(f, section, used))
  {
    hide Shown, CStr, Wanted, Avail, Payload, OnFile, Splice, Past, Target, SectionName;
    var st3 := Loaded(AfterName(st, SectionName(f.name, section), f.attr), f.attr, LF_NORMAL);
    OnFileSection(c, st3, r, s, pos, f, done, Used(f, section, used));
  }

  /** The header of one section is read, and its data is where the header says. */
  lemma SectionHead(c: Choice, st: St, s: seq<byte>, pos: nat, f: Entry, done: nat, section: nat, count: nat,
                    rest: seq<Block>) returns (at: nat, r: seq<byte>)
    requires f.File? && GoodName(f.name) && GoodAttr(f.attr) && f.nlink <= 1 && done < |f.data|
    requires Sane(st) && !st.multi && Room(st, SectionName(f.name, section), [])
    requires Laid(s, pos, FileHead(f, section, SectionSize(f, done), count) + [SectionData(f, done)] + rest)
    ensures |r| == RECORDSIZE && r[FLAG] == LF_NORMAL && r[0] != 0
    ensures var st2 := AfterName(st, SectionName(f.name, section), f.attr);
            && Sane(st2) && Run(c, st, s, pos) == Run(c, st2, s, at)
            && Step(c, st2, s, at) ==
                 Process(c, Loaded(st2, f.attr, LF_NORMAL), r, SectionSize(f, done), s, at + RECORDSIZE)
    ensures var n := SectionSize(f, done);
            var end := pos + SpanOf(FileHead(f, section, n, count) + [SectionData(f, done)]);
            && Avail(s, at + RECORDSIZE, n) && Payload(s, at + RECORDSIZE, n) == f.data[done..done + n]
            && Past(at + RECORDSIZE, n) == end && Laid(s, end, rest)
  {
    hide Laid, Run, FileHead, Shown, Step, CStr, OctAtoi, Avail, Payload, Past, SpanOf, GoodAttr, NulFree, SectionData,
         SectionName, Room, AfterName, Loaded, Process, Sane;
    var n := SectionSize(f, done);
    var h, m := FileHead(f, section, n, count), [SectionData(f, done)];
    Regroup(h, m, rest);
    SpanConcat(h, m);
    at, r := FileHeadRun(c, st, s, pos, f, section, n, count, m + rest);
    SectionMem(s, at + RECORDSIZE, f, done, rest);
  }

  lemma MidRoom(c: Choice, st: St, f: Entry, done: nat, section: nat, used: nat)
    requires f.File? && GoodName(f.name) && MidFile(c, st, f, done, used) && Used(f, section, used) <= MAX_PATH_NAME
    ensures Sane(st) && !st.multi && Room(st, SectionName(f.name, section), [])
  {
    hide NulFree;
    SectionNameGood(f.name, section);
    NulFreeEmpty();
  }

  lemma OneSection(c: Choice, st: St, s: seq<byte>, pos: nat, f: Entry, done: nat, section: nat, used: nat, count: nat,
                   rest: seq<Block>) returns (st': St)
    requires f.File? && GoodName(f.name) && GoodAttr(f.attr) && f.nlink <= 1
    requires done < |f.data| && Used(f, section, used) <= MAX_PATH_NAME && MidFile(c, st, f, done, used)
    requires Laid(s, pos, FileHead(f, section, SectionSize(f, done), count) + [SectionData(f, done)] + rest)
    ensures var bs := FileHead(f, section, SectionSize(f, done), count) + [SectionData(f, done)];
            && Sane(st) && Sane(st') && Run(c, st, s, pos) == Run(c, st', s, pos + SpanOf(bs))
            && Laid(s, pos + SpanOf(bs), rest)
    ensures SectionDone(c, st, st', f, done + SectionSize(f, done), Used(f, section, used))
  {
    hide Laid, Run, FileHead, Step, OctAtoi, Avail, Payload, OnFile, Past, SpanOf, GoodAttr, SectionData, SectionDone,
         SectionName, Room, AfterName, Loaded, Process, Used, MidFile, Sane;
    MidRoom(c, st, f, done, section, used);
    var at, r := SectionHead(c, st, s, pos, f, done, section, count, rest);
    var st2 := AfterName(st, SectionName(f.name, section), f.attr);
    FileBranch(c, Loaded(st2, f.attr, LF_NORMAL), f, r, SectionSize(f, done), s, at + RECORDSIZE);
    SectionTaken(c, st, r, s, at + RECORDSIZE, f, done, section, used);
    st' := OnFile(c, Loaded(st2, f.attr, LF_NORMAL), r, SectionSize(f, done), None, s, at + RECORDSIZE).value.0;
    DoneSane(c, st, st', f, done + SectionSize(f, done), Used(f, section, used));
    RunStep(c, st2, s, at);
  }

  lemma DoneSane(c: Choice, st: St, st': St, f: Entry, done: nat, used: nat)
    requires f.File? && done <= |f.data| && SectionDone(c, st, st', f, done, used)
    ensures Sane(st')
  {
  }

  /** All the sections from done on: whatever the lengths of their names, as long as they fit. */
  lemma {:induction false} SectionsRun(c: Choice, st: St, s: seq<byte>, pos: nat, f: Entry, done: nat, section: nat,
                                       used: nat, count: nat, rest: seq<Block>) returns (st': St)
    requires f.File? && GoodName(f.name) && GoodAttr(f.attr) && f.nlink <= 1
    requires done < |f.data| && NamesFit(f, done, section, used) && MidFile(c, st, f, done, used)
    requires Laid(s, pos, SectionBlocks(f, done, section, count) + rest)
    ensures Sane(st') && Run(c, st, s, pos) == Run(c, st', s, pos + SpanOf(SectionBlocks(f, done, section, count)))
    ensures Laid(s, pos + SpanOf(SectionBlocks(f, done, section, count)), rest)
    ensures var path := Target(c, f.name);
            var acls := Acls(Shown(f.attr), st.acls.acl);
            && Clean(st') && st'.links == st.links
            && st'.made == st.made + (if path.Some? then [NewFile(path.value, f.data, acls)] else [])
            && st'.acls.acl == if path.Some? then None else st.acls.acl
    decreases |f.data| - done
  {
    hide Laid, Run, FileHead, Shown, Wanted, SpanOf, GoodAttr, SectionData, MidFile, Clean, GoodName, Target, HeadCount;
    var n := SectionSize(f, done);
    var bs := FileHead(f, section, n, count) + [SectionData(f, done)];
    var count' := HeadCount(SectionName(f.name, section), [], count);
    var later := SectionBlocks(f, done + n, section + 1, count');
    assert SectionBlocks(f, done, section, count) == bs + later;
    Regroup(bs, later, rest);
    SpanConcat(bs, later);
    var st1 := OneSection(c, st, s, pos, f, done, section, used, count, later + rest);
    if done + n < |f.data| {
      st' := SectionsRun(c, st1, s, pos + SpanOf(bs), f, done + n, section + 1, Used(f, section, used), count', rest);
    } else {
      assert later == [] && later + rest == rest;
      NoSpan();
      st' := st1;
    }
  }

  lemma NulFreeEmpty()
    ensures NulFree([])
  {
  }

  lemma NoSpan()
    ensures SpanOf([]) == 0
  {
  }

  // ---- entries and archives ----

  lemma FileRun(c: Choice, st: St, s: seq<byte>, pos: nat, f: Entry, p: Printer, rest: seq<Block>) returns (st': St)
    requires f.File? && Printable(f) && Clean(st) && Agrees(f, st.links, p.queue)
    requires Laid(s, pos, EntryBlocks(f, p) + rest)
    ensures Sane(st') && Run(c, st, s, pos) == Run(c, st', s, pos + SpanOf(EntryBlocks(f, p)))
    ensures Laid(s, pos + SpanOf(EntryBlocks(f, p)), rest)
    ensures Clean(st') && st'.made == st.made + Expected(c, f, CarryOf(st)) && CarryOf(st') == After(c, f, CarryOf(st))
  {
    hide Laid, Run, FileBlocks, HugeBlocks, AclBlocks, Shown, Wanted, SpanOf, SectionBlocks, NamesFit, GoodAttr;
    hide FileHead;
    var a, h, b := AclBlocks(f.acl), HugePrefix(f), FileBlocks(f, p);
    assert a + h + b + rest == a + (h + (b + rest));
    AclRun(c, st, s, pos, f.acl, h + (b + rest));
    var st1 := AfterAcl(st, f.acl);
    var pos1 := pos + SpanOf(a);
    SpanConcat(a + h, b);
    SpanConcat(a, h);
    if |f.data| <= MAX_TAR_IMAGE {
      NoSpan();
      assert h + (b + rest) == b + rest;
      st' := PlainFileRun(c, st1, s, pos1, f, p, rest);
    } else {
      HugeRun(c, st1, s, pos1, f.name, |f.data|, b + rest);
      HugeFileBlocks(f, p);
      st' := SectionsRun(c, AfterHuge(st1, f.name, |f.data|), s, pos1 + SpanOf(h), f, 0, 1, 0, p.count, rest);
    }
  }

  lemma HugeFileBlocks(f: Entry, p: Printer)
    requires f.File? && |f.data| > MAX_TAR_IMAGE && f.nlink <= 1
    ensures FileBlocks(f, p) == SectionBlocks(f, 0, 1, p.count)
  {
  }

  /** Every entry comes back as it should, if the two hard-link queues agree about it. */
  lemma EntryRun(c: Choice, st: St, s: seq<byte>, pos: nat, e: Entry, p: Printer, rest: seq<Block>) returns (st': St)
    requires Printable(e) && Clean(st) && Agrees(e, st.links, p.queue) && Laid(s, pos, EntryBlocks(e, p) + rest)
    ensures Sane(st') && Run(c, st, s, pos) == Run(c, st', s, pos + SpanOf(EntryBlocks(e, p)))
    ensures Laid(s, pos + SpanOf(EntryBlocks(e, p)), rest)
    ensures Clean(st') && st'.made == st.made + Expected(c, e, CarryOf(st)) && CarryOf(st') == After(c, e, CarryOf(st))
  {
    hide Laid, Run, EntryBlocks, SpanOf, Printable, Expected;
    match e
    case Dir(_, _, _, _) => st' := DirRun(c, st, s, pos, e, p, rest);
    case Sym(_, _, _, _, _, _) => st' := SymRun(c, st, s, pos, e, p, rest);
    case File(_, _, _, _, _, _) => st' := FileRun(c, st, s, pos, e, p, rest);
  }

  /** The objects a list of entries should come back as, and what is carried after them. */
  ghost function ExpectedAll(c: Choice, es: seq<Entry>, k: Carry): seq<Restored> {
    if es == [] then [] else
      ExpectedAll(c, es[..|es| - 1], k) + Expected(c, es[|es| - 1], CarryAll(c, es[..|es| - 1], k))
  }

  ghost function CarryAll(c: Choice, es: seq<Entry>, k: Carry): Carry {
    if es == [] then k else After(c, es[|es| - 1], CarryAll(c, es[..|es| - 1], k))
  }

  /** Where the queues agree, they go on agreeing. */
  lemma {:induction false} AgreeStill(c: Choice, e: Entry, es: seq<Entry>, k: Carry, p: Printer)
    requires Agrees(e, k.links, p.queue)
    ensures Agrees(e, CarryAll(c, es, k).links, AfterAll(es, p).queue)
    decreases |es|
  {
    if es != [] {
      hide Target, Expected, SectionCount, HeadCount;
      AgreeStill(c, e, es[..|es| - 1], k, p);
    }
  }

  lemma {:induction false} ArchiveRun(c: Choice, st: St, s: seq<byte>, from: nat, es: seq<Entry>, p: Printer,
                                      rest: seq<Block>) returns (st': St)
    requires forall e :: e in es ==> Printable(e)
    requires Clean(st) && AllAgree(es, st.links, p.queue) && Laid(s, from, ArchiveBlocks(es, p) + rest)
    ensures Sane(st') && Run(c, st, s, from) == Run(c, st', s, from + SpanOf(ArchiveBlocks(es, p)))
    ensures Laid(s, from + SpanOf(ArchiveBlocks(es, p)), rest)
    ensures Clean(st') && st'.made == st.made + ExpectedAll(c, es, CarryOf(st))
    ensures CarryOf(st') == CarryAll(c, es, CarryOf(st))
    decreases |es|
  {
    hide Laid, Run, EntryBlocks, SpanOf, Printable, Expected, After, AfterEntry;
    if es == [] {
      NoSpan();
      assert ArchiveBlocks(es, p) + rest == rest;
      st' := st;
    } else {
      var before, e := es[..|es| - 1], es[|es| - 1];
      var q := AfterAll(before, p);
      var a, b := ArchiveBlocks(before, p), EntryBlocks(e, q);
      assert a + b + rest == a + (b + rest);
      var st1 := ArchiveRun(c, st, s, from, before, p, b + rest);
      AgreeStill(c, e, before, CarryOf(st), p);
      st' := EntryRun(c, st1, s, from + SpanOf(a), e, q, rest);
      SpanConcat(a, b);
      assert st.made + ExpectedAll(c, before, CarryOf(st)) + Expected(c, e, CarryOf(st1))
          == st.made + (ExpectedAll(c, before, CarryOf(st)) + Expected(c, e, CarryOf(st1)));
    }
  }

  predicate ZerosFrom(s: seq<byte>, pos: nat) {
    forall i :: pos <= i < |s| ==> s[i] == 0
  }

  /** A record that does not pass its checksum is passed over. */
  lemma RefusedStep(c: Choice, st: St, s: seq<byte>, pos: nat)
    requires Sane(st) && !st.multi && pos + 512 <= |s| && Verify(s[pos..][..512]) != 1
    ensures Step(c, st, s, pos) == Some((st, pos + 512)) && Run(c, st, s, pos) == Run(c, st, s, pos + 512)
  {
    hide Run, Verify, Process;
    RunStep(c, st, s, pos);
  }

  /** All-zero records change nothing. */
  lemma {:induction false} ZerosRun(c: Choice, st: St, s: seq<byte>, pos: nat)
    requires Sane(st) && !st.multi && ZerosFrom(s, pos)
    ensures Run(c, st, s, pos).0 == st
    decreases |s| - pos
  {
    hide Verify, Process;
    if pos + RECORDSIZE <= |s| {
      VerifyZero(s[pos..][..RECORDSIZE]);
      RefusedStep(c, st, s, pos);
      hide Run, Step;
      ZerosRun(c, st, s, pos + RECORDSIZE);
    }
  }

  /**
   * The archive round trip: whatever fills the paddings, and whatever the selection, restoring a printed
   * archive with a hard-link queue that agrees with the printer's on its entries puts back just what is expected.
   */
  lemma ArchiveRoundTrip(c: Choice, es: seq<Entry>, p: Printer, links: map<int, Option<Str>>, s: seq<byte>, from: nat)
    requires forall e :: e in es ==> Printable(e)
    requires AllAgree(es, links, p.queue)
    requires Laid(s, from, ArchiveBlocks(es, p)) && ZerosFrom(s, from + SpanOf(ArchiveBlocks(es, p)))
    ensures Restore(c, links, s, from).made == ExpectedAll(c, es, Carry(links, None))
  {
    hide Laid, Run, ArchiveBlocks, SpanOf, Printable, ExpectedAll, CarryAll, AfterAll, ZerosFrom;
    assert ArchiveBlocks(es, p) + [] == ArchiveBlocks(es, p);
    var st' := ArchiveRun(c, Start(links), s, from, es, p, []);
    ZerosRun(c, st', s, from + SpanOf(ArchiveBlocks(es, p)));
  }
}
