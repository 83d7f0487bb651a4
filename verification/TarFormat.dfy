/** What the backup side prints for an entry: a list of blocks, and what it means for a stream to hold them. */
module TarFormat {
  import opened Bytes
  import opened Octal
  import opened TarHeader

  const MAX_TAR_IMAGE := 0x7fff_fff8
  const OCTAL7CHAR := 0x1f_ffff
  const ID_NOBODY := 65534
  const LONGNAME_PREFIX := "././_LoNg_NaMe_"

  /** The attributes of a stat that a header carries. */
  datatype Attr = Attr(mode: nat, uid: nat, gid: nat, uname: Str, gname: Str, mtime: nat)

  /**
   * One object of the backed-up tree. A directory's and a symlink's size is what stat says of them;
   * no data follows their headers. acl is the payload of an ACL record (struct sec_attr and its text).
   */
  datatype Entry =
    | Dir(name: Str, size: nat, attr: Attr, acl: Option<Str>)
    | Sym(name: Str, target: Str, size: nat, nlink: nat, ino: nat, attr: Attr)
    | File(name: Str, data: Str, nlink: nat, ino: nat, attr: Attr, acl: Option<Str>)

  /** A block: an exact record, or a payload of len bytes of which only the first are fixed, padded to whole records. */
  datatype Block = Rec(r: seq<byte>) | Mem(bytes: Str, len: nat)
  {
    predicate Valid() {
      match this
      case Rec(r) => |r| == RECORDSIZE
      case Mem(b, len) => |b| <= len
    }

    function Span(): (n: nat)
      ensures Whole(n)
    {
      match this
      case Rec(_) => RECORDSIZE
      case Mem(_, len) => Round(len)
    }

    function Bytes(): seq<byte> {
      match this
      case Rec(r) => r
      case Mem(b, _) => b
    }
  }

  function SpanOf(bs: seq<Block>): (n: nat)
    ensures Whole(n)
  {
    if bs == [] then 0 else bs[0].Span() + SpanOf(bs[1..])
  }

  /** s holds the blocks from pos on, whatever fills the paddings. */
  predicate Laid(s: seq<byte>, pos: nat, bs: seq<Block>)
    decreases |bs|
  {
    if bs == [] then pos <= |s| else
      && bs[0].Valid()
      && pos + bs[0].Span() <= |s|
      && s[pos..][..|bs[0].Bytes()|] == bs[0].Bytes()
      && Laid(s, pos + bs[0].Span(), bs[1..])
  }

  lemma {:induction false} SpanConcat(a: seq<Block>, b: seq<Block>)
    ensures SpanOf(a + b) == SpanOf(a) + SpanOf(b)
  {
    if a == [] {
      assert a + b == b;
    } else {
      assert (a + b)[1..] == a[1..] + b;
      SpanConcat(a[1..], b);
    }
  }

  lemma {:induction false} LaidConcat(s: seq<byte>, pos: nat, a: seq<Block>, b: seq<Block>)
    ensures Laid(s, pos, a + b) <==> Laid(s, pos, a) && Laid(s, pos + SpanOf(a), b)
    decreases |a|
  {
    if a == [] {
      assert a + b == b;
      if Laid(s, pos, b) {
        LaidBound(s, pos, b);
      }
    } else {
      assert (a + b)[1..] == a[1..] + b;
      LaidConcat(s, pos + a[0].Span(), a[1..], b);
    }
  }

  lemma {:induction false} LaidBound(s: seq<byte>, pos: nat, bs: seq<Block>)
    requires Laid(s, pos, bs)
    ensures pos + SpanOf(bs) <= |s|
    decreases |bs|
  {
    if bs != [] {
      LaidBound(s, pos + bs[0].Span(), bs[1..]);
    }
  }

  /** More bytes at the end of the stream do not disturb what it holds. */
  lemma {:induction false} LaidExtend(s: seq<byte>, t: seq<byte>, pos: nat, bs: seq<Block>)
    requires s <= t && Laid(s, pos, bs)
    ensures Laid(t, pos, bs)
    decreases |bs|
  {
    if bs != [] {
      LaidExtend(s, t, pos + bs[0].Span(), bs[1..]);
      assert t[pos..][..|bs[0].Bytes()|] == s[pos..][..|bs[0].Bytes()|];
    }
  }

  /** t is s with the blocks appended. */
  predicate Appended(s: seq<byte>, t: seq<byte>, bs: seq<Block>) {
    s <= t && |t| == |s| + SpanOf(bs) && Laid(t, |s|, bs)
  }

  lemma AppendedTwice(s: seq<byte>, t: seq<byte>, u: seq<byte>, a: seq<Block>, b: seq<Block>)
    requires Appended(s, t, a) && Appended(t, u, b)
    ensures Appended(s, u, a + b)
  {
    SpanConcat(a, b);
    LaidExtend(t, u, |s|, a);
    LaidConcat(u, |s|, a, b);
  }

  lemma AppendedOne(s: seq<byte>, t: seq<byte>, b: Block)
    requires b.Valid() && s <= t && |t| == |s| + b.Span() && t[|s|..][..|b.Bytes()|] == b.Bytes()
    ensures Appended(s, t, [b])
  {
    assert [b][1..] == [];
    assert SpanOf([b]) == b.Span();
  }

  // ---- names and headers ----

  const UTF8_MAGIC := "NDMPUTF8MAGIC"

  /** The record that marks the start of a backup. */
  function MagicRecord(): (r: seq<byte>)
    ensures |r| == RECORDSIZE
  {
    Ascii(UTF8_MAGIC) + Repeat(0, RECORDSIZE - |UTF8_MAGIC|)
  }

  function OwnerId(id: nat, name: Str): nat {
    if id > OCTAL7CHAR || name == [] then ID_NOBODY else id
  }

  /** "%s.%03d" */
  function SectionName(name: Str, section: nat): Str {
    if section == 0 then name else name + [DOT] + PadLeft(ZERO, 3, Digits(10, section))
  }

  /** The stand-in for a long name: the prefix, the running file count and an extension. */
  function Tag(count: nat, ext: string): (r: Str)
    requires IsAscii(ext)
    ensures 0 < |r| < NAMSIZ
  {
    Clip(Ascii(LONGNAME_PREFIX) + PadLeft(ZERO, 8, Digits(10, count)) + Ascii(ext), NAMSIZ)
  }

  /** A section's name is the file's, a dot, and at least three digits that are the number of the section. */
  lemma SectionNameIs(name: Str, section: nat)
    ensures section == 0 ==> SectionName(name, section) == name
    ensures section > 0 ==>
              var r := SectionName(name, section); var k := |name| + 1;
              && |r| >= k + 3 && r[..k] == name + [DOT] && AllDigits(10, r[k..]) && Value(10, r[k..]) == section
  {
    var d := Digits(10, section);
    DigitsValue(10, section);
    if section > 0 {
      if |d| < 3 {
        LeadingZeros(10, 3 - |d|, d);
      }
      assert SectionName(name, section)[|name| + 1..] == PadLeft(ZERO, 3, d);
    }
  }

  /** The stand-in for a long name is not cut: the prefix, the count in eight digits, and the extension. */
  lemma TagIs(count: nat, ext: string)
    requires (ext == FIL || ext == SLK) && count < 100000000
    ensures var r := Tag(count, ext); var k := |LONGNAME_PREFIX|;
            && |r| == k + 12 && r[..k] == Ascii(LONGNAME_PREFIX) && r[k + 8..] == Ascii(ext)
            && AllDigits(10, r[k..k + 8]) && Value(10, r[k..k + 8]) == count
  {
    var d := Digits(10, count);
    assert Pow(10, 8) == 100000000 by {
      assert Pow(10, 2) == 100 && Pow(10, 4) == 10000 && Pow(10, 6) == 1000000;
    }
    DigitsLength(10, count, 8);
    DigitsValue(10, count);
    if |d| < 8 {
      LeadingZeros(10, 8 - |d|, d);
    }
    assert Tag(count, ext)[|LONGNAME_PREFIX|..|LONGNAME_PREFIX| + 8] == PadLeft(ZERO, 8, d);
  }

  /** So stand-ins of different counts differ, and those of names from those of links. */
  lemma TagsDiffer(a: nat, x: string, b: nat, y: string)
    requires (x == FIL || x == SLK) && (y == FIL || y == SLK) && a < 100000000 && b < 100000000
    ensures Tag(a, x) == Tag(b, y) <==> a == b && x == y
  {
    TagIs(a, x);
    TagIs(b, y);
    hide Tag, Value;
    assert Ascii(FIL)[1] != Ascii(SLK)[1];
  }

  /** The count stays within its eight digits, and moves on by two for each long text until it starts over. */
  lemma CountStays(name: Str, link: Str, count: nat)
    requires count <= 99999990
    ensures var c := HeadCount(name, link, count);
            && c <= 99999990
            && (c == 0 || c == count + (if |name| < NAMSIZ then 0 else 2) + if |link| < NAMSIZ then 0 else 2)
            && (c == 0 ==> count == 0 || count > 99999986)
  {
  }

  const FIL := ".fil"
  const SLK := ".slk"

  function HeaderOf(name: Str, link: Str, a: Attr, size: nat, flag: byte, ino: Str): Header {
    Header(name, OctField(a.mode, 6, 8),
           OctField(OwnerId(a.uid, a.uname), 6, 8), OctField(OwnerId(a.gid, a.gname), 6, 8),
           OctField(size, 11, 12), OctField(a.mtime, 11, 12), flag, link, Ascii("ustar  "),
           Cut(a.uname, 31), Cut(a.gname, 31), ino)
  }

  /** A text too long for its header field goes out before it, behind a record of its own. */
  function LongBlocks(h: Header, text: Str): seq<Block> {
    if |text| >= NAMSIZ then [Rec(h.Record()), Mem(text, |text|)] else []
  }

  function Bump(count: nat, text: Str): nat {
    if |text| >= NAMSIZ then count + 1 else count
  }

  /** The header field: the text itself, or its stand-in. */
  function Short(text: Str, count: nat, ext: string): Str
    requires IsAscii(ext)
  {
    if |text| >= NAMSIZ then Tag(count, ext) else text
  }

  /** The file count after a header, counting two stand-ins for each long text. */
  function HeadCount(name: Str, link: Str, count: nat): nat {
    var c := Bump(Bump(Bump(Bump(count, name), link), name), link);
    if (|name| >= NAMSIZ || |link| >= NAMSIZ) && c > 99999990 then 0 else c
  }

  function NameHeader(name: Str, a: Attr, count: nat): Header {
    HeaderOf(Tag(count, FIL), [], a, |name|, LF_LONGNAME, [])
  }

  function LinkHeader(link: Str, a: Attr, count: nat): Header {
    HeaderOf([], Tag(count, SLK), a, |link|, LF_LONGLINK, [])
  }

  /** What output_file_header prints: a long-name record, a long-link record and the header. */
  function HeadBlocks(name: Str, link: Str, a: Attr, size: nat, flag: byte, ino: Str, count: nat): seq<Block> {
    var c1 := Bump(count, name);
    var c2 := Bump(c1, link);
    var c3 := Bump(c2, name);
    LongBlocks(NameHeader(name, a, count), name) + LongBlocks(LinkHeader(link, a, c1), link)
    + [Rec(HeaderOf(Short(name, c2, FIL), Short(link, c3, SLK), a, size, flag, ino).Record())]
  }

  const ACL_ATTR := Attr(0x124, 0, 0, [], [], 0)

  function AclHeader(size: nat): Header {
    HeaderOf(Ascii("UFSACL"), [], ACL_ATTR, size, LF_ACL, []).(uid := OctField(0, 6, 8), gid := OctField(0, 6, 8))
  }

  /** output_acl_header: nothing for a missing ACL, else a record and the payload. */
  function AclBlocks(acl: Option<Str>): seq<Block> {
    match acl
    case None => []
    case Some(p) => [Rec(AclHeader(|p|).Record()), Mem(p, |p|)]
  }

  function HugeHeader(len: nat): Header {
    Header([], [], [], [], OctField(len, 11, 12), [], LF_HUMONGUS, [], [], [], [], [])
  }

  /** "%lld %s" and its NUL. */
  function HugeText(name: Str, size: nat): Str {
    Digits(10, size) + [BLANK] + name + [0]
  }

  function HugeLen(name: Str): nat {
    20 + 1 + |name| + 1
  }

  /** For every size a file can have, the text fits its buffer, which has less than twenty bytes more. */
  lemma HugeTextFits(name: Str, size: nat)
    requires size <= LLONG_MAX
    ensures |HugeText(name, size)| <= HugeLen(name) < |HugeText(name, size)| + 20
  {
    assert Pow(10, 20) == 100000000000000000000 by {
      assert Pow(10, 4) == 10000;
      assert Pow(10, 8) == 100000000;
      assert Pow(10, 12) == 1000000000000;
      assert Pow(10, 16) == 10000000000000000;
    }
    DigitsLength(10, size, 20);
  }

  function HugeBlocks(name: Str, size: nat): seq<Block> {
    [Rec(HugeHeader(HugeLen(name)).Record()), Mem(HugeText(name, size), HugeLen(name))]
  }

  /** The header flag of a non-directory and the inode field that goes with it. */
  function LinkFlag(link: Str, nlink: nat): byte {
    if nlink > 1 then LF_LINK else if link == [] then LF_NORMAL else LF_SYMLINK
  }

  function InoField(nlink: nat, ino: nat): Str {
    if nlink > 1 then OctField(ino, 11, 12) else []
  }

  /** The header of one section of a file, or of all of it when section is 0. */
  function FileHead(f: Entry, section: nat, size: nat, count: nat): seq<Block>
    requires f.File?
  {
    HeadBlocks(SectionName(f.name, section), [], f.attr, size, LinkFlag([], f.nlink), InoField(f.nlink, f.ino), count)
  }

  function SectionSize(f: Entry, done: nat): nat
    requires f.File? && done <= |f.data|
  {
    Min(|f.data| - done, MAX_TAR_IMAGE)
  }

  function SectionData(f: Entry, done: nat): Block
    requires f.File? && done <= |f.data|
  {
    Mem(f.data[done..done + SectionSize(f, done)], SectionSize(f, done))
  }

  /** A file's data in sections of at most MAX_TAR_IMAGE bytes, each behind its own header. */
  function SectionBlocks(f: Entry, done: nat, section: nat, count: nat): seq<Block>
    requires f.File? && done <= |f.data|
    decreases |f.data| - done
  {
    if done == |f.data| then [] else
      FileHead(f, section, SectionSize(f, done), count) + [SectionData(f, done)]
      + SectionBlocks(f, done + SectionSize(f, done), section + 1, HeadCount(SectionName(f.name, section), [], count))
  }

  function SectionCount(f: Entry, done: nat, section: nat, count: nat): nat
    requires f.File? && done <= |f.data|
    decreases |f.data| - done
  {
    if done == |f.data| then count else
      SectionCount(f, done + SectionSize(f, done), section + 1, HeadCount(SectionName(f.name, section), [], count))
  }

  /** What the printer carries from entry to entry: the file count and the inodes whose data is out. */
  datatype Printer = Printer(count: nat, queue: set<int>)

  predicate LinkDone(f: Entry, queue: set<int>)
    requires f.File?
  {
    f.nlink > 1 && f.ino in queue
  }

  function FirstSection(f: Entry): nat
    requires f.File?
  {
    if |f.data| > MAX_TAR_IMAGE then 1 else 0
  }

  /** The headers and data of a file: one bare header when it is empty or its data is out already. */
  function FileBlocks(f: Entry, p: Printer): seq<Block>
    requires f.File?
  {
    if LinkDone(f, p.queue) || f.data == [] then FileHead(f, FirstSection(f), |f.data|, p.count)
    else SectionBlocks(f, 0, FirstSection(f), p.count)
  }

  function HugePrefix(f: Entry): seq<Block>
    requires f.File?
  {
    if |f.data| > MAX_TAR_IMAGE then HugeBlocks(f.name, |f.data|) else []
  }

  /** What tlm_output_dir and tlm_output_file print for an entry. */
  function EntryBlocks(e: Entry, p: Printer): seq<Block> {
    match e
    case Dir(name, size, attr, acl) =>
      AclBlocks(acl) + HeadBlocks(name, [], attr, size, LF_DIR, [], p.count)
    case Sym(name, target, size, nlink, ino, attr) =>
      HeadBlocks(name, target, attr, size, LinkFlag(target, nlink), InoField(nlink, ino), p.count)
    case File(_, _, _, _, _, acl) =>
      AclBlocks(acl) + HugePrefix(e) + FileBlocks(e, p)
  }

  /** The printer after an entry. */
  function AfterEntry(e: Entry, p: Printer): Printer {
    match e
    case Dir(name, _, _, _) => p.(count := HeadCount(name, [], p.count))
    case Sym(name, target, _, _, _, _) => p.(count := HeadCount(name, target, p.count))
    case File(name, data, nlink, ino, _, _) =>
      Printer(if LinkDone(e, p.queue) || data == [] then HeadCount(SectionName(name, FirstSection(e)), [], p.count)
              else SectionCount(e, 0, FirstSection(e), p.count),
              if nlink > 1 then p.queue + {ino} else p.queue)
  }

  function AfterAll(es: seq<Entry>, p: Printer): Printer {
    if es == [] then p else AfterEntry(es[|es| - 1], AfterAll(es[..|es| - 1], p))
  }

  /** The blocks of a whole list of entries. */
  function ArchiveBlocks(es: seq<Entry>, p: Printer): seq<Block> {
    if es == [] then [] else
      ArchiveBlocks(es[..|es| - 1], p) + EntryBlocks(es[|es| - 1], AfterAll(es[..|es| - 1], p))
  }
}
