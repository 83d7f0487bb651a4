/** Huge files, the framing of a stream under any selection, and where the two hard-link queues part. */
module TarResults {
  import opened Bytes
  import opened Octal
  import opened TarHeader
  import opened TarFormat
  import opened Selection
  import opened TarRestore
  import opened TarRoundTrip

  // ---- huge files ----

  /** The sizes that the section headers of a file carry. */
  function SectionSizes(f: Entry, done: nat): seq<nat>
    requires f.File? && done <= |f.data|
    decreases |f.data| - done
  {
    if done == |f.data| then [] else [SectionSize(f, done)] + SectionSizes(f, done + SectionSize(f, done))
  }

  function Total(sizes: seq<nat>): nat {
    if sizes == [] then 0 else sizes[0] + Total(sizes[1..])
  }

  /** huge_size after k sections: restore_file and its caller take each section's size off, never below 0. */
  function HugeLeft(hugeSize: nat, sizes: seq<nat>, k: nat): int
    requires k <= |sizes|
  {
    if k == 0 then hugeSize else HugeLeft(Max0(hugeSize - sizes[0]), sizes[1..], k - 1)
  }

  /** Sections are not empty, fit the size field and a signed int, and add up to the file. */
  lemma {:induction false} HugeSections(f: Entry, done: nat)
    requires f.File? && done <= |f.data|
    ensures var sizes := SectionSizes(f, done);
      && (forall i :: 0 <= i < |sizes| ==> 0 < sizes[i] <= MAX_TAR_IMAGE <= INT_MAX)
      && (forall i :: 0 <= i < |sizes| ==> OctAtoi(OctField(sizes[i], 11, 12) + [0]) == sizes[i])
      && Total(sizes) == |f.data| - done
    decreases |f.data| - done
  {
    hide OctAtoi, OctField;
    if done < |f.data| {
      var n := SectionSize(f, done);
      HugeSections(f, done + n);
      SizeReads(n);
      assert SectionSizes(f, done)[1..] == SectionSizes(f, done + n);
    }
  }

  lemma SizeReads(n: nat)
    requires n <= INT_MAX
    ensures OctAtoi(OctField(n, 11, 12) + [0]) == n
  {
    hide OctAtoi, OctField;
    PowersOfEight();
    OctFieldReads(n, 11, 12, [0]);
  }

  /** huge_size starts at the file's size and is 0 after the last section and not before. */
  lemma {:induction false} HugeCountdown(f: Entry, done: nat, k: nat)
    requires f.File? && done <= |f.data| && k <= |SectionSizes(f, done)|
    ensures HugeLeft(|f.data| - done, SectionSizes(f, done), k) == 0 <==> k == |SectionSizes(f, done)|
    decreases |f.data| - done
  {
    if k > 0 {
      var n := SectionSize(f, done);
      HugeCountdown(f, done + n, k - 1);
      assert SectionSizes(f, done)[1..] == SectionSizes(f, done + n);
    }
  }

  // ---- framing ----

  /** The part of the state that decides where the next record starts. */
  datatype Frame = Frame(longname: Str, nmEnd: nat, longlink: Str, lnkEnd: nat, hugename: Str, hugeSize: int,
                         aclSpot: int, inodes: set<int>, multi: bool, last: byte, left: int)

  function FrameOf(st: St): Frame {
    Frame(st.longname, st.nmEnd, st.longlink, st.lnkEnd, st.hugename, st.hugeSize, st.aclSpot, st.links.Keys,
          st.multi, st.last, st.left)
  }

  /** What a regular file does to the frame, whoever wants it. */
  function FileFrame(f: Frame, rec: seq<byte>, size: int, hard: Option<int>): Frame
    requires rec != []
  {
    var name := if f.hugename != [] then f.hugename else if f.longname != [] then f.longname
                else if rec[0] != SLASH then [SLASH] + CStr(rec) else CStr(rec);
    var huge := Max0(f.hugeSize - size);
    var f' := f.(hugeSize := huge, longname := name, left := 0,
                 inodes := f.inodes + if hard.Some? then {hard.value} else {});
    if huge == 0 then f'.(longname := [], nmEnd := 0, longlink := [], lnkEnd := 0, hugename := []) else f'
  }

  lemma OnFileFrame(c: Choice, st: St, rec: seq<byte>, size: int, hard: Option<int>, s: seq<byte>, pos: nat)
    requires rec != []
    ensures var r := OnFile(c, st, rec, size, hard, s, pos);
            if Avail(s, pos, size)
            then r.Some? && r.value.1 == Past(pos, size) &&
                 FrameOf(r.value.0) == FileFrame(FrameOf(st), rec, size, hard)
            else r.None?
  {
    hide Target, Wanted, CStr, Round, PopTo, RestoreFile;
    if Avail(s, pos, size) {
      var path := Target(c, FileName(st, rec));
      RestoreFileFrame(st, path, Payload(s, pos, size), size);
      assert hard.Some? ==> AddLink(st.links, hard.value, path).Keys == st.links.Keys + {hard.value};
    }
  }

  lemma RestoreFileFrame(st: St, path: Option<Str>, data: Str, size: int)
    ensures FrameOf(RestoreFile(st, path, data, size)) == FrameOf(st)
  {
  }

  predicate Regular(st: St, rec: seq<byte>)
    requires |rec| == RECORDSIZE
  {
    var ino := OctAtoi(rec[SHARED..]);
    || (rec[FLAG] == LF_LINK && !(ino != 0 && ino in st.links) && rec[0] != 0)
    || (rec[FLAG] == LF_OLDNORMAL && rec[0] != 0) || rec[FLAG] == LF_NORMAL || rec[FLAG] == LF_CONTIG
  }

  lemma TextFrame(st1: St, st2: St, size: int, s: seq<byte>, pos: nat)
    requires FrameOf(st1) == FrameOf(st2)
    ensures var r1, r2 := OnLongName(st1, size, s, pos), OnLongName(st2, size, s, pos);
            && (r1.Some? <==> r2.Some?)
            && (r1.Some? ==> r1.value.1 == r2.value.1 && FrameOf(r1.value.0) == FrameOf(r2.value.0))
    ensures var r1, r2 := OnLongLink(st1, size, s, pos), OnLongLink(st2, size, s, pos);
            && (r1.Some? <==> r2.Some?)
            && (r1.Some? ==> r1.value.1 == r2.value.1 && FrameOf(r1.value.0) == FrameOf(r2.value.0))
  {
    hide Splice, Avail, Payload, Past, LongSize;
  }

  lemma AclHugeFrame(st1: St, st2: St, size: int, s: seq<byte>, pos: nat)
    requires FrameOf(st1) == FrameOf(st2)
    ensures var r1, r2 := OnAcl(st1, size, s, pos), OnAcl(st2, size, s, pos);
            && (r1.Some? <==> r2.Some?)
            && (r1.Some? ==> r1.value.1 == r2.value.1 && FrameOf(r1.value.0) == FrameOf(r2.value.0))
    ensures var r1, r2 := OnHuge(st1, size, s, pos), OnHuge(st2, size, s, pos);
            && (r1.Some? <==> r2.Some?)
            && (r1.Some? ==> r1.value.1 == r2.value.1 && FrameOf(r1.value.0) == FrameOf(r2.value.0))
  {
    hide Payload, Past, FirstWord, Atoll, CStr, Round;
  }

  lemma ClearFrame(c: Choice, st: St, rec: seq<byte>)
    requires |rec| == RECORDSIZE
    ensures FrameOf(OnSym(c, st, rec)) == FrameOf(OnDir(c, st, rec)) == FrameOf(ClearNames(st))
    ensures FrameOf(OnFifo(c, st, rec)) == FrameOf(ClearNames(st))
    ensures forall ino :: ino in st.links ==> FrameOf(OnQueuedLink(c, st, rec, ino)) == FrameOf(ClearNames(st))
  {
    hide Target, Wanted, CStr, PopTo;
  }

  lemma OtherFrame(c1: Choice, st1: St, c2: Choice, st2: St, rec: seq<byte>, size: int, s: seq<byte>, pos: nat)
    requires |rec| == RECORDSIZE && FrameOf(st1) == FrameOf(st2) && !Regular(st1, rec)
    requires forall ino :: ino in st1.links <==> ino in st2.links
    ensures var r1, r2 := Process(c1, st1, rec, size, s, pos), Process(c2, st2, rec, size, s, pos);
            && (r1.Some? <==> r2.Some?)
            && (r1.Some? ==> r1.value.1 == r2.value.1 && FrameOf(r1.value.0) == FrameOf(r2.value.0))
  {
    hide OctAtoi, OnFile, OnLongName, OnLongLink, OnAcl, OnHuge, OnSym, OnDir, OnFifo, OnQueuedLink;
    ClearFrame(c1, st1, rec);
    ClearFrame(c2, st2, rec);
    TextFrame(st1, st2, size, s, pos);
    AclHugeFrame(st1, st2, size, s, pos);
  }

  lemma ProcessFrame(c1: Choice, st1: St, c2: Choice, st2: St, rec: seq<byte>, size: int, s: seq<byte>, pos: nat)
    requires |rec| == RECORDSIZE && FrameOf(st1) == FrameOf(st2)
    ensures var r1, r2 := Process(c1, st1, rec, size, s, pos), Process(c2, st2, rec, size, s, pos);
            && (r1.Some? <==> r2.Some?)
            && (r1.Some? ==> r1.value.1 == r2.value.1 && FrameOf(r1.value.0) == FrameOf(r2.value.0))
  {
    hide OctAtoi, OnFile;
    assert forall ino :: ino in st1.links <==> ino in st1.links.Keys;
    assert forall ino :: ino in st2.links <==> ino in st2.links.Keys;
    if Regular(st1, rec) {
      var hard := if rec[FLAG] == LF_LINK then Some(OctAtoi(rec[SHARED..])) else None;
      OnFileFrame(c1, st1, rec, size, hard, s, pos);
      OnFileFrame(c2, st2, rec, size, hard, s, pos);
    } else {
      OtherFrame(c1, st1, c2, st2, rec, size, s, pos);
    }
  }

  /** On any stream at all, two restores with different selections stay on the same record for ever. */
  lemma {:induction false} FramingIndependent(c1: Choice, st1: St, c2: Choice, st2: St, s: seq<byte>, pos: nat)
    requires Sane(st1) && Sane(st2) && FrameOf(st1) == FrameOf(st2)
    ensures var (r1, p1) := Run(c1, st1, s, pos);
            var (r2, p2) := Run(c2, st2, s, pos);
            p1 == p2 && FrameOf(r1) == FrameOf(r2)
    decreases if pos <= |s| then |s| - pos else 0, st1.multi
  {
    hide Process, Verify, OctAtoi;
    if st1.multi {
      ProcessFrame(c1, st1.(multi := false, last := 0), c2, st2.(multi := false, last := 0),
                   FakeRecord(st1.last), st1.left, s, pos);
    } else if pos + RECORDSIZE <= |s| && Verify(s[pos..][..RECORDSIZE]) == 1 {
      var rec := s[pos..][..RECORDSIZE];
      ProcessFrame(c1, LoadHeader(st1, rec), c2, LoadHeader(st2, rec), rec, OctAtoi(rec[SIZE..]), s, pos + RECORDSIZE);
    }
    if Step(c1, st1, s, pos).Some? {
      StepSane(c1, st1, s, pos);
      StepAdvances(c1, st1, s, pos);
      StepSane(c2, st2, s, pos);
      var (n1, q1) := Step(c1, st1, s, pos).value;
      var (n2, q2) := Step(c2, st2, s, pos).value;
      FramingIndependent(c1, n1, c2, n2, s, q1);
    }
  }

  // ---- the two queues ----

  lemma PastData(pos: nat, data: Str)
    ensures if data == [] then Past(pos, |data|) == pos else Past(pos, |data|) > pos
  {
  }

  /** Whether a round lands where the next block was printed. */
  ghost predicate LandsAt(c: Choice, st: St, s: seq<byte>, pos: nat, next: nat) {
    var r := Step(c, st, s, pos);
    r.Some? && r.value.1 == next
  }

  /**
   * A hard-linked file with data: the parser comes to its header, past a long name, and from there it lands behind
   * what was printed exactly when its queue and the printer's agree on the inode.
   */
  lemma LinkFraming(c: Choice, st: St, s: seq<byte>, pos: nat, f: Entry, p: Printer, rest: seq<Block>)
      returns (st2: St, at: nat)
    requires f.File? && Printable(f) && f.nlink > 1 && f.data != [] && Clean(st)
    requires Laid(s, pos, FileBlocks(f, p) + rest)
    ensures Sane(st2) && Run(c, st, s, pos) == Run(c, st2, s, at)
    ensures at + RECORDSIZE == pos + SpanOf(FileHead(f, 0, |f.data|, p.count))
    ensures LandsAt(c, st2, s, at, pos + SpanOf(FileBlocks(f, p))) <==> Agrees(f, st.links, p.queue)
  {
    hide Laid, Run, FileHead, Step, CStr, OctAtoi, SpanOf, OnFile, Process, OnQueuedLink, Avail, Past, Printable, Clean,
         FileSt, AfterName, FileBlocks, Name, FileName, Sane, FileHead, LinkFlag;
    LinkedFits(f);
    var r;
    at, r := PlainHead(c, st, s, pos, f, p, rest);
    st2 := AfterName(st, f.name, f.attr);
    FileStSame(st, f, r);
    FileBranch(c, FileSt(st, f), f, r, |f.data|, s, at + RECORDSIZE);
    hide LinkDone, DataOut;
    LandsIff(c, st2, FileSt(st, f), f, p, r, s, at, pos + SpanOf(FileBlocks(f, p)));
  }

  lemma LinkedFits(f: Entry)
    requires f.File? && Printable(f) && f.nlink > 1
    ensures |f.data| <= MAX_TAR_IMAGE <= INT_MAX
  {
  }

  lemma LandsIff(c: Choice, st2: St, st3: St, f: Entry, p: Printer, r: seq<byte>, s: seq<byte>, at: nat, next: nat)
    requires f.File? && f.nlink > 1 && f.data != [] && r != []
    requires Step(c, st2, s, at) ==
               if f.ino in st3.links then Some((OnQueuedLink(c, st3, r, f.ino), at + RECORDSIZE))
               else OnFile(c, st3, r, |f.data|, Hard(f), s, at + RECORDSIZE)
    requires Avail(s, at + RECORDSIZE, |DataOut(f, p)|) && next == Past(at + RECORDSIZE, |DataOut(f, p)|)
    ensures LandsAt(c, st2, s, at, next) <==> (f.ino in st3.links <==> f.ino in p.queue)
  {
    hide Step, OnQueuedLink, OnFile, Avail, Past;
    FileLands(c, st3, r, |f.data|, Hard(f), s, at + RECORDSIZE);
    PastData(at + RECORDSIZE, f.data);
    PastData(at + RECORDSIZE, []);
  }

  lemma FileLands(c: Choice, st: St, rec: seq<byte>, size: int, hard: Option<int>, s: seq<byte>, pos: nat)
    requires rec != []
    ensures OnFile(c, st, rec, size, hard, s, pos).Some? ==>
              Avail(s, pos, size) && OnFile(c, st, rec, size, hard, s, pos).value.1 == Past(pos, size)
    ensures Avail(s, pos, size) ==> OnFile(c, st, rec, size, hard, s, pos).Some?
  {
    hide Avail, Past, Target, FileName, PopTo, RestoreFile;
  }

  /**
   * A symlink that has several links goes out as a hard link without data, and one whose target could not be read as a
   * plain file without data; both are read back with their size as data. So the parser lands behind a symlink exactly
   * when its size is 0, or the queue happens to hold the inode of one with several links, or one with one link has a
   * target.
   */
  lemma SymlinkFraming(c: Choice, st: St, s: seq<byte>, pos: nat, e: Entry, p: Printer, rest: seq<Block>)
      returns (st2: St, at: nat)
    requires e.Sym? && GoodName(e.name) && GoodAttr(e.attr) && NulFree(e.target)
    requires |e.target| <= MAX_PATH_NAME && e.size <= INT_MAX && 0 < e.ino <= INT_MAX && Clean(st)
    requires Laid(s, pos, EntryBlocks(e, p) + rest)
    ensures Sane(st2) && Run(c, st, s, pos) == Run(c, st2, s, at)
    ensures at + RECORDSIZE == pos + SpanOf(EntryBlocks(e, p))
    ensures LandsAt(c, st2, s, at, pos + SpanOf(EntryBlocks(e, p))) <==>
              e.size == 0 || (if e.nlink > 1 then e.ino in st.links else e.target != [])
  {
    hide Laid, Run, HeadRec, HeadBlocks, Shown, Step, CStr, OctAtoi, Wanted, Verify, FieldsOf, Splice, SpanOf, GoodAttr;
    hide OnFile, OnQueuedLink, OnSym, InoField;
    var flag, ino := LinkFlag(e.target, e.nlink), InoField(e.nlink, e.ino);
    InoFieldFits(e.nlink, e.ino);
    NamesRun(c, st, s, pos, e.name, e.target, e.attr, e.size, flag, ino, p.count, rest);
    at := pos + SpanOf(EntryBlocks(e, p)) - RECORDSIZE;
    st2 := AfterNames(st, e.name, e.target, e.attr);
    HeadStep(c, st2, s, at, e.name, e.target, e.attr, e.size, flag, ino, p.count, rest);
    var r := HeadRec(e.name, e.target, e.attr, e.size, flag, ino, p.count);
    if e.nlink > 1 {
      HeadInode(e.name, e.target, e.attr, e.size, flag, e.ino, p.count);
      OnFileFrame(c, Loaded(st2, e.attr, flag), r, e.size, Some(e.ino), s, at + RECORDSIZE);
    } else if e.target == [] {
      OnFileFrame(c, Loaded(st2, e.attr, flag), r, e.size, None, s, at + RECORDSIZE);
    }
  }

  lemma InoFieldFits(nlink: nat, ino: nat)
    ensures |InoField(nlink, ino)| < 12 && (nlink > 1 ==> InoField(nlink, ino) == OctField(ino, 11, 12))
  {
  }

  /** The first section of a hard-linked huge file queues the inode and keeps the names for the next one. */
  lemma FirstLinkSection(c: Choice, st: St, r: seq<byte>, s: seq<byte>, pos: nat, f: Entry, used: nat)
    requires f.File? && |f.data| > MAX_TAR_IMAGE && f.name != [] && |r| == RECORDSIZE
    requires st.hugename == f.name && st.hugeSize == |f.data| && st.nmEnd == used && !st.multi && Sane(st)
    requires Avail(s, pos, MAX_TAR_IMAGE)
    ensures var r := OnFile(c, st, r, MAX_TAR_IMAGE, Some(f.ino), s, pos);
      && r.Some? && r.value.1 == Past(pos, MAX_TAR_IMAGE)
      && f.ino in r.value.0.links && r.value.0.nmEnd == used && !r.value.0.multi && Sane(r.value.0)
  {
    hide OnFile, Avail, Past, CStr;
    OnFileFrame(c, st, r, MAX_TAR_IMAGE, Some(f.ino), s, pos);
    var st' := OnFile(c, st, r, MAX_TAR_IMAGE, Some(f.ino), s, pos).value.0;
    assert f.ino in FrameOf(st').inodes;
  }

  /** The first two sections of such a file as they are printed. */
  function TwoSections(f: Entry, count: nat): seq<Block>
    requires f.File? && |f.data| > MAX_TAR_IMAGE
  {
    FileHead(f, 1, MAX_TAR_IMAGE, count) + [SectionData(f, 0)]
    + FileHead(f, 2, SectionSize(f, MAX_TAR_IMAGE), HeadCount(SectionName(f.name, 1), [], count))
    + [SectionData(f, MAX_TAR_IMAGE)]
  }

  lemma SectionsBegin(f: Entry, p: Printer) returns (later: seq<Block>)
    requires f.File? && |f.data| > MAX_TAR_IMAGE && !LinkDone(f, p.queue)
    ensures FileBlocks(f, p) == TwoSections(f, p.count) + later
  {
    hide FileHead, HeadCount, SectionName, SectionData, FileBlocks, SectionBlocks;
    var m := SectionSize(f, MAX_TAR_IMAGE);
    var count1 := HeadCount(SectionName(f.name, 1), [], p.count);
    var count2 := HeadCount(SectionName(f.name, 2), [], count1);
    LinkedFileBlocks(f, p);
    NextSection(f, 0, 1, p.count);
    NextSection(f, MAX_TAR_IMAGE, 2, count1);
    later := SectionBlocks(f, MAX_TAR_IMAGE + m, 3, count2);
    Rejoin(FileHead(f, 1, MAX_TAR_IMAGE, p.count), [SectionData(f, 0)], FileHead(f, 2, m, count1),
           [SectionData(f, MAX_TAR_IMAGE)], later);
  }

  lemma Rejoin(h1: seq<Block>, d1: seq<Block>, h2: seq<Block>, d2: seq<Block>, later: seq<Block>)
    ensures h1 + d1 + (h2 + d2 + later) == h1 + d1 + h2 + d2 + later
  {
  }

  lemma LinkedFileBlocks(f: Entry, p: Printer)
    requires f.File? && |f.data| > MAX_TAR_IMAGE && !LinkDone(f, p.queue)
    ensures FileBlocks(f, p) == SectionBlocks(f, 0, 1, p.count)
  {
    hide SectionBlocks, FileHead;
  }

  lemma NextSection(f: Entry, done: nat, section: nat, count: nat)
    requires f.File? && done < |f.data|
    ensures SectionBlocks(f, done, section, count) == FileHead(f, section, SectionSize(f, done), count)
      + [SectionData(f, done)]
      + SectionBlocks(f, done + SectionSize(f, done), section + 1, HeadCount(SectionName(f.name, section), [], count))
  {
    hide FileHead, HeadCount, SectionName, SectionData;
  }

  /**
   * The first link to a file of several sections is lost: its first section queues the inode, so the header of the
   * second is taken for a later link, and the parser goes on in the middle of the second section's data.
   */
  lemma LinkedSectionsLost(c: Choice, st: St, s: seq<byte>, pos: nat, f: Entry, p: Printer, rest: seq<Block>)
      returns (st2: St, at: nat)
    requires f.File? && GoodName(f.name) && GoodAttr(f.attr) && f.nlink > 1 && 0 < f.ino <= INT_MAX
    requires |f.data| > MAX_TAR_IMAGE && f.ino !in p.queue && f.ino !in st.links && NamesFit(f, 0, 1, 0)
    requires st.hugename == f.name && st.hugeSize == |f.data| && st.nmEnd == 0 && !st.multi && Sane(st)
    requires Laid(s, pos, FileBlocks(f, p) + rest)
    ensures Sane(st2) && Run(c, st, s, pos) == Run(c, st2, s, at)
    ensures at + RECORDSIZE + SpanOf([SectionData(f, MAX_TAR_IMAGE)]) == pos + SpanOf(TwoSections(f, p.count))
    ensures LandsAt(c, st2, s, at, at + RECORDSIZE) && SpanOf([SectionData(f, MAX_TAR_IMAGE)]) > 0
  {
    hide Laid, Run, FileHead, Shown, Step, CStr, OctAtoi, Wanted, Avail, Payload, Verify, OnFile, OnQueuedLink;
    hide FieldsOf;
    hide Splice, Past, SpanOf, GoodAttr, NulFree, SectionData, FileBlocks, SectionBlocks, HeadCount, SectionName;
    var later := SectionsBegin(f, p);
    var m, name1, name2 := SectionSize(f, MAX_TAR_IMAGE), SectionName(f.name, 1), SectionName(f.name, 2);
    var count1 := HeadCount(name1, [], p.count);
    var h1, d1 := FileHead(f, 1, MAX_TAR_IMAGE, p.count), [SectionData(f, 0)];
    var h2, d2 := FileHead(f, 2, m, count1), [SectionData(f, MAX_TAR_IMAGE)];
    TwoRegroup(h1, d1, h2, d2, later, rest);
    SectionNameGood(f.name, 1);
    SectionNameGood(f.name, 2);
    NulFreeEmpty();
    var at1, r1 := FileHeadRun(c, st, s, pos, f, 1, MAX_TAR_IMAGE, p.count, d1 + (h2 + (d2 + (later + rest))));
    var st1 := AfterName(st, name1, f.attr);
    var used := if |name1| >= NAMSIZ then |name1| else 0;
    var st1' := Loaded(st1, f.attr, LF_LINK);
    SectionMem(s, at1 + RECORDSIZE, f, 0, h2 + (d2 + (later + rest)));
    FirstLinkSection(c, st1', r1, s, at1 + RECORDSIZE, f, used);
    var (sta, posa) := OnFile(c, st1', r1, MAX_TAR_IMAGE, Some(f.ino), s, at1 + RECORDSIZE).value;
    RunStep(c, st1, s, at1);
    var r2;
    at, r2 := FileHeadRun(c, sta, s, posa, f, 2, m, count1, d2 + (later + rest));
    st2 := AfterName(sta, name2, f.attr);
    SpanConcat(h1 + d1 + h2, d2);
    SpanConcat(h1 + d1, h2);
    SpanConcat(h1, d1);
    DataSpan(f);
  }

  lemma TwoRegroup(h1: seq<Block>, d1: seq<Block>, h2: seq<Block>, d2: seq<Block>, later: seq<Block>, rest: seq<Block>)
    ensures h1 + d1 + h2 + d2 + later + rest == h1 + (d1 + (h2 + (d2 + (later + rest))))
  {
  }

  lemma DataSpan(f: Entry)
    requires f.File? && |f.data| > MAX_TAR_IMAGE
    ensures SpanOf([SectionData(f, MAX_TAR_IMAGE)]) > 0
  {
    assert [SectionData(f, MAX_TAR_IMAGE)][1..] == [];
  }

  // ---- the name that a later link leaves behind ----

  /** Clean, but for the name and the size of a huge file that has no data here. */
  predicate Haunted(st: St, name: Str, size: nat) {
    && st.hugename == name && st.hugeSize == size && Clean(st.(hugename := [], hugeSize := 0))
  }

  lemma LaterLinkBlocks(f: Entry, p: Printer)
    requires f.File? && |f.data| > MAX_TAR_IMAGE && LinkDone(f, p.queue)
    ensures EntryBlocks(f, p) == AclBlocks(f.acl) + HugeBlocks(f.name, |f.data|) + FileHead(f, 1, |f.data|, p.count)
  {
    hide AclBlocks, HugeBlocks, FileHead;
  }

  /**
   * A later link to a hard-linked file of several sections: the huge-file record in front of its header leaves the name
   * and the size of that file to the entries behind it, and the link itself is made under the name of a section.
   */
  lemma LaterLinkHaunts(c: Choice, st: St, s: seq<byte>, pos: nat, f: Entry, p: Printer, rest: seq<Block>)
      returns (st': St)
    requires f.File? && GoodName(f.name) && GoodAttr(f.attr) && GoodAcl(f.acl) && f.nlink > 1 && 0 < f.ino <= INT_MAX
    requires MAX_TAR_IMAGE < |f.data| <= LLONG_MAX && f.ino in p.queue && f.ino in st.links && Clean(st)
    requires Laid(s, pos, EntryBlocks(f, p) + rest)
    ensures Sane(st') && Run(c, st, s, pos) == Run(c, st', s, pos + SpanOf(EntryBlocks(f, p)))
    ensures Laid(s, pos + SpanOf(EntryBlocks(f, p)), rest)
    ensures Haunted(st', f.name, |f.data|) && st'.links == st.links
    ensures var path := Target(c, SectionName(f.name, 1)); var acls := Acls(Shown(f.attr), AclOr(f.acl, CarryOf(st)));
      st'.made == st.made + (if path.Some? && st.links[f.ino].Some?
                             then [NewHard(path.value, st.links[f.ino].value, acls)] else [])
  {
    hide Laid, Run, FileHead, HugeBlocks, AclBlocks, Shown, Wanted, SpanOf, GoodAttr, Step, HeadRec, HeadBlocks;
    hide CStr, OctAtoi, Splice, InoField, SectionName, EntryBlocks, GoodAcl;
    var a, h, b := AclBlocks(f.acl), HugeBlocks(f.name, |f.data|), FileHead(f, 1, |f.data|, p.count);
    LaterLinkBlocks(f, p);
    assert a + h + b + rest == a + (h + (b + rest));
    AclRun(c, st, s, pos, f.acl, h + (b + rest));
    SpanConcat(a + h, b);
    SpanConcat(a, h);
    var st1, pos1 := AfterAcl(st, f.acl), pos + SpanOf(a);
    HugeRun(c, st1, s, pos1, f.name, |f.data|, b + rest);
    st' := QueuedHeadRun(c, AfterHuge(st1, f.name, |f.data|), s, pos1 + SpanOf(h), f, p.count, rest);
  }

  /** The header of a later link: no data is read, and only the names of headers are forgotten. */
  lemma QueuedHeadRun(c: Choice, st: St, s: seq<byte>, pos: nat, f: Entry, count: nat, rest: seq<Block>)
      returns (st': St)
    requires f.File? && GoodName(f.name) && GoodAttr(f.attr) && f.nlink > 1 && 0 < f.ino <= INT_MAX
    requires f.ino in st.links && Haunted(st, f.name, |f.data|)
    requires Laid(s, pos, FileHead(f, 1, |f.data|, count) + rest)
    ensures Sane(st') && Run(c, st, s, pos) == Run(c, st', s, pos + SpanOf(FileHead(f, 1, |f.data|, count)))
    ensures Laid(s, pos + SpanOf(FileHead(f, 1, |f.data|, count)), rest)
    ensures Haunted(st', f.name, |f.data|) && st'.links == st.links
    ensures var path := Target(c, SectionName(f.name, 1)); var acls := Acls(Shown(f.attr), st.acls.acl);
      st'.made == st.made + (if path.Some? && st.links[f.ino].Some?
                             then [NewHard(path.value, st.links[f.ino].value, acls)] else [])
  {
    hide Laid, Run, HeadBlocks, HeadRec, Shown, Step, CStr, OctAtoi, Splice, Wanted, GoodAttr, SpanOf, Target;
    var name, ino := SectionName(f.name, 1), InoField(f.nlink, f.ino);
    InoFieldFits(f.nlink, f.ino);
    SectionNameGood(f.name, 1);
    FirstSectionName(f.name);
    NulFreeEmpty();
    hide SectionName, InoField, NulFree;
    NamesRun(c, st, s, pos, name, [], f.attr, |f.data|, LF_LINK, ino, count, rest);
    var at := pos + SpanOf(FileHead(f, 1, |f.data|, count)) - RECORDSIZE;
    var st2 := AfterNames(st, name, [], f.attr);
    HeadStep(c, st2, s, at, name, [], f.attr, |f.data|, LF_LINK, ino, count, rest);
    HeadInode(name, [], f.attr, |f.data|, LF_LINK, f.ino, count);
    var r := HeadRec(name, [], f.attr, |f.data|, LF_LINK, ino, count);
    NameRead(st, name, [], f.attr, r);
    st' := OnQueuedLink(c, Loaded(st2, f.attr, LF_LINK), r, f.ino);
    RunStep(c, st2, s, at);
  }

  lemma FirstSectionName(name: Str)
    requires GoodName(name)
    ensures SectionName(name, 1) != [] && |SectionName(name, 1)| <= MAX_PATH_NAME
  {
    assert Digits(10, 1) == [ZERO + 1];
  }

  lemma SmallFileBlocks(g: Entry, p: Printer) returns (m: seq<Block>)
    requires g.File? && |g.data| <= MAX_TAR_IMAGE && g.nlink <= 1
    ensures m == if g.data == [] then [] else [Mem(g.data, |g.data|)]
    ensures EntryBlocks(g, p) == AclBlocks(g.acl) + FileHead(g, 0, |g.data|, p.count) + m
  {
    hide AclBlocks, FileHead;
    m := if g.data == [] then [] else [Mem(g.data, |g.data|)];
    PlainBlocks(g, p);
    hide FileBlocks;
    var a, h := AclBlocks(g.acl), FileHead(g, 0, |g.data|, p.count);
    assert a + [] == a && a + h + m == a + (h + m);
  }

  /** A regular file of fewer bytes than are still waited for: all of them go into a file that is left open. */
  lemma SwallowedFile(c: Choice, st: St, r: seq<byte>, s: seq<byte>, pos: nat, name: Str, size: nat, data: Str)
    requires |r| == RECORDSIZE && name != [] && st.hugename == name && st.hugeSize == size && st.fp == None
    requires |data| < size && Avail(s, pos, |data|) && Payload(s, pos, |data|) == data
    ensures var o := OnFile(c, st, r, |data|, None, s, pos);
      && o.Some? && o.value.1 == Past(pos, |data|)
      && var st', path := o.value.0, Target(c, name);
      && st'.made == st.made && st'.hugename == name && st'.hugeSize == size - |data| && st'.last == st.last
      && st'.fp == if path.Some? then Some(OpenFile(path.value, data)) else None
  {
    hide Target, CStr, Avail, Payload, Past, PopTo;
    assert [] + data == data;
  }

  /**
   * So the next regular file does not come back, whatever its name: its bytes open the huge file's path, if that is
   * wanted, and are left there, and the parser waits for the rest of the huge file.
   */
  lemma NextFileSwallowed(c: Choice, st: St, s: seq<byte>, pos: nat, g: Entry, p: Printer, rest: seq<Block>,
                          name: Str, size: nat) returns (st': St)
    requires g.File? && Printable(g) && g.nlink <= 1 && |g.data| <= MAX_TAR_IMAGE && |g.data| < size
    requires name != [] && Haunted(st, name, size) && Laid(s, pos, EntryBlocks(g, p) + rest)
    ensures Sane(st') && Run(c, st, s, pos) == Run(c, st', s, pos + SpanOf(EntryBlocks(g, p)))
    ensures Laid(s, pos + SpanOf(EntryBlocks(g, p)), rest)
    ensures st'.made == st.made && st'.hugename == name && st'.hugeSize == size - |g.data|
    ensures var path := Target(c, name);
      st'.fp == if path.Some? then Some(OpenFile(path.value, g.data)) else None
  {
    hide Laid, Run, FileHead, Shown, Step, CStr, OctAtoi, Wanted, Target, Avail, Payload, Verify, OnFile, FieldsOf;
    hide Splice, Past, SpanOf, EntryBlocks, AclBlocks;
    var m := SmallFileBlocks(g, p);
    var a, h := AclBlocks(g.acl), FileHead(g, 0, |g.data|, p.count);
    Regroup(a + h, m, rest);
    Regroup(a, h, m + rest);
    AclRun(c, st, s, pos, g.acl, h + (m + rest));
    var st1, pos1 := AfterAcl(st, g.acl), pos + SpanOf(a);
    var at, r := FileHeadRun(c, st1, s, pos1, g, 0, |g.data|, p.count, m + rest);
    SpanConcat(a + h, m);
    SpanConcat(a, h);
    LaidBound(s, at + RECORDSIZE, m + rest);
    DataAt(s, at + RECORDSIZE, g.data, rest);
    var st2 := AfterName(st1, g.name, g.attr);
    var st3 := Loaded(st2, g.attr, LF_NORMAL);
    SwallowedFile(c, st3, r, s, at + RECORDSIZE, name, size, g.data);
    st' := OnFile(c, st3, r, |g.data|, None, s, at + RECORDSIZE).value.0;
    RunStep(c, st2, s, at);
  }

  // ---- records that this printer does not print ----

  /** Sizes are compared unsigned, so a negative one takes all the room that the buffer has left. */
  lemma NegativeTakesAll(st: St, size: int, s: seq<byte>, pos: nat)
    requires size < 0 && st.nmEnd <= MAX_PATH_NAME && st.lnkEnd <= MAX_PATH_NAME
    ensures OnLongName(st, size, s, pos).Some? ==> OnLongName(st, size, s, pos).value.0.nmEnd == MAX_PATH_NAME
    ensures OnLongLink(st, size, s, pos).Some? ==> OnLongLink(st, size, s, pos).value.0.lnkEnd == MAX_PATH_NAME
  {
    hide Avail, Payload, Splice, Past;
  }

  /** An ACL that comes in two pieces, the second one read with no header in between, is the two together. */
  lemma AclPieces(st: St, n1: int, n2: int, s: seq<byte>, pos: nat)
    requires st.aclSpot == 0 && n1 > 0 && Avail(s, pos, n1) && Avail(s, Past(pos, n1), n2)
    ensures var (st1, p1) := OnAcl(st, n1, s, pos).value;
      && OnAcl(st1, n2, s, p1).Some?
      && OnAcl(st1, n2, s, p1).value.0.acls.acl == Some(Payload(s, pos, n1) + Payload(s, p1, n2))
  {
    hide Round;
    assert [] + Payload(s, pos, n1) == Payload(s, pos, n1) && |Payload(s, pos, n1)| == n1;
  }

  /** The record of a huge file in the old form says no size: a whole record is read for its text. */
  lemma OldHugeReads(st: St, s: seq<byte>, pos: nat, name: Str, size: nat)
    requires pos + 512 <= |s| && GoodName(name) && size <= LLONG_MAX && HugeText(name, size) <= s[pos..][..512]
    ensures OnHuge(st, 0, s, pos) == Some((st.(hugename := name, hugeSize := size), pos + 512))
  {
    hide FirstWord, CStr, Atoll, HugeText;
    HugeTextReads(name, size, s[pos..][..512]);
  }

  /** A hard-link header without an inode is never taken for a later link: its data is read like a file's. */
  lemma NoInodeIsFile(c: Choice, st: St, rec: seq<byte>, size: int, s: seq<byte>, pos: nat)
    requires |rec| == RECORDSIZE && rec[FLAG] == LF_LINK && rec[0] != 0 && OctAtoi(rec[SHARED..]) == 0
    ensures Process(c, st, rec, size, s, pos) == OnFile(c, st, rec, size, Some(0), s, pos)
  {
    hide OnFile, OctAtoi, OnQueuedLink;
  }
}
