/** The backup side: printing entries into the shared buffer (tlm_backup_reader.c). */
module TarPrinter {
  import opened Bytes
  import opened Octal
  import opened TarHeader
  import opened TarFormat
  import opened Buffers
  import HardlinkQueue

  class BackupReader {
    const ws: WriteBuffers
    const hardlinks: HardlinkQueue.Queue
    var fileCount: nat
    ghost var out: seq<Block>   // all the blocks printed so far

    /** The stream is the blocks printed so far and nothing else. */
    ghost predicate Valid()
      reads this, ws, ws.data, hardlinks, hardlinks.nodes
    {
      ws.Valid() && hardlinks.Valid() && Appended([], ws.Stream(), out)
    }

    ghost function State(): Printer
      reads this, hardlinks
    {
      Printer(fileCount, hardlinks.Links().Keys)
    }

    constructor (ws: WriteBuffers, hardlinks: HardlinkQueue.Queue)
      requires ws.Valid() && hardlinks.Valid() && ws.Stream() == []
      ensures Valid() && this.ws == ws && this.hardlinks == hardlinks && fileCount == 0 && out == []
    {
      this.ws, this.hardlinks, fileCount, out := ws, hardlinks, 0, [];
    }

    /** The checksum of the record last handed out. */
    method StampRecord(at: nat)
      requires ws.Valid() && at + RECORDSIZE == ws.spot
      modifies ws.data
      ensures ws.Valid() && ws.offset == old(ws.offset)
      ensures ws.Stream()[..ws.offset - RECORDSIZE] == old(ws.Stream())[..ws.offset - RECORDSIZE]
      ensures ws.Stream()[ws.offset - RECORDSIZE..] == old(Stamp(ws.data[at..at + RECORDSIZE]))
    {
      hide Stamp, Verify, Sum;
      ghost var d0 := ws.data[..];
      BuildHeaderChecksum(ws.data, at);
      Overwritten(ws.sent, d0, ws.data[..], at, RECORDSIZE, ws.spot);
      AllOf(ws.Stream()[ws.offset - RECORDSIZE..], RECORDSIZE);
    }

    /** One zeroed record, its fields and its checksum. */
    method FillRecord(h: Header)
      requires ws.Valid()
      modifies ws, ws.data
      ensures ws.Valid() && ws.Stream() == old(ws.Stream()) + h.Record()
    {
      hide Stamp, Verify, Sum;
      ghost var s := ws.Stream();
      var at := ws.PutRecord(h.Blank());
      assert h.Record() == Stamp(h.Blank()) && h.Blank() + Repeat(0, 0) == h.Blank();
      ghost var t := ws.Stream();
      StampRecord(at);
      Prefixed(s, t, ws.Stream());
    }

    /** ndmp_write_utf8magic_v3. */
    method WriteMagic()
      requires Valid()
      modifies ws, ws.data, `out
      ensures Valid() && out == old(out) + [Rec(MagicRecord())]
    {
      hide Appended;
      ghost var s := ws.Stream();
      var at := ws.PutRecord(Ascii(UTF8_MAGIC));
      assert ws.Stream()[|s|..] == MagicRecord();
      Append(s, ws.Stream(), out, Rec(MagicRecord()));
      out := out + [Rec(MagicRecord())];
    }

    method OutputRecord(h: Header)
      requires Valid()
      modifies ws, ws.data, `out
      ensures Valid() && out == old(out) + [Rec(h.Record())]
    {
      ghost var s := ws.Stream();
      FillRecord(h);
      assert ws.Stream()[|s|..] == h.Record();
      Append(s, ws.Stream(), out, Rec(h.Record()));
      out := out + [Rec(h.Record())];
    }

    /** One round of output_mem: get a piece and copy into it what fits. */
    method OutputPiece(bytes: Str) returns (n: nat)
      requires ws.Valid() && bytes != []
      modifies ws, ws.data
      ensures ws.Valid() && 0 < n <= |bytes|
      ensures n < |bytes| ==> Whole(n)
      ensures old(ws.Stream()) <= ws.Stream() && |ws.Stream()| == old(|ws.Stream()|) + Round(n)
      ensures ws.Stream()[old(|ws.Stream()|)..][..n] == bytes[..n]
    {
      hide Round;
      var at, actual := ws.GetWriteBuffer(|bytes|, false);
      PieceRounds(|bytes|, actual);
      n := Min(actual, |bytes|);
      ws.Fill(at, bytes[..n]);
    }

    /** output_mem: whole pieces until the payload is out; the last piece may end in padding. */
    method OutputMem(mem: Str)
      requires ws.Valid()
      modifies ws, ws.data
      ensures ws.Valid() && old(ws.Stream()) <= ws.Stream()
      ensures |ws.Stream()| == old(|ws.Stream()|) + Round(|mem|)
      ensures Holds(ws.Stream(), old(|ws.Stream()|), mem, |mem|)
    {
      ghost var s := ws.Stream();
      var done := 0;
      while done < |mem|
        invariant 0 <= done <= |mem| && ws.Valid()
        invariant done < |mem| ==> Whole(done)
        invariant |ws.Stream()| == |s| + Round(done) && s <= ws.Stream()
        invariant Holds(ws.Stream(), |s|, mem, done)
      {
        ghost var t := ws.Stream();
        var n := OutputPiece(mem[done..]);
        RoundAdvance(done, done + n);
        Joined(s, t, ws.Stream(), mem, done, n);
        done := done + n;
      }
    }

    /** A payload whose first bytes are fixed, as one more block of the stream. */
    method OutputPayload(mem: Str, ghost fixed: nat)
      requires Valid() && fixed <= |mem|
      modifies ws, ws.data, `out
      ensures Valid() && out == old(out) + [Mem(mem[..fixed], |mem|)]
    {
      ghost var s := ws.Stream();
      OutputMem(mem);
      Append(s, ws.Stream(), out, Mem(mem[..fixed], |mem|));
      out := out + [Mem(mem[..fixed], |mem|)];
    }

    /** output_acl_header. */
    method OutputAclHeader(acl: Option<Str>)
      requires Valid()
      modifies ws, ws.data, `out
      ensures Valid() && out == old(out) + AclBlocks(acl)
    {
      if acl.Some? {
        OutputRecord(AclHeader(|acl.value|));
        OutputPayload(acl.value, |acl.value|);
        assert acl.value[..|acl.value|] == acl.value;
      }
    }

    /** output_humongus_header: the text in a zeroed buffer that is large enough for any size. */
    method OutputHumongusHeader(name: Str, size: nat)
      requires Valid() && size <= LLONG_MAX
      modifies ws, ws.data, `out
      ensures Valid() && out == old(out) + HugeBlocks(name, size)
    {
      OutputRecord(HugeHeader(HugeLen(name)));
      var text := HugeText(name, size);
      HugeTextFits(name, size);
      var buf := text + Repeat(0, HugeLen(name) - |text|);
      OutputPayload(buf, |text|);
      assert buf[..|text|] == text;
    }

    /** The long-name or long-link record and its text, when the text is too long for its field. */
    method OutputLong(h: Header, text: Str)
      requires Valid()
      modifies ws, ws.data, `out
      ensures Valid() && out == old(out) + LongBlocks(h, text)
    {
      if |text| >= NAMSIZ {
        OutputRecord(h);
        OutputPayload(text, |text|);
        assert text[..|text|] == text;
      }
    }

    /** output_file_header; name is the section name. */
    method OutputFileHeader(name: Str, link: Str, a: Attr, size: nat, flag: byte, ino: Str)
      requires Valid()
      modifies ws, ws.data, `out, `fileCount
      ensures Valid()
      ensures out == old(out) + HeadBlocks(name, link, a, size, flag, ino, old(fileCount))
      ensures fileCount == HeadCount(name, link, old(fileCount))
    {
      hide HeaderOf, Appended, LongBlocks, NameHeader, LinkHeader, Bump, Short, WriteBuffers.Valid;
      ghost var o := out;
      var c := fileCount;
      OutputLong(NameHeader(name, a, c), name);
      c := Bump(c, name);
      OutputLong(LinkHeader(link, a, c), link);
      ghost var k := LongBlocks(LinkHeader(link, a, c), link);
      c := Bump(c, link);
      var hdrName := Short(name, c, FIL);
      c := Bump(c, name);
      var h := HeaderOf(hdrName, Short(link, c, SLK), a, size, flag, ino);
      c := Bump(c, link);
      OutputRecord(h);
      Regroup(o, LongBlocks(NameHeader(name, a, fileCount), name), k, [Rec(h.Record())]);
      if |name| >= NAMSIZ || |link| >= NAMSIZ {
        if c > 99999990 {
          c := 0;
        }
      }
      fileCount := c;
    }

    /** tlm_output_dir. */
    method OutputDir(e: Entry)
      requires Valid() && e.Dir?
      modifies ws, ws.data, `out, `fileCount
      ensures Valid()
      ensures out == old(out) + EntryBlocks(e, old(State())) && State() == AfterEntry(e, old(State()))
    {
      hide HeadBlocks, Appended, AclBlocks;
      ghost var o, c := out, fileCount;
      OutputAclHeader(e.acl);
      OutputFileHeader(e.name, [], e.attr, e.size, LF_DIR, []);
      Assoc(o, AclBlocks(e.acl), HeadBlocks(e.name, [], e.attr, e.size, LF_DIR, [], c));
    }

    /** One section: its header and its data, done bytes of the file being out already. */
    method OutputSection(f: Entry, section: nat, done: nat)
      requires Valid() && f.File? && done <= |f.data|
      modifies ws, ws.data, `out, `fileCount
      ensures Valid()
      ensures out == old(out) + FileHead(f, section, SectionSize(f, done), old(fileCount)) + [SectionData(f, done)]
      ensures fileCount == HeadCount(SectionName(f.name, section), [], old(fileCount))
    {
      hide HeadBlocks, Appended;
      var n := SectionSize(f, done);
      OutputFileHeader(SectionName(f.name, section), [], f.attr, n, LinkFlag([], f.nlink), InoField(f.nlink, f.ino));
      var data := f.data[done..done + n];
      OutputPayload(data, n);
      assert data[..n] == data;
    }

    /** The data loop of tlm_output_file: section by section until the file is out. */
    method OutputSections(f: Entry, first: nat)
      requires Valid() && f.File?
      modifies ws, ws.data, `out, `fileCount
      ensures Valid()
      ensures out == old(out) + SectionBlocks(f, 0, first, old(fileCount))
      ensures fileCount == SectionCount(f, 0, first, old(fileCount))
    {
      hide HeadBlocks, Appended;
      var seekSpot, section := 0, first;
      ghost var all := out + SectionBlocks(f, 0, first, fileCount);
      ghost var count := SectionCount(f, 0, first, fileCount);
      while seekSpot < |f.data|
        invariant 0 <= seekSpot <= |f.data| && Valid() && first <= section
        invariant all == out + SectionBlocks(f, seekSpot, section, fileCount)
        invariant count == SectionCount(f, seekSpot, section, fileCount)
      {
        ghost var o, c := out, fileCount;
        OutputSection(f, section, seekSpot);
        Regroup(o, FileHead(f, section, SectionSize(f, seekSpot), c), [SectionData(f, seekSpot)],
                SectionBlocks(f, seekSpot + SectionSize(f, seekSpot), section + 1, fileCount));
        seekSpot, section := seekSpot + SectionSize(f, seekSpot), section + 1;
      }
    }

    /** The printing part of tlm_output_file for a regular file. */
    method OutputRegular(e: Entry, hardlinkDone: bool)
      requires Valid() && e.File? && hardlinkDone == LinkDone(e, State().queue)
      requires |e.data| <= LLONG_MAX
      modifies ws, ws.data, `out, `fileCount
      ensures Valid()
      ensures out == old(out) + EntryBlocks(e, old(State()))
      ensures fileCount == AfterEntry(e, old(State())).count
    {
      hide HeadBlocks, Appended, AclBlocks, HugeBlocks;
      ghost var o, p := out, State();
      OutputAclHeader(e.acl);
      var section := FirstSection(e);
      if |e.data| > MAX_TAR_IMAGE {
        OutputHumongusHeader(e.name, |e.data|);
      }
      ghost var o2 := out;
      assert o2 == o + AclBlocks(e.acl) + HugePrefix(e);
      if hardlinkDone || e.data == [] {
        OutputFileHeader(SectionName(e.name, section), [], e.attr, |e.data|,
                         LinkFlag([], e.nlink), InoField(e.nlink, e.ino));
      } else {
        OutputSections(e, section);
      }
      assert out == o2 + FileBlocks(e, p);
      Regroup(o, AclBlocks(e.acl), HugePrefix(e), FileBlocks(e, p));
    }

    /** tlm_output_file. */
    method OutputFile(e: Entry)
      requires Valid() && (e.Sym? || e.File?)
      requires e.File? ==> |e.data| <= LLONG_MAX
      modifies ws, ws.data, `out, `fileCount, hardlinks
      ensures Valid()
      ensures out == old(out) + EntryBlocks(e, old(State())) && State() == AfterEntry(e, old(State()))
    {
      hide HeadBlocks, Appended, FileBlocks;
      if e.Sym? {
        OutputFileHeader(e.name, e.target, e.attr, e.size, LinkFlag(e.target, e.nlink), InoField(e.nlink, e.ino));
        return;
      }
      ghost var p := State();
      var hardlinkDone := false;
      if e.nlink > 1 {
        var got := hardlinks.Get(e.ino);
        hardlinkDone := got.Some?;
      }
      var pos := ws.offset;
      OutputRegular(e, hardlinkDone);
      if e.nlink > 1 && !hardlinkDone {
        var ok := hardlinks.Add(e.ino, HardlinkQueue.Link(None, pos, false));
      }
      assert State().queue == AfterEntry(e, p).queue;
    }

    /** A run of the traversal's callbacks: every entry in turn. */
    method OutputAll(es: seq<Entry>)
      requires Valid()
      requires forall i :: 0 <= i < |es| && es[i].File? ==> |es[i].data| <= LLONG_MAX
      modifies ws, ws.data, `out, `fileCount, hardlinks
      ensures Valid()
      ensures out == old(out) + ArchiveBlocks(es, old(State())) && State() == AfterAll(es, old(State()))
    {
      hide EntryBlocks, Appended, AfterEntry;
      ghost var o, p := out, State();
      for i := 0 to |es|
        invariant Valid()
        invariant out == o + ArchiveBlocks(es[..i], p) && State() == AfterAll(es[..i], p)
      {
        ghost var q := State();
        if es[i].Dir? {
          OutputDir(es[i]);
        } else {
          OutputFile(es[i]);
        }
        assert es[..i + 1][..i] == es[..i];
        Assoc(o, ArchiveBlocks(es[..i], p), EntryBlocks(es[i], q));
      }
      assert es[..|es|] == es;
    }
  }

  lemma Append(s: seq<byte>, t: seq<byte>, bs: seq<Block>, b: Block)
    requires Appended([], s, bs)
    requires b.Valid() && s <= t && |t| == |s| + b.Span() && t[|s|..][..|b.Bytes()|] == b.Bytes()
    ensures Appended([], t, bs + [b])
  {
    AppendedOne(s, t, b);
    AppendedTwice([], s, t, bs, [b]);
  }

  lemma AllOf(s: seq<byte>, n: nat)
    ensures |s| == n ==> s[..n] == s
  {
  }

  lemma Prefixed(s: seq<byte>, t: seq<byte>, u: seq<byte>)
    requires |s| <= |t| == |u| && t[..|s|] == s && u[..|s|] == t[..|s|]
    ensures u == s + u[|s|..]
  {
  }

  /** The first n bytes of mem are in s at pos. */
  predicate Holds(s: seq<byte>, pos: nat, mem: Str, n: nat) {
    pos + n <= |s| && n <= |mem| && s[pos..][..n] == mem[..n]
  }

  lemma Joined(s: seq<byte>, t: seq<byte>, u: seq<byte>, mem: Str, done: nat, n: nat)
    requires s <= t <= u && |t| == |s| + done && done + n <= |mem| && |t| + n <= |u|
    requires Holds(t, |s|, mem, done) && u[|t|..][..n] == mem[done..][..n]
    ensures Holds(u, |s|, mem, done + n)
  {
    assert u[|s|..][..done] == t[|s|..][..done];
    assert u[|s|..][done..done + n] == u[|t|..][..n];
    assert u[|s|..][..done + n] == u[|s|..][..done] + u[|s|..][done..done + n];
  }

  lemma Assoc<T>(a: seq<T>, b: seq<T>, c: seq<T>)
    ensures a + (b + c) == a + b + c
  {
  }

  lemma Regroup<T>(a: seq<T>, b: seq<T>, c: seq<T>, d: seq<T>)
    ensures a + (b + c + d) == a + b + c + d
  {
  }
}
