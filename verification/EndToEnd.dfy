/** A backup and the restore of its stream, with the printer, the parser and both shared buffers at work. */
module EndToEnd {
  import opened Bytes
  import opened Octal
  import opened Buffers
  import opened Selection
  import opened RestorePath
  import opened TarFormat
  import opened TarPrinter
  import opened TarRestore
  import opened TarRestorer
  import opened TarRoundTrip
  import opened TarSelected
  import opened TarTail
  import HardlinkQueue

  /** What a backup of a fresh session prints: the magic record and the entries. */
  function BackupBlocks(es: seq<Entry>): seq<Block> {
    [Rec(MagicRecord())] + ArchiveBlocks(es, Printer(0, {}))
  }

  /**
   * tar_backup_v3 into a fresh write buffer, with an empty hard-link queue: the connection gets the magic record, the
   * entries, and whatever the last buffer holds behind them.
   */
  method BackupStream(es: seq<Entry>, size: nat)
      returns (conn: seq<byte>, ghost stream: seq<byte>, ghost tail: seq<byte>)
    requires 0 < size && Whole(size)
    requires forall i :: 0 <= i < |es| && es[i].File? ==> |es[i].data| <= LLONG_MAX
    ensures Appended([], stream, BackupBlocks(es)) && conn == stream + tail && TailOf(stream, tail, size)
  {
    hide ArchiveBlocks, Appended, TailOf;
    var ws := new WriteBuffers(size);
    var queue := new HardlinkQueue.Queue();
    var reader := new BackupReader(ws, queue);
    assert reader.State() == Printer(0, {});
    reader.WriteMagic();
    assert [] + [Rec(MagicRecord())] == [Rec(MagicRecord())];
    reader.OutputAll(es);
    stream := ws.Stream();
    conn, tail := ws.SendLast();
  }

  /** ndmp_check_utf8magic: one record is read, whatever it holds; the answer is only logged. */
  method CheckUtf8Magic(rs: ReadBuffers) returns (found: bool)
    requires rs.Valid() && rs.Pos() == 0
    modifies rs, rs.data
    ensures rs.Valid() && rs.Pos() == Min(RECORDSIZE, rs.limit)
    ensures found <==> Ascii(UTF8_MAGIC) <= rs.conn[..rs.Pos()]
  {
    var piece := rs.GetReadBuffer(RECORDSIZE);
    if piece.None? {
      return false;
    }
    found := Ascii(UTF8_MAGIC) <= piece.value;
  }

  /** A restore from a connection, with an empty hard-link queue; bytes that fill no whole buffer are not seen. */
  method RestoreStream(c: Choice, conn: seq<byte>, size: nat) returns (made: seq<Restored>, limit: nat)
    requires 0 < size && Whole(size)
    ensures limit == Times(Quotient(|conn|, size), size) <= |conn| < limit + size
    ensures made == Restore(c, map[], conn[..limit], Min(RECORDSIZE, limit)).made
  {
    hide Restore;
    var rs := new ReadBuffers(size, conn);
    limit := rs.limit;
    var queue := new HardlinkQueue.Queue();
    var found := CheckUtf8Magic(rs);
    var writer := new RestoreWriter(c, rs, queue);
    assert writer.Links() == map[];
    writer.GetDir();
    made := writer.made;
  }

  /** The entries of a backup lie behind its magic record. */
  lemma ArchiveAt(es: seq<Entry>, stream: seq<byte>, tail: seq<byte>)
    requires Appended([], stream, BackupBlocks(es))
    ensures var bs := ArchiveBlocks(es, Printer(0, {}));
      Laid(stream + tail, RECORDSIZE, bs) && Laid(stream, RECORDSIZE, bs) && |stream| == RECORDSIZE + SpanOf(bs)
  {
    hide ArchiveBlocks;
    var bs := ArchiveBlocks(es, Printer(0, {}));
    OneSpan(MagicRecord());
    SpanConcat([Rec(MagicRecord())], bs);
    LaidConcat(stream, 0, [Rec(MagicRecord())], bs);
    LaidExtend(stream, stream + tail, RECORDSIZE, bs);
  }

  /** Both sides one after the other, with buffer sizes as the daemon computes them: one a multiple of the other. */
  method Transfer(c: Choice, es: seq<Entry>, rsize: nat, n: nat)
      returns (made: seq<Restored>, ghost stream: seq<byte>, ghost tail: seq<byte>)
    requires 0 < rsize && Whole(rsize) && 0 < n
    requires forall i :: 0 <= i < |es| && es[i].File? ==> |es[i].data| <= LLONG_MAX
    ensures Appended([], stream, BackupBlocks(es)) && TailOf(stream, tail, Times(n, rsize))
    ensures made == Restore(c, map[], stream + tail, RECORDSIZE).made
  {
    hide Restore, BackupBlocks, Appended;
    TimesWhole(n, rsize);
    var conn, limit;
    conn, stream, tail := BackupStream(es, Times(n, rsize));
    AllWhole(|conn|, n, rsize);
    ArchiveAt(es, stream, tail);
    made, limit := RestoreStream(c, conn, rsize);
    assert conn[..limit] == stream + tail;
  }

  /**
   * The entries backed up are the first to come back: exactly those whose paths fit, in order, with their own ACLs
   * exactly when none is stranded. Nothing else comes back exactly when no round of the parser behind the end of the
   * stream makes an object; so it is when no record there verifies, and always when the stream fits one buffer.
   */
  method BackupThenRestore(c: Choice, w: Way, es: seq<Entry>, rsize: nat, n: nat)
      returns (made: seq<Restored>, ghost stream: seq<byte>, ghost tail: seq<byte>, ghost end: St)
    requires 0 < rsize && Whole(rsize) && 0 < n
    requires Placed(c, w, es) && forall e :: e in es ==> Printable(e)
    ensures Appended([], stream, BackupBlocks(es)) && TailOf(stream, tail, Times(n, rsize))
    ensures Clean(end) && CarryOf(end) == CarryAll(c, es, Carry(map[], None))
    ensures |Originals(w, es)| <= |made|
    ensures var all := Originals(w, es); var back := made[..|all|];
      && BareAll(back) == BareAll(all) && (back == all <==> NoneStranded(w, es))
      && (made == back <==> Silent(c, end, stream + tail, |stream|))
      && (NoneVerifies(stream + tail, |stream|) || |stream| <= Times(n, rsize) ==> made == back)
  {
    hide Printable, Restore, BackupBlocks, Appended, Placed, Originals, NoneStranded, TailOf, Silent, NoneVerifies;
    hide ExpectedAll, CarryAll, BareAll, PutBack, NoneInherits, ArchiveBlocks, SpanOf, Laid;
    SizesFit(es);
    made, stream, tail := Transfer(c, es, rsize, n);
    ArchiveAt(es, stream, tail);
    end := EndOfStream(c, es, Printer(0, {}), map[], stream + tail, RECORDSIZE);
    PutBackIff(c, map[], es);
    PlacedAll(c, w, es);
    TimesWhole(n, rsize);
    if |stream| <= Times(n, rsize) {
      FirstBufferSilent(stream, tail, Times(n, rsize));
    }
    PrefixOf(ExpectedAll(c, es, Carry(map[], None)), made);
  }

  lemma PrefixOf<T>(a: seq<T>, b: seq<T>)
    requires a <= b
    ensures b[..|a|] == a
  {
  }

  lemma SizesFit(es: seq<Entry>)
    requires forall e :: e in es ==> Printable(e)
    ensures forall i :: 0 <= i < |es| && es[i].File? ==> |es[i].data| <= LLONG_MAX
  {
    forall i | 0 <= i < |es| && es[i].File? ensures |es[i].data| <= LLONG_MAX {
      assert Printable(es[i]);
    }
  }

  /**
   * The tail does come back: a tree of more directories than fit one buffer with the magic record is restored with
   * the directories behind the end of the stream a second time.
   */
  method DirectoriesTwice(c: Choice, w: Way, es: seq<Entry>, rsize: nat, n: nat)
      returns (made: seq<Restored>, ghost again: nat)
    requires 0 < rsize && Whole(rsize) && 0 < n && AllOneRecord(es) && Times(n, rsize) <= 512 * |es|
    ensures again < Times(n, rsize) && Fills(RECORDSIZE + 512 * |es| + again, Times(n, rsize))
    ensures made == ExpectedAll(c, es + Stale(es, again, Times(n, rsize)), Carry(map[], None))
    ensures Placed(c, w, es) && AllFit(w, es) ==> |made| == |es| + again / 512
  {
    hide Restore, BackupBlocks, Appended, ExpectedAll, ArchiveBlocks, Laid, SpanOf, OneRecord, Stale;
    ghost var stream, tail, size := [], [], Times(n, rsize);
    AllPrintable(es);
    SizesFit(es);
    made, stream, tail := Transfer(c, es, rsize, n);
    ArchiveAt(es, stream, tail);
    RecordsLaid(stream, RECORDSIZE, es, Printer(0, {}));
    again := |tail|;
    TimesWhole(n, rsize);
    TailWhole(stream, tail, size);
    StaleDirectories(c, es, Printer(0, {}), map[], stream, tail, size, RECORDSIZE);
    StaleAmong(es, again, size);
    if Placed(c, w, es) && AllFit(w, es) {
      AllBack(c, w, es + Stale(es, again, size));
    }
  }

  lemma StaleAmong(es: seq<Entry>, tail: nat, size: nat)
    requires size <= 512 * |es| && tail <= size && Whole(tail) && Whole(size)
    ensures |Stale(es, tail, size)| == tail / 512 && forall e :: e in Stale(es, tail, size) ==> e in es
  {
  }

  lemma TailWhole(stream: seq<byte>, tail: seq<byte>, size: nat)
    requires TailOf(stream, tail, size) && Whole(size) && Whole(|stream|)
    ensures Whole(|tail|)
  {
    var k :| |stream| + |tail| == Times(k, size);
    TimesWhole(k, size);
    WholeArith(|stream| + |tail|, |stream|);
  }
}
