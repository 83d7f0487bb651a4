/** What a restore makes of the bytes behind the end of a stream. */
module TarTail {
  import opened Bytes
  import opened Octal
  import opened TarHeader
  import opened TarFormat
  import opened Buffers
  import opened Selection
  import opened TarRestore
  import opened TarRoundTrip
  import opened TarSelected
  import opened TarResults

  // ---- a tail without records ----

  /** No record of the stream from pos on verifies. */
  predicate NoneVerifies(s: seq<byte>, pos: nat) {
    forall q :: pos <= q && q + RECORDSIZE <= |s| && Whole(q - pos) ==> Verify(s[q..][..RECORDSIZE]) != 1
  }

  lemma {:induction false} SilentRun(c: Choice, st: St, s: seq<byte>, pos: nat)
    requires Sane(st) && !st.multi && NoneVerifies(s, pos)
    ensures Run(c, st, s, pos).0 == st
    decreases if pos <= |s| then |s| - pos else 0
  {
    hide Verify, Process;
    if pos + RECORDSIZE <= |s| {
      assert Whole(pos - pos) && Verify(s[pos..][..RECORDSIZE]) != 1;
      RunStep(c, st, s, pos);
      forall q | pos + RECORDSIZE <= q && q + RECORDSIZE <= |s| && Whole(q - (pos + RECORDSIZE))
        ensures Verify(s[q..][..RECORDSIZE]) != 1
      {
        assert Whole(q - pos);
      }
      SilentRun(c, st, s, pos + RECORDSIZE);
    }
  }

  // ---- what makes an object ----

  /** Whether a record with its payload, seen in this state, puts an object on disk. */
  ghost predicate Makes(c: Choice, st: St, rec: seq<byte>, size: int, s: seq<byte>, pos: nat)
    requires |rec| == RECORDSIZE
  {
    var ino := OctAtoi(rec[SHARED..]);
    if Regular(st, rec) then
      Avail(s, pos, size) && st.hugeSize - size <= 0 && (st.fp.Some? || Target(c, FileName(st, rec)).Some?)
    else if rec[FLAG] == LF_LINK then
      ino != 0 && ino in st.links && st.links[ino].Some? && Target(c, Name(st, rec)).Some?
    else if rec[FLAG] == LF_DIR then
      Target(c, Name(st, rec)).Some? && Wanted(c, Name(st, rec)).kind != Parent
    else (rec[FLAG] == LF_SYMLINK || rec[FLAG] == LF_FIFO) && Target(c, Name(st, rec)).Some?
  }

  /** Whether the round at pos does. */
  ghost predicate StepMakes(c: Choice, st: St, s: seq<byte>, pos: nat) {
    if st.multi then Makes(c, st.(multi := false, last := 0), FakeRecord(st.last), st.left, s, pos)
    else
      && pos + RECORDSIZE <= |s|
      && var rec := s[pos..][..RECORDSIZE];
         Verify(rec) == 1 && Makes(c, LoadHeader(st, rec), rec, OctAtoi(rec[SIZE..]), s, pos + RECORDSIZE)
  }

  /** One more object, or none. */
  predicate Grown(was: seq<Restored>, now: seq<Restored>, one: bool) {
    was <= now && |now| == |was| + if one then 1 else 0
  }

  lemma RegularMakes(c: Choice, st: St, rec: seq<byte>, size: int, hard: Option<int>, s: seq<byte>, pos: nat)
    requires rec != [] && Avail(s, pos, size)
    ensures Grown(st.made, OnFile(c, st, rec, size, hard, s, pos).value.0.made,
                  st.hugeSize - size <= 0 && (st.fp.Some? || Target(c, FileName(st, rec)).Some?))
  {
    hide Target, Wanted, CStr, Round, PopTo;
  }

  lemma ProcessMakes(c: Choice, st: St, rec: seq<byte>, size: int, s: seq<byte>, pos: nat)
    requires |rec| == RECORDSIZE
    ensures var r := Process(c, st, rec, size, s, pos); var one := Makes(c, st, rec, size, s, pos);
      (one ==> r.Some?) && (r.Some? ==> Grown(st.made, r.value.0.made, one))
  {
    hide OctAtoi, OnFile, Target, Wanted, CStr, Round, PopTo, Splice, Atoll, FirstWord;
    if Regular(st, rec) {
      var hard := if rec[FLAG] == LF_LINK then Some(OctAtoi(rec[SHARED..])) else None;
      assert Process(c, st, rec, size, s, pos) == OnFile(c, st, rec, size, hard, s, pos);
      OnFileFrame(c, st, rec, size, hard, s, pos);
      if Avail(s, pos, size) {
        RegularMakes(c, st, rec, size, hard, s, pos);
      }
    }
  }

  lemma StepMakesOne(c: Choice, st: St, s: seq<byte>, pos: nat)
    ensures var r := Step(c, st, s, pos); var one := StepMakes(c, st, s, pos);
      (one ==> r.Some?) && (r.Some? ==> Grown(st.made, r.value.0.made, one))
  {
    hide Process, Makes, Verify, OctAtoi, FieldsOf;
    if st.multi {
      ProcessMakes(c, st.(multi := false, last := 0), FakeRecord(st.last), st.left, s, pos);
    } else if pos + RECORDSIZE <= |s| {
      var rec := s[pos..][..RECORDSIZE];
      ProcessMakes(c, LoadHeader(st, rec), rec, OctAtoi(rec[SIZE..]), s, pos + RECORDSIZE);
    }
  }

  /** The state and position that the parser has reached after n rounds. */
  ghost function Visit(c: Choice, st: St, s: seq<byte>, pos: nat, n: nat): Option<(St, nat)>
    decreases n
  {
    if n == 0 then Some((st, pos))
    else
      var r := Step(c, st, s, pos);
      if r.None? then None else Visit(c, r.value.0, s, r.value.1, n - 1)
  }

  /** None of the rounds from here on puts an object on disk. */
  ghost predicate Silent(c: Choice, st: St, s: seq<byte>, pos: nat) {
    forall n :: Visit(c, st, s, pos, n).Some? ==>
      !StepMakes(c, Visit(c, st, s, pos, n).value.0, s, Visit(c, st, s, pos, n).value.1)
  }

  lemma SilentStep(c: Choice, st: St, s: seq<byte>, pos: nat)
    ensures var r := Step(c, st, s, pos);
      Silent(c, st, s, pos) <==> !StepMakes(c, st, s, pos) && (r.Some? ==> Silent(c, r.value.0, s, r.value.1))
  {
    hide Step, StepMakes;
    var r := Step(c, st, s, pos);
    assert Visit(c, st, s, pos, 0) == Some((st, pos));
    if r.Some? {
      assert forall n: nat :: Visit(c, st, s, pos, n + 1) == Visit(c, r.value.0, s, r.value.1, n);
      assert forall n: nat :: n > 0 ==> Visit(c, st, s, pos, n) == Visit(c, r.value.0, s, r.value.1, n - 1);
    } else {
      assert forall n: nat :: n > 0 ==> Visit(c, st, s, pos, n).None?;
    }
  }

  /** A run keeps what was made, and adds to it exactly when one of its rounds makes an object. */
  lemma {:induction false} RunMakesIff(c: Choice, st: St, s: seq<byte>, pos: nat)
    requires Sane(st)
    ensures var made := Run(c, st, s, pos).0.made; st.made <= made && (made == st.made <==> Silent(c, st, s, pos))
    decreases if pos <= |s| then |s| - pos else 0, st.multi
  {
    hide StepMakes, Silent;
    SilentStep(c, st, s, pos);
    StepMakesOne(c, st, s, pos);
    if Step(c, st, s, pos).Some? {
      StepSane(c, st, s, pos);
      StepAdvances(c, st, s, pos);
      var (st', pos') := Step(c, st, s, pos).value;
      hide Step;
      RunMakesIff(c, st', s, pos');
    }
  }

  /**
   * A printed archive with anything at all behind it: what was printed comes back first, and there is more exactly
   * when a round behind the end makes an object. A tail in which no record verifies adds nothing.
   */
  lemma EndOfStream(c: Choice, es: seq<Entry>, p: Printer, links: map<int, Option<Str>>, s: seq<byte>, from: nat)
      returns (end: St)
    requires (forall e :: e in es ==> Printable(e)) && AllAgree(es, links, p.queue)
    requires Laid(s, from, ArchiveBlocks(es, p))
    ensures var pos := from + SpanOf(ArchiveBlocks(es, p));
      var made, all := Restore(c, links, s, from).made, ExpectedAll(c, es, Carry(links, None));
      && Clean(end) && CarryOf(end) == CarryAll(c, es, Carry(links, None)) && end.made == all
      && all <= made && (made == all <==> Silent(c, end, s, pos))
      && (NoneVerifies(s, pos) ==> made == all)
  {
    hide Laid, Run, ArchiveBlocks, SpanOf, Printable, ExpectedAll, CarryAll, AfterAll, Silent, NoneVerifies;
    assert ArchiveBlocks(es, p) + [] == ArchiveBlocks(es, p);
    end := ArchiveRun(c, Start(links), s, from, es, p, []);
    var pos := from + SpanOf(ArchiveBlocks(es, p));
    RunMakesIff(c, end, s, pos);
    if NoneVerifies(s, pos) {
      SilentRun(c, end, s, pos);
    }
  }

  // ---- the tail that a backup sends ----

  lemma {:induction false} TimesBound(k: nat, size: nat)
    ensures k >= 2 ==> Times(k, size) >= 2 * size
  {
    if k > 2 {
      TimesBound(k - 1, size);
    }
  }

  /** A stream that fits its first buffer has only zeros behind it. */
  lemma FirstBufferSilent(stream: seq<byte>, tail: seq<byte>, size: nat)
    requires TailOf(stream, tail, size) && |stream| <= size && 0 < size
    ensures ZerosFrom(stream + tail, |stream|) && NoneVerifies(stream + tail, |stream|)
  {
    hide Verify;
    var k :| |stream| + |tail| == Times(k, size);
    TimesBound(k, size);
    assert |stream| + |tail| <= size;
    var s := stream + tail;
    assert forall i :: |stream| <= i < |s| ==> s[i] == tail[i - |stream|];
    forall q | |stream| <= q && q + RECORDSIZE <= |s| && Whole(q - |stream|)
      ensures Verify(s[q..][..RECORDSIZE]) != 1
    {
      VerifyZero(s[q..][..RECORDSIZE]);
    }
  }

  // ---- directories that come back twice ----

  /** A directory that is printed as one record. */
  predicate OneRecord(e: Entry) {
    e.Dir? && Printable(e) && |e.name| < NAMSIZ && e.acl.None?
  }

  function DirRecord(e: Entry): (r: seq<byte>)
    requires e.Dir?
    ensures |r| == RECORDSIZE
  {
    HeaderOf(e.name, [], e.attr, e.size, LF_DIR, []).Record()
  }

  predicate AllOneRecord(es: seq<Entry>) {
    forall i :: 0 <= i < |es| ==> OneRecord(es[i])
  }

  /** The records of such directories one behind the other. */
  predicate RecordsAt(s: seq<byte>, pos: nat, es: seq<Entry>)
    requires AllOneRecord(es)
  {
    pos + 512 * |es| <= |s| && forall i :: 0 <= i < |es| ==> s[pos + 512 * i..][..512] == DirRecord(es[i])
  }

  lemma DirBlocks(e: Entry, p: Printer)
    requires OneRecord(e)
    ensures EntryBlocks(e, p) == [Rec(DirRecord(e))] && SpanOf(EntryBlocks(e, p)) == 512
  {
    hide HeaderOf;
    assert EntryBlocks(e, p) == [] + ([] + [] + [Rec(DirRecord(e))]) == [Rec(DirRecord(e))];
    OneSpan(DirRecord(e));
  }

  lemma LaidOne(s: seq<byte>, pos: nat, r: seq<byte>)
    requires |r| == 512
    ensures Laid(s, pos, [Rec(r)]) <==> pos + 512 <= |s| && s[pos..][..512] == r
  {
    assert [Rec(r)][1..] == [];
  }

  lemma ShorterRecords(es: seq<Entry>)
    requires AllOneRecord(es) && es != []
    ensures AllOneRecord(es[..|es| - 1]) && OneRecord(es[|es| - 1])
  {
    hide OneRecord;
  }

  lemma RecordsSnoc(s: seq<byte>, pos: nat, es: seq<Entry>)
    requires AllOneRecord(es) && es != [] && pos <= |s|
    ensures var n := |es| - 1; var before := es[..n];
      && AllOneRecord(before) && es[n].Dir?
      && (RecordsAt(s, pos, es) <==>
            RecordsAt(s, pos, before) && pos + 512 * n + 512 <= |s| && s[pos + 512 * n..][..512] == DirRecord(es[n]))
  {
    ShorterRecords(es);
    assert es[|es| - 1].Dir?;
    hide DirRecord, OneRecord, AllOneRecord;
    var before, n := es[..|es| - 1], |es| - 1;
    assert forall i :: 0 <= i < n ==> before[i] == es[i];
  }

  lemma {:induction false} RecordsLaid(s: seq<byte>, pos: nat, es: seq<Entry>, p: Printer)
    requires AllOneRecord(es) && pos <= |s|
    ensures SpanOf(ArchiveBlocks(es, p)) == 512 * |es|
    ensures Laid(s, pos, ArchiveBlocks(es, p)) <==> RecordsAt(s, pos, es)
    decreases |es|
  {
    hide Laid, SpanOf, RecordsAt, DirRecord, OneRecord, AllOneRecord, ArchiveBlocks;
    if es == [] {
      NoRecords(s, pos, p);
    } else {
      var before, n := es[..|es| - 1], |es| - 1;
      RecordsSnoc(s, pos, es);
      ArchiveSnoc(es, p);
      RecordsLaid(s, pos, before, p);
      LastLaid(s, pos, ArchiveBlocks(before, p), DirRecord(es[n]), n);
    }
  }

  lemma ArchiveSnoc(es: seq<Entry>, p: Printer)
    requires AllOneRecord(es) && es != []
    ensures var n := |es| - 1;
      es[n].Dir? && ArchiveBlocks(es, p) == ArchiveBlocks(es[..n], p) + [Rec(DirRecord(es[n]))]
  {
    hide Printable, EntryBlocks, DirRecord, AfterAll;
    assert OneRecord(es[|es| - 1]);
    DirBlocks(es[|es| - 1], AfterAll(es[..|es| - 1], p));
  }

  lemma LastLaid(s: seq<byte>, pos: nat, a: seq<Block>, r: seq<byte>, n: nat)
    requires SpanOf(a) == 512 * n && |r| == 512
    ensures SpanOf(a + [Rec(r)]) == 512 * n + 512
    ensures Laid(s, pos, a + [Rec(r)]) <==>
              Laid(s, pos, a) && pos + 512 * n + 512 <= |s| && s[pos + 512 * n..][..512] == r
  {
    OneSpan(r);
    SpanConcat(a, [Rec(r)]);
    LaidConcat(s, pos, a, [Rec(r)]);
    LaidOne(s, pos + 512 * n, r);
    hide Laid, SpanOf;
  }

  lemma NoRecords(s: seq<byte>, pos: nat, p: Printer)
    requires pos <= |s|
    ensures ArchiveBlocks([], p) == [] && SpanOf([]) == 0 && Laid(s, pos, []) && RecordsAt(s, pos, [])
  {
  }

  /** The directories whose records lie in the tail: those printed one buffer before its place. */
  function Stale(es: seq<Entry>, tail: nat, size: nat): seq<Entry>
    requires 512 * |es| >= size && tail <= size
  {
    es[|es| - size / 512..][..tail / 512]
  }

  /** The stream and its tail hold the records of the directories, and then those of the stale ones. */
  lemma StaleRecords(es: seq<Entry>, stream: seq<byte>, tail: seq<byte>, size: nat, from: nat)
    requires AllOneRecord(es) && Whole(size) && Whole(|tail|) && TailOf(stream, tail, size) && |tail| <= size
    requires size <= 512 * |es| && |stream| == from + 512 * |es| && RecordsAt(stream, from, es)
    ensures var all := es + Stale(es, |tail|, size);
      AllOneRecord(all) && RecordsAt(stream + tail, from, all) && |stream + tail| == from + 512 * |all|
  {
    AllWithStale(es, |tail|, size);
    hide DirRecord, OneRecord, TailOf, Stale, AllOneRecord;
    var m, t := |es|, |tail| / 512;
    var s, all := stream + tail, es + Stale(es, |tail|, size);
    assert |tail| == 512 * t && |all| == m + t;
    forall i | 0 <= i < m + t ensures s[from + 512 * i..][..512] == DirRecord(all[i]) {
      if i < m {
        assert s[from + 512 * i..][..512] == stream[from + 512 * i..][..512];
      } else {
        StaleRecord(es, stream, tail, size, from, i - m);
      }
    }
  }

  lemma AllWithStale(es: seq<Entry>, tail: nat, size: nat)
    requires AllOneRecord(es) && Whole(size) && Whole(tail) && tail <= size <= 512 * |es|
    ensures AllOneRecord(es + Stale(es, tail, size)) && |Stale(es, tail, size)| == tail / 512
    ensures forall e :: e in es + Stale(es, tail, size) ==> e.Dir?
  {
    assert forall i :: 0 <= i < |es| ==> es[i].Dir?;
    hide OneRecord;
  }

  lemma StaleRecord(es: seq<Entry>, stream: seq<byte>, tail: seq<byte>, size: nat, from: nat, k: nat)
    requires AllOneRecord(es) && Whole(size) && Whole(|tail|) && TailOf(stream, tail, size) && |tail| <= size
    requires size <= 512 * |es| && |stream| == from + 512 * |es| && RecordsAt(stream, from, es) && 512 * k < |tail|
    ensures var e := Stale(es, |tail|, size)[k];
            e.Dir? && (stream + tail)[from + 512 * (|es| + k)..][..512] == DirRecord(e)
  {
    var j := |es| + k - size / 512;
    assert OneRecord(es[j]) && Stale(es, |tail|, size)[k] == es[j];
    hide DirRecord, OneRecord;
    StaleSlice(stream, tail, size, 512 * k);
    hide TailOf;
    assert from + 512 * (|es| + k) == |stream| + 512 * k && from + 512 * j == |stream| + 512 * k - size;
  }

  lemma StaleSlice(stream: seq<byte>, tail: seq<byte>, size: nat, at: nat)
    requires TailOf(stream, tail, size) && at + 512 <= |tail| && size <= |stream| + at
    ensures (stream + tail)[|stream| + at..][..512] == stream[|stream| + at - size..][..512]
  {
    var x, y := (stream + tail)[|stream| + at..][..512], stream[|stream| + at - size..][..512];
    forall i | 0 <= i < 512 ensures x[i] == y[i] {
      assert x[i] == tail[at + i];
    }
  }

  /**
   * A reachable case: directories of one record each that fill more than one buffer. All come back, and then once
   * more those whose records the last buffer still held.
   */
  lemma StaleDirectories(c: Choice, es: seq<Entry>, p: Printer, links: map<int, Option<Str>>,
                         stream: seq<byte>, tail: seq<byte>, size: nat, from: nat)
    requires AllOneRecord(es)
    requires Whole(size) && Whole(|tail|) && TailOf(stream, tail, size) && |tail| <= size <= 512 * |es|
    requires |stream| == from + 512 * |es| && Laid(stream, from, ArchiveBlocks(es, p))
    ensures Restore(c, links, stream + tail, from).made ==
              ExpectedAll(c, es + Stale(es, |tail|, size), Carry(links, None))
  {
    hide Restore, ExpectedAll, Printable, SpanOf, TailOf, Laid, ArchiveBlocks;
    RecordsLaid(stream, from, es, p);
    hide RecordsAt, OneRecord;
    StaleRecords(es, stream, tail, size, from);
    RecordsRestore(c, es + Stale(es, |tail|, size), p, links, stream + tail, from);
  }

  /** A stream that is nothing but such records. */
  lemma RecordsRestore(c: Choice, es: seq<Entry>, p: Printer, links: map<int, Option<Str>>, s: seq<byte>, from: nat)
    requires AllOneRecord(es) && RecordsAt(s, from, es) && |s| == from + 512 * |es|
    ensures Restore(c, links, s, from).made == ExpectedAll(c, es, Carry(links, None))
  {
    hide Laid, ArchiveBlocks, SpanOf, Restore, ExpectedAll, Printable;
    AllPrintable(es);
    RecordsLaid(s, from, es, p);
    hide RecordsAt, OneRecord, AllOneRecord;
    ArchiveRoundTrip(c, es, p, links, s, from);
  }

  lemma AllPrintable(es: seq<Entry>)
    requires AllOneRecord(es)
    ensures forall e :: e in es ==> Printable(e) && e.Dir?
  {
    forall e | e in es ensures Printable(e) && e.Dir? {
      var i :| 0 <= i < |es| && es[i] == e;
      assert OneRecord(es[i]);
    }
  }

  /**
   * An entry that still lies behind the end as it would be printed next, in the printer's last state and followed by
   * zeros, is restored once more.
   */
  lemma StaleEntryComesBack(c: Choice, es: seq<Entry>, p: Printer, links: map<int, Option<Str>>, stale: Entry,
                            count: nat, s: seq<byte>, from: nat)
    requires (forall e :: e in es ==> Printable(e)) && Printable(stale) && AllAgree(es + [stale], links, p.queue)
    requires var q := Printer(count, AfterAll(es, p).queue); var all := ArchiveBlocks(es, p) + EntryBlocks(stale, q);
             Laid(s, from, all) && ZerosFrom(s, from + SpanOf(all))
    ensures var k := Carry(links, None);
            Restore(c, links, s, from).made == ExpectedAll(c, es, k) + Expected(c, stale, CarryAll(c, es, k))
  {
    hide Laid, Run, EntryBlocks, ArchiveBlocks, SpanOf, Printable, Expected, After, AfterEntry, ZerosFrom;
    var q := Printer(count, AfterAll(es, p).queue);
    var a, b := ArchiveBlocks(es, p), EntryBlocks(stale, q);
    assert forall e :: e in es ==> e in es + [stale];
    var st1 := ArchiveRun(c, Start(links), s, from, es, p, b);
    assert stale in es + [stale];
    AgreeStill(c, stale, es, Carry(links, None), p);
    assert b + [] == b;
    var st2 := EntryRun(c, st1, s, from + SpanOf(a), stale, q, []);
    SpanConcat(a, b);
    ZerosRun(c, st2, s, from + SpanOf(a + b));
  }
}
