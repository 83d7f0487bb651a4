/** What a restore makes of records that do not pass their checksum: they are passed over, and nothing else is lost. */
module TarDamage {
  import opened Bytes
  import opened TarHeader
  import opened TarFormat
  import opened Selection
  import opened TarRestore
  import opened TarRoundTrip
  import opened TarTail

  /** None of the n records from pos on passes its checksum. */
  predicate AllRefused(s: seq<byte>, pos: nat, n: nat)
    decreases n
  {
    if n == 0 then pos <= |s|
    else pos + 512 <= |s| && Verify(s[pos..][..512]) != 1 && AllRefused(s, pos + 512, n - 1)
  }

  /** The loop moves past them record by record, whatever its state, and changes nothing. */
  lemma {:induction false} PassedOver(c: Choice, st: St, s: seq<byte>, pos: nat, n: nat)
    requires Sane(st) && !st.multi && AllRefused(s, pos, n)
    ensures Run(c, st, s, pos) == Run(c, st, s, pos + 512 * n)
    decreases n
  {
    hide Run, Verify, Step, Sane, AllRefused;
    if n > 0 {
      FirstRefused(s, pos, n);
      RefusedStep(c, st, s, pos);
      PassedOver(c, st, s, pos + 512, n - 1);
      assert pos + 512 + 512 * (n - 1) == pos + 512 * n;
    } else {
      assert pos + 512 * n == pos;
    }
  }

  lemma FirstRefused(s: seq<byte>, pos: nat, n: nat)
    requires AllRefused(s, pos, n) && n > 0
    ensures pos + 512 <= |s| && Verify(s[pos..][..512]) != 1 && AllRefused(s, pos + 512, n - 1)
  {
    hide Verify;
  }

  lemma {:induction false} ExpectedJoin(c: Choice, a: seq<Entry>, b: seq<Entry>, k: Carry)
    ensures ExpectedAll(c, a + b, k) == ExpectedAll(c, a, k) + ExpectedAll(c, b, CarryAll(c, a, k))
    ensures CarryAll(c, a + b, k) == CarryAll(c, b, CarryAll(c, a, k))
    decreases |b|
  {
    hide Expected, After;
    if b == [] {
      assert a + b == a;
    } else {
      var n := |b| - 1;
      assert (a + b)[..|a + b| - 1] == a + b[..n] && (a + b)[|a + b| - 1] == b[n];
      ExpectedJoin(c, a, b[..n], k);
      Regroup(ExpectedAll(c, a, k), ExpectedAll(c, b[..n], CarryAll(c, a, k)),
              Expected(c, b[n], CarryAll(c, b[..n], CarryAll(c, a, k))));
    }
  }

  /** Where the queues agree on the entries of both parts, they agree on the second after the first. */
  lemma AgreeAfter(c: Choice, before: seq<Entry>, after: seq<Entry>, k: Carry, p: Printer)
    requires AllAgree(before + after, k.links, p.queue)
    ensures AllAgree(before, k.links, p.queue)
    ensures AllAgree(after, CarryAll(c, before, k).links, AfterAll(before, p).queue)
  {
    hide Agrees, CarryAll, AfterAll;
    forall e | e in before ensures Agrees(e, k.links, p.queue) {
      assert e in before + after;
    }
    forall e | e in after ensures Agrees(e, CarryAll(c, before, k).links, AfterAll(before, p).queue) {
      assert e in before + after;
      AgreeStill(c, e, before, k, p);
    }
  }

  /**
   * An archive in two parts with any number of refused records between them: everything of both parts comes back as
   * if the second followed the first. q is any printer that holds the queue of the first part's.
   */
  lemma JunkBetween(c: Choice, before: seq<Entry>, after: seq<Entry>, p: Printer, q: Printer,
                    links: map<int, Option<Str>>, s: seq<byte>, from: nat, n: nat)
    requires (forall e :: e in before ==> Printable(e)) && (forall e :: e in after ==> Printable(e))
    requires AllAgree(before + after, links, p.queue) && q.queue == AfterAll(before, p).queue
    requires var at := from + SpanOf(ArchiveBlocks(before, p));
             && Laid(s, from, ArchiveBlocks(before, p)) && AllRefused(s, at, n)
             && Laid(s, at + 512 * n, ArchiveBlocks(after, q))
             && ZerosFrom(s, at + 512 * n + SpanOf(ArchiveBlocks(after, q)))
    ensures Restore(c, links, s, from).made == ExpectedAll(c, before + after, Carry(links, None))
  {
    hide Laid, Run, ArchiveBlocks, SpanOf, Printable, ExpectedAll, CarryAll, AfterAll, ZerosFrom, AllAgree, AllRefused;
    var k0 := Carry(links, None);
    var at := from + SpanOf(ArchiveBlocks(before, p));
    AgreeAfter(c, before, after, k0, p);
    assert ArchiveBlocks(before, p) + [] == ArchiveBlocks(before, p);
    assert ArchiveBlocks(after, q) + [] == ArchiveBlocks(after, q);
    var st1 := ArchiveRun(c, Start(links), s, from, before, p, []);
    PassedOver(c, st1, s, at, n);
    var st2 := ArchiveRun(c, st1, s, at + 512 * n, after, q, []);
    ZerosRun(c, st2, s, at + 512 * n + SpanOf(ArchiveBlocks(after, q)));
    ExpectedJoin(c, before, after, k0);
  }

  /**
   * One byte of a directory's header is another one, anywhere beside the checksum: that directory does not come back,
   * and every other entry does as if it had never been there.
   */
  lemma DamagedDirectory(c: Choice, before: seq<Entry>, d: Entry, after: seq<Entry>, p: Printer,
                         links: map<int, Option<Str>>, s: seq<byte>, from: nat, i: nat, b: byte)
    requires (forall e :: e in before ==> Printable(e)) && OneRecord(d) && (forall e :: e in after ==> Printable(e))
    requires AllAgree(before + after, links, p.queue)
    requires i < RECORDSIZE && !(CHKSUM <= i < FLAG) && b != DirRecord(d)[i]
    requires var at := from + SpanOf(ArchiveBlocks(before, p));
             var q := AfterAll(before + [d], p);
             && Laid(s, from, ArchiveBlocks(before, p))
             && at + 512 <= |s| && s[at..][..512] == DirRecord(d)[i := b]
             && Laid(s, at + 512, ArchiveBlocks(after, q))
             && ZerosFrom(s, at + 512 + SpanOf(ArchiveBlocks(after, q)))
    ensures Restore(c, links, s, from).made == ExpectedAll(c, before + after, Carry(links, None))
  {
    hide Laid, Restore, ArchiveBlocks, SpanOf, Printable, ExpectedAll, ZerosFrom, AllAgree, Verify, HeaderOf, Stamp;
    var at := from + SpanOf(ArchiveBlocks(before, p));
    DamageRefused(HeaderOf(d.name, [], d.attr, d.size, LF_DIR, []).Blank(), i, b);
    assert AllRefused(s, at, 1);
    assert (before + [d])[..|before|] == before;
    JunkBetween(c, before, after, p, AfterAll(before + [d], p), links, s, from, 1);
  }
}
