/** The threads of both sides and the stream between them: what is printed is what is parsed. */
module Threads {
  import opened Bytes
  import opened TarFormat
  import opened Selection
  import opened TarRestore
  import opened TarRoundTrip
  import opened TarTail
  import opened EndToEnd
  import B = BackupPipeline
  import R = RestorePipeline

  /** A backup run that ended well: write_tar_eof, then a stop, then the writer's exit. */
  predicate Finished(b0: B.State, acts: seq<B.Action>) {
    && B.Initial(b0) && B.Clean(b0, acts)
    && B.Exec(b0, acts).exited && B.Exec(b0, acts).phase == B.Ended(true)
  }

  /** A restore run that has read the whole connection with the repository's one buffer, and has ended. */
  predicate Drained(r0: R.State, acts: seq<R.Action>, conn: seq<byte>) {
    && R.Initial(r0) && |r0.bufs| == 1 && R.Exec(r0, acts).Some?
    && R.Exec(r0, acts).value.phase.Ended? && R.Exec(r0, acts).value.got == conn
  }

  /**
   * Under every interleaving on both sides: the parser has been handed the printed stream, whole and in order, at the
   * front of what it got.
   */
  lemma StreamCrosses(b0: B.State, bacts: seq<B.Action>, r0: R.State, racts: seq<R.Action>)
    requires Finished(b0, bacts) && Drained(r0, racts, B.Exec(b0, bacts).sent)
    ensures B.Exec(b0, bacts).released <= R.Exec(r0, racts).value.handed
  {
    hide B.Exec, R.Exec, B.Clean;
    B.GracefulExit(b0, bacts);
    R.EndedHasAll(r0, racts);
  }

  /** And at every moment of a restore over any ring what has been handed out is the front of what was sent. */
  lemma NothingInvented(b0: B.State, bacts: seq<B.Action>, r0: R.State, racts: seq<R.Action>)
    requires Finished(b0, bacts) && R.Initial(r0) && R.Exec(r0, racts).Some?
    requires R.Exec(r0, racts).value.got <= B.Exec(b0, bacts).sent
    ensures var b, r := B.Exec(b0, bacts), R.Exec(r0, racts).value;
      r.handed <= b.sent && if |r.handed| <= b.offset then r.handed <= b.released else b.released <= r.handed
  {
    hide B.Exec, R.Exec, B.Clean, R.Unread;
    B.GracefulExit(b0, bacts);
    R.RestoreConserves(r0, racts);
    var b, r := B.Exec(b0, bacts), R.Exec(r0, racts).value;
    FrontOf(r.handed, R.Unread(r.bufs, r.out, r.queued), b.sent, b.released);
  }

  lemma FrontOf<T>(handed: seq<T>, unread: seq<T>, sent: seq<T>, released: seq<T>)
    requires handed + unread <= sent && released <= sent
    ensures handed <= sent && if |handed| <= |released| then handed <= released else released <= handed
  {
    assert handed == (handed + unread)[..|handed|] == sent[..|handed|];
  }

  /** A tree printed by a run of the backup threads is the first thing that the restore threads' parser puts back. */
  lemma TreeCrosses(c: Choice, es: seq<Entry>, b0: B.State, bacts: seq<B.Action>, r0: R.State, racts: seq<R.Action>)
    requires Finished(b0, bacts) && Drained(r0, racts, B.Exec(b0, bacts).sent)
    requires Appended([], B.Exec(b0, bacts).released, BackupBlocks(es)) && forall e :: e in es ==> Printable(e)
    ensures ExpectedAll(c, es, Carry(map[], None)) <=
              Restore(c, map[], R.Exec(r0, racts).value.handed, RECORDSIZE).made
  {
    var stream, handed := B.Exec(b0, bacts).released, R.Exec(r0, racts).value.handed;
    StreamCrosses(b0, bacts, r0, racts);
    hide Finished, Drained, B.Exec, R.Exec, Restore, ExpectedAll, Printable, BackupBlocks, Appended, ArchiveBlocks;
    hide Laid;
    assert handed == stream + handed[|stream|..];
    ArchiveAt(es, stream, handed[|stream|..]);
    var _ := EndOfStream(c, es, Printer(0, {}), map[], handed, RECORDSIZE);
  }

  /**
   * What a printer leaves in its stream some finished run of the backup threads has released, from every initial state
   * of the repository's one-buffer ring; so for every tree there is a run as TreeCrosses takes it.
   */
  lemma PrintedIsReleased(es: seq<Entry>, stream: seq<byte>, b0: B.State) returns (bacts: seq<B.Action>)
    requires Appended([], stream, BackupBlocks(es)) && B.Initial(b0) && |b0.bufs| == 1
    ensures Finished(b0, bacts) && B.Exec(b0, bacts).released == stream
  {
    hide B.Exec, B.Clean, B.Initial, BackupBlocks, Laid;
    assert Whole(|stream|);
    bacts := B.AnyStreamReleased(b0, stream);
  }
}
