/** The restore threads around the shared ring of buffers: every interleaving of reader and consumer steps. */
module RestorePipeline {
  import opened Bytes

  /** One buffer: tb_buffer_data, tb_buffer_size (0 until the first read), tb_buffer_spot, tb_full, tb_read_buf_read. */
  datatype Buf = Buf(data: seq<byte>, bsize: nat, spot: nat, full: bool, done: bool)

  /** Where the consumer stands: using the last bytes it was handed, inside a call, at the wait, or through. */
  datatype Phase = Using(held: nat) | Calling(want: nat) | Waiting(want: nat) | Ended

  /**
   * size is the transfer size. got is what the reader has read from the connection, handed what the consumer
   * was given, both in order; queued counts the full buffers, oldest at out.
   */
  datatype State = State(size: nat, bufs: seq<Buf>, inn: nat, out: nat, phase: Phase, stop: bool,
                         got: seq<byte>, handed: seq<byte>, queued: nat)

  datatype Action =
    | Read(bytes: seq<byte>)    // reader: one whole buffer from the connection
    | Fail                      // reader: the read failed; both threads are told to stop
    | Done                      // consumer: setReadBufDone after use
    | Call(want: nat)           // consumer: get_read_buffer begins with setReadBufDone
    | Get                       // consumer: tlm_get_read_buffer up to its wait, unless told to stop
    | Wake                      // consumer: the wait is over
    | Quit                      // consumer: told to stop between two records

  function Next(i: nat, n: nat): nat {
    if i + 1 >= n then 0 else i + 1
  }

  predicate BufSized(b: Buf, size: nat) {
    |b.data| == size && b.spot <= b.bsize && (b.bsize == 0 || b.bsize == size) && Whole(b.spot)
  }

  predicate Sized(s: State) {
    && 0 < s.size && Whole(s.size) && s.inn < |s.bufs| && s.out < |s.bufs|
    && (forall i :: 0 <= i < |s.bufs| ==> BufSized(s.bufs[i], s.size))
    && (s.phase.Calling? || s.phase.Waiting? ==> s.phase.want > 0)
  }

  function Out(s: State): Buf
    requires Sized(s)
  {
    s.bufs[s.out]
  }

  /** The slice the consumer is using. */
  function Held(s: State): seq<byte>
    requires Sized(s)
  {
    if s.phase.Using? && s.phase.held <= Out(s).spot then Out(s).data[Out(s).spot - s.phase.held..Out(s).spot] else []
  }

  /** setReadBufDone: the flag of the buffer at the input index. */
  function SetDone(s: State): State
    requires Sized(s)
  {
    s.(bufs := s.bufs[s.inn := s.bufs[s.inn].(done := true)])
  }

  /** An emptied buffer is given back to the reader. */
  function Release(s: State): State
    requires Sized(s)
  {
    s.(bufs := s.bufs[s.out := Out(s).(full := false)], out := Next(s.out, |s.bufs|),
        queued := if s.queued > 0 then s.queued - 1 else 0)
  }

  /** The end of tlm_get_read_buffer: a piece of the full buffer, or nothing when it has none left. */
  function Hand(s: State, want: nat): State
    requires Sized(s) && want > 0
  {
    var b := Out(s);
    if b.bsize - b.spot <= 0 then s.(phase := Calling(want))
    else Handed(s, Min(Round(want), b.bsize - b.spot))
  }

  function Handed(s: State, n: nat): State
    requires Sized(s) && Out(s).spot + n <= Out(s).bsize
  {
    var b := Out(s);
    s.(bufs := s.bufs[s.out := b.(spot := b.spot + n)], handed := s.handed + b.data[b.spot..b.spot + n],
        phase := Using(n))
  }

  /** tlm_get_read_buffer, up to its wait. */
  function GetBuffer(s: State, want: nat): State
    requires Sized(s) && want > 0
  {
    var s1 := if Out(s).full && Out(s).bsize - Out(s).spot <= 0 then Release(s.(phase := Calling(want))) else s;
    if Out(s1).full then Hand(s1, want) else s1.(phase := Waiting(want))
  }

  /** One step of either thread, None when it cannot be taken. */
  function Step(s: State, a: Action): Option<State>
    requires Sized(s)
  {
    var free := s.bufs[s.inn];
    match a
    case Read(bytes) =>
      if s.stop || free.full || !free.done || |bytes| != s.size then None else
        Some(s.(bufs := s.bufs[s.inn := Buf(bytes, s.size, 0, true, false)], inn := Next(s.inn, |s.bufs|),
                got := s.got + bytes, queued := s.queued + 1))
    case Fail =>
      if s.stop || free.full || !free.done then None else Some(s.(stop := true))
    case Done =>
      if !s.phase.Using? then None else Some(SetDone(s.(phase := Using(0))))
    case Call(want) =>
      if !s.phase.Using? || want == 0 then None else Some(SetDone(s.(phase := Calling(want))))
    case Get =>
      if !s.phase.Calling? then None
      else if s.stop then Some(s.(phase := Ended))
      else Some(GetBuffer(s, s.phase.want))
    case Wake =>
      if !s.phase.Waiting? then None
      else if Out(s).full then Some(Hand(s, s.phase.want))
      else Some(s.(phase := Calling(s.phase.want)))
    case Quit =>
      if !s.phase.Using? || !s.stop then None else Some(s.(phase := Ended))
  }

  lemma HandSized(s: State, want: nat)
    requires Sized(s) && want > 0
    ensures Sized(Hand(s, want))
  {
    var b := Out(s);
    assert Whole(b.bsize);
    WholeArith(b.bsize, b.spot);
    hide Round;
    WholeArith(b.spot, Min(Round(want), b.bsize - b.spot));
    hide Whole;
  }

  lemma StepSized(s: State, a: Action)
    requires Sized(s) && Step(s, a).Some?
    ensures Sized(Step(s, a).value)
  {
    if a.Get? && !s.stop {
      var want := s.phase.want;
      HandSized(s, want);
      var r := Release(s.(phase := Calling(want)));
      assert Sized(r) by { hide Whole; }
      HandSized(r, want);
    } else if a.Wake? {
      HandSized(s, s.phase.want);
    }
    hide Whole, Hand;
  }

  // ---- what every run keeps ----

  function Dist(out: nat, i: nat, n: nat): int {
    if i >= out then i - out else i - out + n
  }

  function Plus(out: nat, k: nat, n: nat): int {
    if out + k < n then out + k else out + k - n
  }

  /** What the consumer has not been handed of the k buffers from the output index on, oldest first. */
  function Unread(bufs: seq<Buf>, out: nat, k: nat): seq<byte>
    requires out < |bufs| && k <= |bufs| && (forall i :: 0 <= i < |bufs| ==> bufs[i].spot <= |bufs[i].data|)
  {
    if k == 0 then [] else
      var b := bufs[Plus(out, k - 1, |bufs|)];
      Unread(bufs, out, k - 1) + b.data[b.spot..]
  }

  /** The full buffers are the queued ones; the others have been handed out to the last byte. */
  predicate Ring(s: State)
    requires Sized(s)
  {
    && s.queued <= |s.bufs| && s.inn == Plus(s.out, s.queued, |s.bufs|)
    && (forall i :: 0 <= i < |s.bufs| ==> (s.bufs[i].full <==> Dist(s.out, i, |s.bufs|) < s.queued))
    && (forall i :: 0 <= i < |s.bufs| ==>
          if s.bufs[i].full then s.bufs[i].bsize == s.size else s.bufs[i].spot == s.bufs[i].bsize)
    && (forall i :: 0 <= i < |s.bufs| && s.bufs[i].full && i != s.out ==> s.bufs[i].spot == 0)
    && (s.phase.Waiting? && Out(s).full ==> Out(s).spot == 0)
  }

  /** The consumer's slice lies in a full buffer and ends what it has been handed. */
  predicate Slice(s: State)
    requires Sized(s)
  {
    s.phase.Using? && s.phase.held > 0 ==>
      && Out(s).full && s.phase.held <= Out(s).spot && s.phase.held <= |s.handed|
      && s.handed[|s.handed| - s.phase.held..] == Held(s)
  }

  /** The reader may go on whenever the consumer waits. */
  predicate Flags(s: State)
    requires Sized(s)
  {
    && (s.phase.Calling? && (s.queued == 0 || (s.queued == 1 && Out(s).spot == s.size)) ==> s.bufs[s.inn].done)
    && (s.phase.Waiting? && s.queued == 0 ==> s.bufs[s.inn].done)
  }

  predicate Conserved(s: State)
    requires Sized(s) && s.queued <= |s.bufs|
  {
    s.handed + Unread(s.bufs, s.out, s.queued) == s.got
  }

  predicate Inv(s: State) {
    Sized(s) && Ring(s) && Slice(s) && Flags(s) && Conserved(s)
  }

  predicate Spots(bufs: seq<Buf>) {
    forall i :: 0 <= i < |bufs| ==> bufs[i].spot <= |bufs[i].data|
  }

  lemma {:induction false} UnreadFrame(b1: seq<Buf>, b2: seq<Buf>, out: nat, k: nat)
    requires |b1| == |b2| && out < |b1| && k <= |b1| && Spots(b1) && Spots(b2)
    requires forall i :: 0 <= i < |b1| && Dist(out, i, |b1|) < k ==>
               b1[i].data == b2[i].data && b1[i].spot == b2[i].spot
    ensures Unread(b1, out, k) == Unread(b2, out, k)
  {
    if k > 0 {
      assert Dist(out, Plus(out, k - 1, |b1|), |b1|) == k - 1;
      UnreadFrame(b1, b2, out, k - 1);
    }
  }

  lemma {:induction false} UnreadHead(bufs: seq<Buf>, out: nat, k: nat)
    requires out < |bufs| && 0 < k <= |bufs| && Spots(bufs)
    ensures Unread(bufs, out, k) == bufs[out].data[bufs[out].spot..] + Unread(bufs, Next(out, |bufs|), k - 1)
  {
    if k > 1 {
      UnreadHead(bufs, out, k - 1);
      assert Plus(out, k - 1, |bufs|) == Plus(Next(out, |bufs|), k - 2, |bufs|);
      var b, h := bufs[Plus(out, k - 1, |bufs|)], bufs[out];
      calc {
        Unread(bufs, out, k);
        h.data[h.spot..] + Unread(bufs, Next(out, |bufs|), k - 2) + b.data[b.spot..];
        h.data[h.spot..] + Unread(bufs, Next(out, |bufs|), k - 1);
      }
    }
  }

  lemma Joined<T>(a: seq<T>, b: seq<T>, c: seq<T>)
    ensures a + (b + c) == a + b + c
  {
  }

  /** A buffer read from the connection joins the unread bytes at their end. */
  lemma ReadContent(s: State, bytes: seq<byte>)
    requires Inv(s) && Step(s, Read(bytes)).Some?
    ensures var s' := Step(s, Read(bytes)).value; Sized(s') && s'.queued <= |s.bufs| && Conserved(s')
  {
    var s' := Step(s, Read(bytes)).value;
    assert s.queued < |s.bufs|;
    assert Dist(s.out, s.inn, |s.bufs|) == s.queued;
    UnreadFrame(s.bufs, s'.bufs, s.out, s.queued);
    assert bytes[0..] == bytes;
    Joined(s.handed, Unread(s.bufs, s.out, s.queued), bytes);
  }

  lemma ReadInv(s: State, bytes: seq<byte>)
    requires Inv(s) && Step(s, Read(bytes)).Some?
    ensures Inv(Step(s, Read(bytes)).value)
  {
    ReadContent(s, bytes);
    hide Conserved, Whole;
  }

  lemma DoneContent(s: State, a: Action)
    requires Inv(s) && (a.Done? || a.Call?) && Step(s, a).Some?
    ensures var s' := Step(s, a).value; Sized(s') && s'.queued <= |s'.bufs| && Conserved(s')
  {
    hide Whole, Flags, Slice;
    var s' := Step(s, a).value;
    assert Spots(s'.bufs) && |s'.bufs| == |s.bufs|;
    hide Ring;
    UnreadFrame(s.bufs, s'.bufs, s.out, s.queued);
  }

  lemma DoneInv(s: State, a: Action)
    requires Inv(s) && (a.Done? || a.Call?) && Step(s, a).Some?
    ensures Inv(Step(s, a).value)
  {
    DoneContent(s, a);
    hide Whole, Conserved;
  }

  /** The piece handed out moves from the unread bytes to the handed ones. */
  lemma HandAt(s: State, n: nat)
    requires Sized(s) && 0 < s.queued <= |s.bufs| && Conserved(s) && Out(s).spot + n <= Out(s).bsize
    requires Sized(Handed(s, n))
    ensures Handed(s, n).queued == s.queued && |Handed(s, n).bufs| == |s.bufs| && Conserved(Handed(s, n))
  {
    hide Whole;
    var b := Out(s);
    var bufs := Handed(s, n).bufs;
    UnreadHead(s.bufs, s.out, s.queued);
    UnreadHead(bufs, s.out, s.queued);
    RestFrame(s.bufs, bufs, s.out, s.queued);
    hide Unread;
    PieceMoves(s.handed, b.data, b.spot, b.spot + n, Unread(s.bufs, Next(s.out, |s.bufs|), s.queued - 1));
  }

  lemma PieceMoves<T>(handed: seq<T>, d: seq<T>, i: nat, j: nat, rest: seq<T>)
    requires i <= j <= |d|
    ensures handed + d[i..j] + (d[j..] + rest) == handed + (d[i..] + rest)
  {
  }

  lemma RestFrame(b1: seq<Buf>, b2: seq<Buf>, out: nat, k: nat)
    requires |b1| == |b2| && out < |b1| && 0 < k <= |b1| && Spots(b1) && Spots(b2)
    requires forall i :: 0 <= i < |b1| && i != out ==> b1[i] == b2[i]
    ensures Unread(b1, Next(out, |b1|), k - 1) == Unread(b2, Next(out, |b1|), k - 1)
  {
    UnreadFrame(b1, b2, Next(out, |b1|), k - 1);
  }

  lemma HandedRing(s: State, n: nat)
    requires Sized(s) && Ring(s) && 0 < n && Out(s).spot + n <= Out(s).bsize && Out(s).full && Sized(Handed(s, n))
    ensures Ring(Handed(s, n)) && Slice(Handed(s, n)) && Flags(Handed(s, n))
  {
    hide Whole;
  }

  lemma HandInv(s: State, want: nat)
    requires Sized(s) && Ring(s) && Conserved(s) && want > 0 && Out(s).full
    requires Out(s).spot < s.size
    ensures Inv(Hand(s, want))
  {
    HandSized(s, want);
    assert Dist(s.out, s.out, |s.bufs|) == 0;
    assert 0 < s.queued <= |s.bufs| && Out(s).bsize == s.size;
    var n := Min(Round(want), s.size - Out(s).spot);
    assert Hand(s, want) == Handed(s, n) && 0 < n;
    hide Hand, Round, Whole, Ring, Conserved, Slice, Flags, Handed;
    HandAt(s, n);
    HandedRing(s, n);
  }

  /** An emptied buffer given back leaves the ring in order. */
  lemma ReleaseRing(s: State)
    requires Sized(s) && Ring(s) && Flags(s) && s.phase.Calling? && Out(s).full && Out(s).spot == s.size
    ensures var s' := Release(s);
            && Sized(s') && Ring(s') && 0 < s.queued && s'.queued == s.queued - 1
            && (Out(s').full ==> Out(s').spot == 0)
            && (!Out(s').full ==> s'.queued == 0 && s'.bufs[s'.inn].done)
  {
    hide Whole;
    assert Dist(s.out, s.out, |s.bufs|) == 0;
  }

  /** An emptied buffer given back held nothing unread. */
  lemma ReleaseInv(s: State)
    requires Inv(s) && s.phase.Calling? && Out(s).full && Out(s).spot == s.size
    ensures var s' := Release(s);
            && Sized(s') && Ring(s') && Conserved(s')
            && (Out(s').full ==> Out(s').spot == 0)
            && (!Out(s').full ==> s'.queued == 0 && s'.bufs[s'.inn].done)
  {
    ReleaseRing(s);
    hide Whole, Slice, Flags;
    var s' := Release(s);
    assert 0 < s.queued <= |s.bufs|;
    hide Ring;
    UnreadHead(s.bufs, s.out, s.queued);
    UnreadFrame(s.bufs, s'.bufs, s'.out, s'.queued);
    assert Out(s).data[s.size..] == [];
    assert Unread(s.bufs, s.out, s.queued) == Unread(s'.bufs, s'.out, s'.queued);
  }

  lemma WaitInv(s: State, want: nat)
    requires Sized(s) && Ring(s) && Conserved(s) && s.phase.Calling? && want > 0
    requires !Out(s).full && s.queued == 0 && s.bufs[s.inn].done
    ensures Inv(s.(phase := Waiting(want)))
  {
    hide Whole, Unread;
  }

  lemma GetInv(s: State)
    requires Inv(s) && s.phase.Calling?
    ensures Inv(GetBuffer(s, s.phase.want))
  {
    var want := s.phase.want;
    assert Dist(s.out, s.out, |s.bufs|) == 0;
    if Out(s).full && Out(s).spot == s.size {
      assert s.(phase := Calling(want)) == s;
      ReleaseInv(s);
      var s1 := Release(s);
      if Out(s1).full {
        HandInv(s1, want);
      } else {
        WaitInv(s1, want);
      }
    } else if Out(s).full {
      HandInv(s, want);
    } else {
      WaitInv(s, want);
    }
  }

  lemma WakeInv(s: State)
    requires Inv(s) && Step(s, Wake).Some?
    ensures Inv(Step(s, Wake).value)
  {
    hide Whole, Unread;
    assert Dist(s.out, s.out, |s.bufs|) == 0;
    if Out(s).full {
      HandInv(s, s.phase.want);
    }
  }

  lemma GetStepInv(s: State)
    requires Inv(s) && Step(s, Get).Some?
    ensures Inv(Step(s, Get).value)
  {
    GetInv(s);
    hide GetBuffer, Unread, Whole;
  }

  lemma StopInv(s: State, a: Action)
    requires Inv(s) && Step(s, a).Some? && (a.Fail? || a.Quit?)
    ensures Inv(Step(s, a).value)
  {
    hide Unread, Whole, Dist, Plus, BufSized;
  }

  /** Every step of either thread keeps the invariant. */
  lemma StepInv(s: State, a: Action)
    requires Inv(s) && Step(s, a).Some?
    ensures Inv(Step(s, a).value)
  {
    hide Inv, Step, Sized;
    match a
    case Read(bytes) => ReadInv(s, bytes);
    case Fail => StopInv(s, a);
    case Done => DoneInv(s, a);
    case Call(want) => DoneInv(s, a);
    case Get => GetStepInv(s);
    case Wake => WakeInv(s);
    case Quit => StopInv(s, a);
  }

  // ---- whole runs ----

  /** A ring as tlm_allocate_buffers makes it for a restore, of any number of buffers; the repository sets one. */
  predicate Initial(s: State) {
    && Sized(s) && s.inn == s.out == s.queued == 0 && s.phase == Using(0) && !s.stop && s.got == s.handed == []
    && forall i :: 0 <= i < |s.bufs| ==> s.bufs[i].bsize == 0 && !s.bufs[i].full && s.bufs[i].done
  }

  /** The state after the steps, None when one of them cannot be taken. */
  function Exec(s: State, acts: seq<Action>): (r: Option<State>)
    requires Sized(s)
    ensures r.Some? ==> Sized(r.value)
    decreases |acts|
  {
    if acts == [] then Some(s) else
      var r := Step(s, acts[0]);
      if r.None? then None else (StepSized(s, acts[0]); Exec(r.value, acts[1..]))
  }

  lemma InitialInv(s: State)
    requires Initial(s)
    ensures Inv(s)
  {
  }

  lemma {:induction false} ExecInv(s: State, acts: seq<Action>)
    requires Inv(s) && Exec(s, acts).Some?
    ensures Inv(Exec(s, acts).value)
    decreases |acts|
  {
    if acts != [] {
      StepInv(s, acts[0]);
      ExecInv(Step(s, acts[0]).value, acts[1..]);
    }
  }

  /**
   * Every reachable state, retries and stops included: the bytes handed to the parser, then the unread tails of
   * the full buffers oldest first, are the bytes read from the connection; the slice in use ends the handed bytes
   * and lies in a full buffer.
   */
  lemma RestoreConserves(s0: State, acts: seq<Action>)
    requires Initial(s0) && Exec(s0, acts).Some?
    ensures var s := Exec(s0, acts).value;
      && Inv(s) && s.queued <= |s.bufs| && s.handed + Unread(s.bufs, s.out, s.queued) == s.got
      && (s.phase.Using? && s.phase.held > 0 ==> Out(s).full && s.handed[|s.handed| - s.phase.held..] == Held(s))
  {
    InitialInv(s0);
    ExecInv(s0, acts);
  }

  /** In every reachable state the reader fills a buffer whose last byte has been handed out, never the one in use. */
  lemma NoEarlyRefill(s0: State, acts: seq<Action>, bytes: seq<byte>)
    requires Initial(s0) && Exec(s0, acts).Some? && Step(Exec(s0, acts).value, Read(bytes)).Some?
    ensures var s := Exec(s0, acts).value; var s' := Step(s, Read(bytes)).value;
      && s.bufs[s.inn].spot == s.bufs[s.inn].bsize && s.bufs[s.inn].done && Held(s') == Held(s)
      && (s.phase.Using? && s.phase.held > 0 ==> s.inn != s.out && Out(s') == Out(s))
  {
    InitialInv(s0);
    ExecInv(s0, acts);
    var s := Exec(s0, acts).value;
    hide Exec;
    assert s.phase.Using? && s.phase.held == 0 ==> Held(s) == [];
  }

  /** Whenever the consumer waits and nothing is full, the reader can read, unless it has been told to stop. */
  lemma ReaderNeverStuck(s0: State, acts: seq<Action>, bytes: seq<byte>)
    requires Initial(s0) && Exec(s0, acts).Some?
    ensures var s := Exec(s0, acts).value;
      s.phase.Waiting? && s.queued == 0 && !s.stop && |bytes| == s.size ==> Step(s, Read(bytes)).Some?
  {
    InitialInv(s0);
    ExecInv(s0, acts);
    var s := Exec(s0, acts).value;
    hide Exec;
    assert Dist(s.out, s.inn, |s.bufs|) >= 0;
  }

  /** With one buffer the reader can fail only when all it has read has been handed out: a stop loses nothing. */
  lemma StopLosesNothing(s0: State, acts: seq<Action>)
    requires Initial(s0) && Exec(s0, acts).Some?
    ensures var s := Exec(s0, acts).value; |s.bufs| == 1 && Step(s, Fail).Some? ==> s.handed == s.got
  {
    InitialInv(s0);
    ExecInv(s0, acts);
    var s := Exec(s0, acts).value;
    hide Exec;
    assert Dist(s.out, s.out, |s.bufs|) == 0;
  }

  /** With more than one buffer a stop can come while a whole buffer is unread, and it stays unread. */
  lemma MoreBuffersLose(s0: State, bytes: seq<byte>, want: nat)
    requires Initial(s0) && |s0.bufs| >= 2 && |bytes| == s0.size && want > 0
    ensures var r := Exec(s0, [Read(bytes), Fail, Call(want), Get]);
            r.Some? && r.value.phase.Ended? && r.value.got == bytes && r.value.handed == []
  {
    var s1 := Step(s0, Read(bytes)).value;
    StepSized(s0, Read(bytes));
    var s2 := Step(s1, Fail).value;
    StepSized(s1, Fail);
    var s3 := Step(s2, Call(want)).value;
    StepSized(s2, Call(want));
    var s4 := Step(s3, Get).value;
    StepSized(s3, Get);
    hide Step, Sized;
    ExecCons(s3, Get, []);
    ExecCons(s2, Call(want), [Get]);
    ExecCons(s1, Fail, [Call(want), Get]);
    ExecCons(s0, Read(bytes), [Fail, Call(want), Get]);
    assert [Call(want)] + [Get] == [Call(want), Get] && [Fail] + [Call(want), Get] == [Fail, Call(want), Get];
    assert [Read(bytes)] + [Fail, Call(want), Get] == [Read(bytes), Fail, Call(want), Get] && [Get] + [] == [Get];
  }

  /** A run after which the consumer has ended without some of the bytes read. */
  predicate Loses(s0: State, acts: seq<Action>)
    requires Sized(s0)
  {
    var r := Exec(s0, acts);
    r.Some? && r.value.phase.Ended? && r.value.handed != r.value.got
  }

  /** Once it has been told to stop, the consumer of a one-buffer ring has been handed all there is. */
  predicate AllHanded(s: State) {
    Inv(s) && |s.bufs| == 1 && (s.stop || s.phase.Ended? ==> s.stop && s.handed == s.got)
  }

  lemma AllHandedStep(s: State, a: Action)
    requires AllHanded(s) && Step(s, a).Some?
    ensures AllHanded(Step(s, a).value)
  {
    StepInv(s, a);
    var t := Step(s, a).value;
    assert |t.handed| >= |s.handed|;
    assert Dist(s.out, s.out, 1) == 0 && (s.queued == 0 ==> Unread(s.bufs, s.out, s.queued) == []);
    assert s.stop ==> t.stop && t.got == s.got;
  }

  lemma {:induction false} AllHandedRun(s: State, acts: seq<Action>)
    requires AllHanded(s) && Exec(s, acts).Some?
    ensures AllHanded(Exec(s, acts).value)
    decreases |acts|
  {
    hide Ring, Slice, Flags, Conserved;
    if acts != [] {
      AllHandedStep(s, acts[0]);
      AllHandedRun(Step(s, acts[0]).value, acts[1..]);
    }
  }

  /** With one buffer, a consumer that has ended has been handed all the bytes read. */
  lemma EndedHasAll(s0: State, acts: seq<Action>)
    requires Initial(s0) && |s0.bufs| == 1 && Exec(s0, acts).Some? && Exec(s0, acts).value.phase.Ended?
    ensures Exec(s0, acts).value.handed == Exec(s0, acts).value.got
  {
    InitialInv(s0);
    AllHandedRun(s0, acts);
  }

  /** Some run loses bytes exactly when the ring has more than one buffer. */
  lemma LosesIff(s0: State)
    requires Initial(s0)
    ensures (exists acts :: Loses(s0, acts)) <==> |s0.bufs| >= 2
  {
    if |s0.bufs| >= 2 {
      var bytes := seq(s0.size, i => 0);
      MoreBuffersLose(s0, bytes, 1);
      assert Loses(s0, [Read(bytes), Fail, Call(1), Get]);
    } else {
      InitialInv(s0);
      forall acts ensures !Loses(s0, acts) {
        if Exec(s0, acts).Some? {
          AllHandedRun(s0, acts);
        }
      }
    }
  }

  lemma ExecCons(s: State, a: Action, acts: seq<Action>)
    requires Sized(s) && Step(s, a).Some? && Sized(Step(s, a).value)
    ensures Exec(s, [a] + acts) == Exec(Step(s, a).value, acts)
  {
    assert ([a] + acts)[1..] == acts;
  }
}
