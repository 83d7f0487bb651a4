/** The backup threads around the shared ring of buffers: every interleaving of producer and writer steps. */
module BackupPipeline {
  import opened Bytes

  /** One buffer of the ring: its bytes, tb_buffer_spot, tb_full and tb_write_buf_filled. */
  datatype Buf = Buf(data: seq<byte>, spot: nat, full: bool, filled: bool)

  /**
   * Where the producer stands. Idle holds the last bytes handed out, which it may still write to;
   * Calling is inside get_write_buffer before the call proper; Waiting is at the wait for a free buffer;
   * Retrying is between a failed call and the next one; Ended is after the traversal.
   */
  datatype Phase = Idle(held: nat) | Calling | Waiting(want: nat) | Retrying(want: nat) | Ended(eof: bool)

  /**
   * size is the transfer size, that of every buffer;
   * inn, out, offset and stop are tbs_buffer_in, tbs_buffer_out, tbs_offset and tc_writer.
   * sent is what the connection was given; released is what the producer has finished writing, in order;
   * queued counts the buffers marked full and not yet sent.
   */
  datatype State = State(size: nat, bufs: seq<Buf>, inn: nat, out: nat, offset: nat, phase: Phase, stop: bool,
      exited: bool,
                         sent: seq<byte>, released: seq<byte>, queued: nat)

  datatype Action =
    | Write(bytes: seq<byte>)   // producer: write to the piece it holds
    | Flush                     // producer: setWriteBufDone after writing
    | Call                      // producer: get_write_buffer begins with setWriteBufDone
    | Get(want: nat)            // producer: tlm_get_write_buffer up to its wait
    | Wake                      // producer: the wait is over
    | Retry                     // producer: tlm_get_write_buffer again after it gave nothing
    | Eof                       // producer: write_tar_eof
    | GiveUp                    // producer: the traversal failed
    | Stop                      // producer: tc_writer is set
    | Send                      // writer: a full buffer goes to the connection
    | Exit                      // writer: nothing to send and told to stop

  function Next(i: nat, n: nat): nat {
    if i + 1 >= n then 0 else i + 1
  }

  predicate BufSized(b: Buf, size: nat) {
    |b.data| == size && b.spot <= size && Whole(b.spot)
  }

  predicate Sized(s: State) {
    && 0 < s.size && Whole(s.size) && s.inn < |s.bufs| && s.out < |s.bufs|
    && (forall i :: 0 <= i < |s.bufs| ==> BufSized(s.bufs[i], s.size))
    && (s.phase.Idle? ==> s.phase.held <= s.bufs[s.inn].spot)
    && (s.phase.Waiting? || s.phase.Retrying? ==> s.phase.want > 0)
  }

  function In(s: State): Buf
    requires Sized(s)
  {
    s.bufs[s.inn]
  }

  /** The bytes the producer holds. */
  function Held(s: State): seq<byte>
    requires Sized(s)
  {
    if s.phase.Idle? then In(s).data[In(s).spot - s.phase.held..In(s).spot] else []
  }

  /** setWriteBufDone: the flag of the buffer at the output index. */
  function SetDone(s: State): State
    requires Sized(s)
  {
    s.(bufs := s.bufs[s.out := s.bufs[s.out].(filled := true)])
  }

  /** The rest of tlm_get_write_buffer once there is room: the next piece is handed out. */
  function Take(s: State, want: nat): State
    requires Sized(s) && want > 0 && In(s).spot < s.size
  {
    var b := In(s);
    WholeArith(s.size, b.spot);
    var n := Piece(want, s.size - b.spot);
    s.(bufs := s.bufs[s.inn := b.(spot := b.spot + n)], offset := s.offset + n, phase := Idle(n))
  }

  /** A buffer that is free is taken from its start. */
  function Fresh(s: State, want: nat): State
    requires Sized(s) && want > 0
  {
    Take(s.(bufs := s.bufs[s.inn := In(s).(spot := 0)], phase := Calling), want)
  }

  function MarkFull(s: State): State
    requires Sized(s)
  {
    s.(bufs := s.bufs[s.inn := In(s).(full := true)], inn := Next(s.inn, |s.bufs|), queued := s.queued + 1,
        phase := Calling)
  }

  /** tlm_get_write_buffer, up to its wait. */
  function GetBuffer(s: State, want: nat): State
    requires Sized(s) && want > 0
  {
    if s.size - In(s).spot > 0 then Take(s.(phase := Calling), want)
    else
      var s1 := if In(s).full then s.(phase := Calling) else MarkFull(s);
      if In(s1).full then s1.(phase := Waiting(want)) else Fresh(s1, want)
  }

  /** One step of either thread, None when it cannot be taken. */
  function Step(s: State, a: Action): Option<State>
    requires Sized(s)
  {
    match a
    case Write(bytes) =>
      if !s.phase.Idle? || |bytes| != s.phase.held then None else
        var b := In(s);
        Some(s.(bufs := s.bufs[s.inn := b.(data := b.data[..b.spot - |bytes|] + bytes + b.data[b.spot..])]))
    case Flush =>
      if !s.phase.Idle? then None else Some(SetDone(s.(released := s.released + Held(s), phase := Idle(0))))
    case Call =>
      if !s.phase.Idle? then None else Some(SetDone(s.(released := s.released + Held(s), phase := Calling)))
    case Get(want) =>
      if !s.phase.Calling? || want == 0 then None else Some(GetBuffer(s, want))
    case Wake =>
      if !s.phase.Waiting? then None
      else if In(s).full then Some(s.(phase := Retrying(s.phase.want)))
      else Some(Fresh(s, s.phase.want))
    case Retry =>
      if !s.phase.Retrying? then None else Some(GetBuffer(s, s.phase.want))
    case Eof =>
      if !s.phase.Idle? then None else
        Some(s.(released := s.released + Held(s), phase := Ended(true), queued := s.queued + 1,
                bufs := s.bufs[s.inn := In(s).(filled := true, full := true)]))
    case GiveUp =>
      if !s.phase.Idle? then None else Some(s.(released := s.released + Held(s), phase := Ended(false)))
    case Stop =>
      if !s.phase.Ended? || s.stop then None else Some(s.(stop := true))
    case Send =>
      var b := s.bufs[s.out];
      if s.exited || !b.full || !b.filled then None else
        Some(s.(sent := s.sent + b.data, bufs := s.bufs[s.out := b.(full := false, filled := false)],
                out := Next(s.out, |s.bufs|), queued := if s.queued > 0 then s.queued - 1 else 0))
    case Exit =>
      if s.exited || s.bufs[s.out].full || !s.stop then None else Some(s.(exited := true))
  }

  lemma TakeSized(s: State, want: nat)
    requires Sized(s) && want > 0 && In(s).spot < s.size
    ensures Sized(Take(s, want))
  {
    var b := In(s);
    WholeArith(s.size, b.spot);
    WholeArith(b.spot, Piece(want, s.size - b.spot));
    hide Whole, Piece;
  }

  lemma GetSized(s: State, want: nat)
    requires Sized(s) && want > 0
    ensures Sized(GetBuffer(s, want))
    ensures !In(s).full ==> Sized(Fresh(s, want))
  {
    hide Take;
    if s.size - In(s).spot > 0 {
      TakeSized(s.(phase := Calling), want);
    }
    var s1 := if In(s).full then s.(phase := Calling) else MarkFull(s);
    TakeSized(s1.(bufs := s1.bufs[s1.inn := In(s1).(spot := 0)], phase := Calling), want);
    TakeSized(s.(bufs := s.bufs[s.inn := In(s).(spot := 0)], phase := Calling), want);
  }

  lemma StepSized(s: State, a: Action)
    requires Sized(s) && Step(s, a).Some?
    ensures Sized(Step(s, a).value)
  {
    hide Whole, GetBuffer, Fresh;
    if a.Get? {
      GetSized(s, a.want);
    } else if a.Wake? || a.Retry? {
      GetSized(s, s.phase.want);
    }
  }

  // ---- what every run keeps ----

  /** How many places index i is behind the output index. */
  function Dist(out: nat, i: nat, n: nat): int {
    if i >= out then i - out else i - out + n
  }

  /** The index k places behind the output index. */
  function Plus(out: nat, k: nat, n: nat): int {
    if out + k < n then out + k else out + k - n
  }

  /** The bytes of the k buffers from the output index on, oldest first. */
  function Fulls(bufs: seq<Buf>, out: nat, k: nat): seq<byte>
    requires out < |bufs| && k <= |bufs|
  {
    if k == 0 then [] else Fulls(bufs, out, k - 1) + bufs[Plus(out, k - 1, |bufs|)].data
  }

  /** The finished part of the buffer at the input index. */
  function Filling(s: State): seq<byte>
    requires Sized(s)
  {
    if s.phase.Idle? then In(s).data[..In(s).spot - s.phase.held]
    else if s.phase.Calling? || s.phase == Ended(false) then In(s).data[..In(s).spot]
    else []
  }

  /** Everything sent and everything finished and on its way. */
  function Carried(s: State): seq<byte>
    requires Sized(s) && s.queued <= |s.bufs|
  {
    s.sent + Fulls(s.bufs, s.out, s.queued) + Filling(s)
  }

  /** The full buffers are the queued ones, and the producer works on the one behind them. */
  predicate Ring(s: State)
    requires Sized(s)
  {
    && s.queued <= |s.bufs|
    && (forall i :: 0 <= i < |s.bufs| ==> (s.bufs[i].full <==> Dist(s.out, i, |s.bufs|) < s.queued))
    && (s.phase != Ended(true) ==> forall i :: 0 <= i < |s.bufs| && s.bufs[i].full ==> s.bufs[i].spot == s.size)
    && (s.phase != Ended(true) ==> s.inn == Plus(s.out, s.queued, |s.bufs|))
    && (s.phase.Idle? || s.phase.Calling? || s.phase == Ended(false) ==> s.queued < |s.bufs|)
    && (s.phase.Waiting? || s.phase.Retrying? ==> In(s).spot == s.size)
  }

  /** A full ring is never left without its flag while the producer waits for it. */
  predicate Flags(s: State)
    requires Sized(s)
  {
    && (s.phase.Calling? && s.queued == |s.bufs| - 1 ==> s.bufs[s.out].filled)
    && ((s.phase.Waiting? || s.phase.Retrying?) && s.queued == |s.bufs| ==> s.bufs[s.out].filled)
    && (|s.bufs| == 1 && (s.phase.Waiting? || s.phase.Retrying?) ==> s.bufs[0].full == s.bufs[0].filled)
    && LoneFlag(s)
  }

  predicate LoneFlag(s: State)
    requires Sized(s)
  {
    |s.bufs| == 1 && s.bufs[0].full ==> s.bufs[0].filled
  }

  predicate Control(s: State) {
    && (s.stop ==> s.phase.Ended?)
    && (s.exited ==> s.stop && s.queued == 0)
    && s.offset == |s.released| + if s.phase.Idle? then s.phase.held else 0
  }

  /** Nothing is lost, repeated or reordered; after write_tar_eof the last buffer may have a tail. */
  predicate Conserved(s: State)
    requires Sized(s) && s.queued <= |s.bufs|
  {
    if s.phase == Ended(true) then s.released <= Carried(s) && |Carried(s)| <= s.offset + s.size
    else Carried(s) == s.released
  }

  predicate Inv(s: State) {
    Sized(s) && Ring(s) && Flags(s) && Control(s) && Conserved(s)
  }

  lemma {:induction false} FullsFrame(b1: seq<Buf>, b2: seq<Buf>, out: nat, k: nat)
    requires |b1| == |b2| && out < |b1| && k <= |b1|
    requires forall i :: 0 <= i < |b1| && Dist(out, i, |b1|) < k ==> b1[i].data == b2[i].data
    ensures Fulls(b1, out, k) == Fulls(b2, out, k)
  {
    if k > 0 {
      assert Dist(out, Plus(out, k - 1, |b1|), |b1|) == k - 1;
      FullsFrame(b1, b2, out, k - 1);
    }
  }

  lemma {:induction false} FullsHead(bufs: seq<Buf>, out: nat, k: nat)
    requires out < |bufs| && 0 < k <= |bufs|
    ensures Fulls(bufs, out, k) == bufs[out].data + Fulls(bufs, Next(out, |bufs|), k - 1)
  {
    if k > 1 {
      FullsHead(bufs, out, k - 1);
      assert Plus(out, k - 1, |bufs|) == Plus(Next(out, |bufs|), k - 2, |bufs|);
      calc {
        Fulls(bufs, out, k);
        bufs[out].data + Fulls(bufs, Next(out, |bufs|), k - 2) + bufs[Plus(out, k - 1, |bufs|)].data;
        bufs[out].data + Fulls(bufs, Next(out, |bufs|), k - 1);
      }
    }
  }

  lemma WriteInv(s: State, bytes: seq<byte>)
    requires Inv(s) && Step(s, Write(bytes)).Some?
    ensures Inv(Step(s, Write(bytes)).value)
  {
    var s' := Step(s, Write(bytes)).value;
    FullsFrame(s.bufs, s'.bufs, s.out, s.queued);
    assert Filling(s') == Filling(s);
  }

  /** Releasing the held piece moves it to the finished part. */
  lemma ReleaseInv(s: State, phase: Phase)
    requires Inv(s) && s.phase.Idle? && phase in {Idle(0), Calling, Ended(false)}
    ensures var s' := s.(released := s.released + Held(s), phase := phase);
            Sized(s') && Ring(s') && Control(s') && Conserved(s')
  {
    var s' := s.(released := s.released + Held(s), phase := phase);
    assert Filling(s') == Filling(s) + Held(s);
    assert Carried(s') == Carried(s) + Held(s);
  }

  lemma DoneInv(s: State)
    requires Sized(s) && Ring(s) && Control(s) && Conserved(s) && (s.phase.Idle? || s.phase.Calling?)
    ensures Inv(SetDone(s))
  {
    FullsFrame(s.bufs, SetDone(s).bufs, s.out, s.queued);
  }

  lemma GiveUpInv(s: State)
    requires Inv(s) && Step(s, GiveUp).Some?
    ensures Inv(Step(s, GiveUp).value)
  {
    ReleaseInv(s, Ended(false));
  }

  /** The piece handed out joins what the producer holds; the finished part stays. */
  lemma TakeInv(s: State, want: nat)
    requires Sized(s) && Ring(s) && LoneFlag(s) && Control(s) && Conserved(s)
    requires s.phase.Calling? && In(s).spot < s.size && want > 0
    ensures Inv(Take(s, want))
  {
    var s' := Take(s, want);
    TakeSized(s, want);
    FullsFrame(s.bufs, s'.bufs, s.out, s.queued);
    assert Filling(s') == Filling(s);
  }

  /** A free buffer is taken from its start: nothing of its old bytes is carried. */
  lemma FreshInv(s: State, want: nat)
    requires Sized(s) && Ring(s) && LoneFlag(s) && Control(s) && want > 0
    requires s.queued < |s.bufs| && !s.phase.Idle? && !s.phase.Ended?
    requires s.sent + Fulls(s.bufs, s.out, s.queued) == s.released
    ensures Inv(Fresh(s, want))
  {
    var s1 := s.(bufs := s.bufs[s.inn := In(s).(spot := 0)], phase := Calling);
    FullsFrame(s.bufs, s1.bufs, s.out, s.queued);
    assert Filling(s1) == [];
    TakeInv(s1, want);
  }

  lemma MarkedInv(s: State)
    requires Inv(s) && s.phase.Calling? && In(s).spot == s.size
    ensures var s1 := MarkFull(s);
            && Sized(s1) && !In(s).full && s1.queued <= |s.bufs| && s1.inn == Plus(s1.out, s1.queued, |s.bufs|)
            && (forall i :: 0 <= i < |s.bufs| ==> (s1.bufs[i].full <==> Dist(s1.out, i, |s.bufs|) < s1.queued))
            && (forall i :: 0 <= i < |s.bufs| && s1.bufs[i].full ==> s1.bufs[i].spot == s.size)
            && (s1.queued == |s.bufs| ==> s1.bufs[s1.out].filled)
            && s1.sent + Fulls(s1.bufs, s1.out, s1.queued) == s1.released
  {
    var s1 := MarkFull(s);
    FullsFrame(s.bufs, s1.bufs, s.out, s.queued);
    assert Filling(s) == In(s).data == s1.bufs[s.inn].data;
    assert s.sent + Fulls(s.bufs, s.out, s.queued) + In(s).data
        == s.sent + (Fulls(s.bufs, s.out, s.queued) + In(s).data);
  }

  /** The full buffer is passed on and the next one is taken, or waited for. */
  lemma GetInv(s: State, want: nat)
    requires Inv(s) && s.phase.Calling? && want > 0
    ensures Inv(GetBuffer(s, want))
  {
    if s.size - In(s).spot > 0 {
      TakeInv(s, want);
    } else {
      MarkedInv(s);
      var s1 := MarkFull(s);
      if !In(s1).full {
        FreshInv(s1, want);
      }
    }
  }


  lemma WakeInv(s: State)
    requires Inv(s) && s.phase.Waiting?
    ensures Inv(Step(s, Wake).value)
  {
    if !In(s).full {
      assert s.sent + Fulls(s.bufs, s.out, s.queued) == Carried(s);
      FreshInv(s, s.phase.want);
    }
  }

  /** A buffer marked full again counts its bytes a second time. */
  lemma MarkedTwice(s: State)
    requires Inv(s) && s.phase.Retrying? && !In(s).full
    ensures var s' := Step(s, Retry).value;
            && Sized(s') && s'.queued == s.queued + 1 <= |s.bufs|
            && |Carried(s')| == |s.released| + s.size && s'.released == s.released
  {
    hide Flags, LoneFlag, Whole, Piece;
    assert s.queued < |s.bufs| && s.inn == Plus(s.out, s.queued, |s.bufs|) && In(s).spot == s.size;
    hide Ring, GetBuffer;
    Remarked(s);
    RemarkKeeps(s, s.phase.want);
  }

  /** What handing out never touches. */
  predicate Kept(s: State, s': State) {
    && s'.sent == s.sent && s'.out == s.out && s'.released == s.released && |s'.bufs| == |s.bufs|
    && forall i :: 0 <= i < |s.bufs| ==> s'.bufs[i].data == s.bufs[i].data
  }

  lemma TakeKeeps(s: State, want: nat)
    requires Sized(s) && want > 0 && In(s).spot < s.size
    ensures Kept(s, Take(s, want)) && Take(s, want).queued == s.queued
    ensures Sized(Take(s, want)) && Filling(Take(s, want)) == In(s).data[..In(s).spot]
  {
    TakeSized(s, want);
    hide Whole, Piece;
  }

  lemma RemarkKeeps(s: State, want: nat)
    requires Sized(s) && want > 0 && In(s).spot == s.size && !In(s).full
    ensures var s' := GetBuffer(s, want); Kept(s, s') && s'.queued == s.queued + 1 && Sized(s') && Filling(s') == []
  {
    GetSized(s, want);
    hide Whole, Take;
    var s1 := MarkFull(s);
    if !In(s1).full {
      TakeKeeps(s1.(bufs := s1.bufs[s1.inn := In(s1).(spot := 0)], phase := Calling), want);
    }
  }

  lemma Remarked(s: State)
    requires Sized(s) && s.queued < |s.bufs| && s.inn == Plus(s.out, s.queued, |s.bufs|) && In(s).spot == s.size
    requires s.phase.Retrying? && Conserved(s) && !In(s).full
    ensures var s' := GetBuffer(s, s.phase.want);
      Sized(s') && s'.queued == s.queued + 1 && |Carried(s')| == |s.released| + s.size
  {
    RemarkKeeps(s, s.phase.want);
    hide Whole, GetBuffer, LoneFlag;
    FullsFrame(s.bufs, GetBuffer(s, s.phase.want).bufs, s.out, s.queued + 1);
    assert |Carried(s)| == |s.sent| + |Fulls(s.bufs, s.out, s.queued)|;
  }

  /** A retry is harmless exactly when the buffer it retries for is still full; else sent bytes are queued again. */
  lemma RetryKeepsIff(s: State)
    requires Inv(s) && s.phase.Retrying?
    ensures Inv(Step(s, Retry).value) <==> In(s).full
  {
    if !In(s).full {
      MarkedTwice(s);
    }
  }

  /** What write_tar_eof changes: the last buffer joins the full ones behind the others. */
  lemma EofShape(s: State)
    requires Inv(s) && s.phase.Idle?
    ensures s.queued < |s.bufs| && s.out < |s.bufs| && s.inn == Plus(s.out, s.queued, |s.bufs|)
    ensures Step(s, Eof).Some?
    ensures var s' := Step(s, Eof).value;
      && Kept(s.(released := s.released + Held(s)), s') && Sized(s') && s'.queued == s.queued + 1 && s'.size == s.size
      && s'.phase == Ended(true) && s'.offset == |s'.released|
  {
    hide Flags, LoneFlag, Conserved, Dist, Whole;
  }

  lemma EofFulls(s: State)
    requires Inv(s) && s.phase.Idle?
    ensures Step(s, Eof).Some? && s.out < |s.bufs| && s.queued < |s.bufs|
    ensures var s' := Step(s, Eof).value;
            && Sized(s') && |s'.bufs| == |s.bufs|
            && Fulls(s'.bufs, s.out, s.queued + 1) == Fulls(s.bufs, s.out, s.queued) + In(s).data
  {
    hide LoneFlag, Flags, Whole, Step, Ring, Control, Sized, Conserved;
    EofShape(s);
    var s' := Step(s, Eof).value;
    FullsFrame(s.bufs, s'.bufs, s.out, s.queued);
  }

  /** The whole last buffer is on its way: what was released and the tail that was never handed out. */
  lemma EofCarried(s: State)
    requires Inv(s) && s.phase.Idle?
    ensures Step(s, Eof).Some?
    ensures var s' := Step(s, Eof).value;
            Sized(s') && s'.queued <= |s'.bufs| && Carried(s') == s'.released + In(s).data[In(s).spot..]
  {
    hide LoneFlag, Flags, Whole, Step, Ring, Control, Sized, Fulls, Plus;
    EofShape(s);
    EofFulls(s);
    InSized(s);
    LastBuffer(s.released, s.sent, Fulls(s.bufs, s.out, s.queued), In(s).data, In(s).spot - s.phase.held, In(s).spot);
  }

  lemma EofContent(s: State)
    requires Inv(s) && s.phase.Idle?
    ensures Conserved(Step(s, Eof).value)
  {
    hide LoneFlag, Flags, Whole, Step, Ring, Control, Sized, Carried;
    EofShape(s);
    EofCarried(s);
    InSized(s);
  }

  lemma InSized(s: State)
    requires Sized(s) && s.phase.Idle?
    ensures |In(s).data| == s.size && s.phase.held <= In(s).spot <= s.size
  {
  }

  /** The last buffer in its three parts: finished, held, and the tail that was never handed out. */
  lemma LastBuffer<T>(released: seq<T>, sent: seq<T>, fulls: seq<T>, d: seq<T>, i: nat, j: nat)
    requires i <= j <= |d| && sent + fulls + d[..i] == released
    ensures sent + (fulls + d) + [] == released + d[i..j] + d[j..]
  {
  }

  lemma EofInv(s: State)
    requires Inv(s) && s.phase.Idle?
    ensures Inv(Step(s, Eof).value)
  {
    EofContent(s);
    hide Conserved, Whole;
  }

  lemma SendContent(s: State)
    requires Inv(s) && Step(s, Send).Some?
    ensures var s' := Step(s, Send).value;
            Sized(s') && s'.queued == s.queued - 1 && Filling(s') == Filling(s) && Carried(s') == Carried(s)
  {
    hide LoneFlag, Flags, Control, Whole, Conserved;
    var s' := Step(s, Send).value;
    assert Dist(s.out, s.out, |s.bufs|) == 0;
    assert 0 < s.queued <= |s.bufs|;
    hide Ring;
    FullsHead(s.bufs, s.out, s.queued);
    FullsFrame(s.bufs, s'.bufs, s'.out, s'.queued);
    hide Fulls;
    Shift(s.sent, s.bufs[s.out].data, Fulls(s'.bufs, s'.out, s'.queued), Filling(s));
    assert Filling(s') == Filling(s);
  }

  lemma Shift<T>(sent: seq<T>, oldest: seq<T>, rest: seq<T>, filling: seq<T>)
    ensures sent + (oldest + rest) + filling == (sent + oldest) + rest + filling
  {
  }

  lemma SendRing(s: State)
    requires Inv(s) && Step(s, Send).Some?
    ensures var s' := Step(s, Send).value; Sized(s') && Ring(s')
  {
    hide Conserved, Control, Flags, Whole;
    StepSized(s, Send);
    hide BufSized;
  }

  lemma SendFlags(s: State)
    requires Inv(s) && Step(s, Send).Some?
    ensures var s' := Step(s, Send).value; Sized(s') && Flags(s')
  {
    hide Conserved, Control, Whole;
    StepSized(s, Send);
    hide BufSized;
  }

  /** The oldest full buffer moves from the ring to the connection. */
  lemma SendInv(s: State)
    requires Inv(s) && Step(s, Send).Some?
    ensures Inv(Step(s, Send).value)
  {
    SendContent(s);
    SendRing(s);
    SendFlags(s);
    hide Carried, Whole, Sized, Ring, Flags, LoneFlag, Dist, Plus;
  }

  lemma ExitInv(s: State)
    requires Inv(s) && Step(s, Exit).Some?
    ensures Inv(Step(s, Exit).value)
  {
    assert Dist(s.out, s.out, |s.bufs|) == 0;
  }

  /** Every step but an untimely retry keeps the invariant. */
  lemma StepInv(s: State, a: Action)
    requires Inv(s) && Step(s, a).Some? && (a.Retry? ==> In(s).full)
    ensures Inv(Step(s, a).value)
  {
    hide Inv, Step, Sized;
    match a
    case Write(bytes) => WriteInv(s, bytes);
    case Flush => FlushInv(s, a);
    case Call => FlushInv(s, a);
    case Get(want) => GetStepInv(s, want);
    case Wake => WakeStep(s);
    case Retry => RetryStep(s);
    case Eof => EofStep(s);
    case GiveUp => GiveUpInv(s);
    case Stop => StopInv(s);
    case Send => SendInv(s);
    case Exit => ExitInv(s);
  }

  lemma FlushInv(s: State, a: Action)
    requires Inv(s) && (a.Flush? || a.Call?) && Step(s, a).Some?
    ensures Inv(Step(s, a).value)
  {
    var phase := if a.Flush? then Idle(0) else Calling;
    ReleaseInv(s, phase);
    DoneInv(s.(released := s.released + Held(s), phase := phase));
  }

  lemma GetStepInv(s: State, want: nat)
    requires Inv(s) && Step(s, Get(want)).Some?
    ensures Inv(Step(s, Get(want)).value)
  {
    GetInv(s, want);
    hide Ring, Flags, Control, Conserved, GetBuffer;
  }

  lemma WakeStep(s: State)
    requires Inv(s) && Step(s, Wake).Some?
    ensures Inv(Step(s, Wake).value)
  {
    WakeInv(s);
  }

  lemma RetryStep(s: State)
    requires Inv(s) && Step(s, Retry).Some? && In(s).full
    ensures Inv(Step(s, Retry).value)
  {
    RetryKeepsIff(s);
  }

  lemma EofStep(s: State)
    requires Inv(s) && Step(s, Eof).Some?
    ensures Inv(Step(s, Eof).value)
  {
    EofInv(s);
  }

  lemma StopInv(s: State)
    requires Inv(s) && Step(s, Stop).Some?
    ensures Inv(Step(s, Stop).value)
  {
  }

  // ---- whole runs ----

  /** A ring as tlm_allocate_buffers makes it, of any number of buffers; the repository sets one. */
  predicate Initial(s: State) {
    && Sized(s) && s.inn == s.out == s.offset == s.queued == 0 && s.phase == Idle(0) && !s.stop && !s.exited
    && s.sent == s.released == []
    && forall i :: 0 <= i < |s.bufs| ==> s.bufs[i].spot == 0 && !s.bufs[i].full && s.bufs[i].filled
  }

  /** Whether the steps can be taken one after the other, no retry finding its buffer drained meanwhile. */
  predicate Clean(s: State, acts: seq<Action>)
    requires Sized(s)
    decreases |acts|
  {
    acts == [] ||
      var r := Step(s, acts[0]);
      r.Some? && (acts[0].Retry? ==> In(s).full) && (StepSized(s, acts[0]); Clean(r.value, acts[1..]))
  }

  /** The state after the steps that can be taken. */
  function Exec(s: State, acts: seq<Action>): (r: State)
    requires Sized(s)
    ensures Sized(r)
    decreases |acts|
  {
    if acts == [] || Step(s, acts[0]).None? then s
    else (StepSized(s, acts[0]); Exec(Step(s, acts[0]).value, acts[1..]))
  }

  lemma {:induction false} ExecInv(s: State, acts: seq<Action>)
    requires Inv(s) && Clean(s, acts)
    ensures Inv(Exec(s, acts))
    decreases |acts|
  {
    if acts != [] {
      StepInv(s, acts[0]);
      ExecInv(Step(s, acts[0]).value, acts[1..]);
    }
  }

  lemma InitialInv(s: State)
    requires Initial(s)
    ensures Inv(s)
  {
  }

  /**
   * Every reachable state: the bytes sent, then the full buffers oldest first, then what was handed out of the
   * buffer being filled, are the bytes the producer has finished and the piece it holds. The held piece is in no
   * full buffer, and only full buffers are sent.
   */
  lemma BackupConserves(s0: State, acts: seq<Action>)
    requires Initial(s0) && Clean(s0, acts)
    ensures var s := Exec(s0, acts);
      && s.queued <= |s.bufs|
      && (s.phase.Idle? ==>
            && s.sent + Fulls(s.bufs, s.out, s.queued) + In(s).data[..In(s).spot] == s.released + Held(s)
            && s.offset == |s.released + Held(s)| && !In(s).full)
      && (!s.phase.Idle? && s.phase != Ended(true) ==> Carried(s) == s.released && s.offset == |s.released|)
      && (s.phase == Ended(true) ==>
            s.released <= Carried(s) && s.offset == |s.released| && |Carried(s)| <= s.offset + s.size)
  {
    InitialInv(s0);
    ExecInv(s0, acts);
    var s := Exec(s0, acts);
    hide Exec, Clean, Fulls, Flags, Whole;
    if s.phase.Idle? {
      FilledSoFar(s.sent + Fulls(s.bufs, s.out, s.queued), In(s).data, In(s).spot - s.phase.held, In(s).spot);
    }
  }

  /** What has been sent never runs ahead of what the producer has finished, until write_tar_eof ends the stream. */
  lemma HeldIsNeverSent(s0: State, acts: seq<Action>)
    requires Initial(s0) && Clean(s0, acts)
    ensures var s := Exec(s0, acts);
      if s.phase == Ended(true) then s.sent[..Min(|s.sent|, s.offset)] <= s.released else s.sent <= s.released
  {
    InitialInv(s0);
    ExecInv(s0, acts);
    var s := Exec(s0, acts);
    hide Ring, Flags, Exec, Clean, Fulls, Filling;
    SentFirst(s.sent, Fulls(s.bufs, s.out, s.queued), Filling(s), s.released);
  }

  lemma FilledSoFar<T>(front: seq<T>, d: seq<T>, i: nat, j: nat)
    requires i <= j <= |d|
    ensures front + d[..j] == front + d[..i] + d[i..j]
  {
  }

  lemma SentFirst<T>(sent: seq<T>, fulls: seq<T>, filling: seq<T>, released: seq<T>)
    ensures sent + fulls + filling == released ==> sent <= released
    ensures released <= sent + fulls + filling ==> sent[..Min(|sent|, |released|)] <= released
  {
  }

  /** The writer leaves only after a stop, with nothing full; after write_tar_eof it has sent everything. */
  lemma GracefulExit(s0: State, acts: seq<Action>)
    requires Initial(s0) && Clean(s0, acts) && Exec(s0, acts).exited
    ensures var s := Exec(s0, acts);
      && s.stop && (forall i :: 0 <= i < |s.bufs| ==> !s.bufs[i].full)
      && (s.phase == Ended(true) ==>
            |s.sent| <= s.offset + s.size && s.offset <= |s.sent| && s.sent[..s.offset] == s.released)
      && (s.phase == Ended(false) ==> s.sent + In(s).data[..In(s).spot] == s.released)
  {
    InitialInv(s0);
    ExecInv(s0, acts);
    var s := Exec(s0, acts);
    hide Exec, Clean, Flags, Whole;
    assert Fulls(s.bufs, s.out, 0) == [];
    assert s.sent + [] + Filling(s) == s.sent + Filling(s) && s.sent + [] == s.sent;
  }

  /** While the producer waits for a full buffer the writer can send; a single buffer always is when full. */
  lemma WriterNeverStuck(s0: State, acts: seq<Action>)
    requires Initial(s0) && Clean(s0, acts)
    ensures var s := Exec(s0, acts);
      && ((s.phase.Waiting? || s.phase.Retrying?) && In(s).full ==> Step(s, Send).Some?)
      && (|s.bufs| == 1 && s.bufs[0].full ==> Step(s, Send).Some?)
      && (|s.bufs| == 1 && s.stop && !s.exited ==> Step(s, Send).Some? || Step(s, Exit).Some?)
  {
    InitialInv(s0);
    ExecInv(s0, acts);
    var s := Exec(s0, acts);
    assert Dist(s.out, s.out, |s.bufs|) == 0;
  }

  // ---- the retry that comes too late ----

  /** Both threads go round for ever: the one buffer is full, and nobody will set its flag. */
  predicate Stuck(s: State)
    requires Sized(s)
  {
    && |s.bufs| == 1 && (s.phase.Waiting? || s.phase.Retrying?) && !s.stop
    && s.bufs[0].full && !s.bufs[0].filled && s.bufs[0].spot == s.size
  }

  /**
   * With one buffer, a retry that finds it drained meanwhile ends the backup for good: whatever steps follow,
   * nothing more is sent and the producer never gets another piece.
   */
  lemma {:induction false} UntimelyRetryHangs(s: State, acts: seq<Action>)
    requires Inv(s) && |s.bufs| == 1 && s.phase.Retrying? && !In(s).full
    ensures var s1 := Step(s, Retry).value; Sized(s1) && Stuck(Exec(s1, acts)) && Exec(s1, acts).sent == s.sent
  {
    MarkedTwice(s);
    StuckStays(Step(s, Retry).value, acts);
  }

  lemma {:induction false} StuckStays(s: State, acts: seq<Action>)
    requires Sized(s) && Stuck(s)
    ensures Stuck(Exec(s, acts)) && Exec(s, acts).sent == s.sent
    decreases |acts|
  {
    if acts != [] && Step(s, acts[0]).Some? {
      StepSized(s, acts[0]);
      StuckStep(s, acts[0]);
      StuckStays(Step(s, acts[0]).value, acts[1..]);
    }
  }

  lemma StuckStep(s: State, a: Action)
    requires Sized(s) && Stuck(s) && Step(s, a).Some?
    ensures Sized(Step(s, a).value) && Stuck(Step(s, a).value) && Step(s, a).value.sent == s.sent
  {
    hide Whole;
  }

  /** A state of a ring of one buffer. */
  function Lone(size: nat, b: Buf, phase: Phase, offset: nat, released: seq<byte>, queued: nat, sent: seq<byte>): State
  {
    State(size, [b], 0, 0, offset, phase, false, false, sent, released, queued)
  }

  /** A run in which the one buffer is drained between a failed call and its retry. */
  function LateDrain(bytes: seq<byte>): seq<Action> {
    [Call, Get(|bytes|), Write(bytes), Call, Get(512), Wake, Send]
  }

  /** The states of that run, was being what the buffer held before. */
  function LateStates(was: seq<byte>, bytes: seq<byte>): seq<State> {
    var n := |bytes|;
    [Lone(n, Buf(was, 0, false, true), Idle(0), 0, [], 0, []),
     Lone(n, Buf(was, 0, false, true), Calling, 0, [], 0, []),
     Lone(n, Buf(was, n, false, true), Idle(n), n, [], 0, []),
     Lone(n, Buf(bytes, n, false, true), Idle(n), n, [], 0, []),
     Lone(n, Buf(bytes, n, false, true), Calling, n, bytes, 0, []),
     Lone(n, Buf(bytes, n, true, true), Waiting(512), n, bytes, 1, []),
     Lone(n, Buf(bytes, n, true, true), Retrying(512), n, bytes, 1, []),
     Lone(n, Buf(bytes, n, false, false), Retrying(512), n, bytes, 0, bytes)]
  }

  predicate OneBuffer(was: seq<byte>, bytes: seq<byte>) {
    |was| == |bytes| > 0 && Whole(|bytes|)
  }

  lemma LateSized(was: seq<byte>, bytes: seq<byte>)
    requires OneBuffer(was, bytes)
    ensures forall i :: 0 <= i < 8 ==> Sized(LateStates(was, bytes)[i])
  {
    assert Whole(0);
  }

  lemma LatePieces(was: seq<byte>, bytes: seq<byte>)
    requires OneBuffer(was, bytes)
    ensures var n := |bytes|; Round(n) == n && was[..0] + bytes + was[n..] == bytes
    ensures [] + was[0..0] == [] && [] + bytes[0..|bytes|] == bytes && [] + bytes == bytes
  {
  }

  lemma LateStep(was: seq<byte>, bytes: seq<byte>, i: nat)
    requires OneBuffer(was, bytes) && i < 7
    ensures Sized(LateStates(was, bytes)[i]) && Sized(LateStates(was, bytes)[i + 1])
    ensures LateFollows(was, bytes, i)
  {
    LateSized(was, bytes);
    if i < 2 {
      LateStart(was, bytes, i);
    } else if i < 4 {
      LateWrite(was, bytes, i);
    } else {
      LateWait(was, bytes, i);
    }
    hide Step, Sized, OneBuffer, LateStates, LateDrain;
  }

  /** A call to get_write_buffer on the one buffer finishes what was written. */
  lemma LoneCall(s: State, bytes: seq<byte>)
    requires Sized(s) && |s.bufs| == 1 && s.out == 0 && s.bufs[0].filled && s.phase.Idle? && Held(s) == bytes
    ensures Step(s, Call) == Some(s.(released := s.released + bytes, phase := Calling))
  {
    hide Sized, Held;
    assert s.bufs[0 := s.bufs[0].(filled := true)] == s.bufs;
  }

  lemma LateStart(was: seq<byte>, bytes: seq<byte>, i: nat)
    requires OneBuffer(was, bytes) && i < 2
    ensures LateFollows(was, bytes, i)
  {
    var ss, acts := LateStates(was, bytes), LateDrain(bytes);
    LateSized(was, bytes);
    LatePieces(was, bytes);
    hide Round, Sized;
    if i == 0 {
      assert Step(ss[0], acts[0]).value == ss[1];
    } else {
      assert Step(ss[1], acts[1]).value == ss[2];
    }
  }

  lemma LateWrite(was: seq<byte>, bytes: seq<byte>, i: nat)
    requires OneBuffer(was, bytes) && 2 <= i < 4
    ensures LateFollows(was, bytes, i)
  {
    var ss, acts := LateStates(was, bytes), LateDrain(bytes);
    LateSized(was, bytes);
    LatePieces(was, bytes);
    hide Round, Whole, Sized, GetBuffer, Fresh, MarkFull, Take, OneBuffer;
    if i == 2 {
      assert Step(ss[2], acts[2]).value == ss[3];
    } else {
      LoneCall(ss[3], bytes);
    }
  }

  lemma LateWait(was: seq<byte>, bytes: seq<byte>, i: nat)
    requires OneBuffer(was, bytes) && 4 <= i < 7
    ensures LateFollows(was, bytes, i)
  {
    var ss, acts := LateStates(was, bytes), LateDrain(bytes);
    LateSized(was, bytes);
    LatePieces(was, bytes);
    hide Round, Sized;
    if i == 4 {
      assert Step(ss[4], acts[4]).value == ss[5];
    } else if i == 5 {
      assert Step(ss[5], acts[5]).value == ss[6];
    } else {
      assert Step(ss[6], acts[6]).value == ss[7];
    }
  }

  predicate LateFollows(was: seq<byte>, bytes: seq<byte>, i: nat)
    requires |was| == |bytes| && i < 7
  {
    var ss, acts := LateStates(was, bytes), LateDrain(bytes);
    Sized(ss[i]) && Step(ss[i], acts[i]) == Some(ss[i + 1])
  }

  lemma {:induction false} Follows(ss: seq<State>, acts: seq<Action>)
    requires |ss| == |acts| + 1 && (forall i :: 0 <= i < |ss| ==> Sized(ss[i]))
    requires forall i :: 0 <= i < |acts| ==> Step(ss[i], acts[i]) == Some(ss[i + 1]) && !acts[i].Retry?
    ensures Clean(ss[0], acts) && Exec(ss[0], acts) == ss[|acts|]
    decreases |acts|
  {
    if acts != [] {
      Follows(ss[1..], acts[1..]);
    }
  }

  lemma LateRun(was: seq<byte>, bytes: seq<byte>)
    requires OneBuffer(was, bytes)
    ensures var ss, acts := LateStates(was, bytes), LateDrain(bytes);
      Sized(ss[0]) && Clean(ss[0], acts) && Exec(ss[0], acts) == ss[7]
  {
    hide Step, Exec, Clean, Sized, OneBuffer;
    var ss, acts := LateStates(was, bytes), LateDrain(bytes);
    LateStep(was, bytes, 0);
    LateStep(was, bytes, 1);
    LateStep(was, bytes, 2);
    LateStep(was, bytes, 3);
    LateStep(was, bytes, 4);
    LateStep(was, bytes, 5);
    LateStep(was, bytes, 6);
    Follows(ss, acts);
  }

  lemma LoneInitial(s0: State, bytes: seq<byte>)
    requires Initial(s0) && |s0.bufs| == 1 && |bytes| == s0.size
    ensures OneBuffer(s0.bufs[0].data, bytes) && s0 == LateStates(s0.bufs[0].data, bytes)[0]
  {
    assert s0.bufs == [s0.bufs[0]];
  }

  /** Such a retry can come up: from every initial state of a one-buffer ring a clean run leads to it. */
  lemma UntimelyRetryReachable(s0: State, bytes: seq<byte>)
    requires Initial(s0) && |s0.bufs| == 1 && |bytes| == s0.size
    ensures var s := Exec(s0, LateDrain(bytes)); Clean(s0, LateDrain(bytes)) && s.phase.Retrying? && !In(s).full
  {
    hide Step, Exec, Clean, Initial, OneBuffer;
    LoneInitial(s0, bytes);
    LateRun(s0.bufs[0].data, bytes);
  }

  // ---- every stream can be produced ----

  /** A one-buffer ring while the producer holds a piece and the writer has nothing to do. */
  predicate Ready(s: State) {
    && Sized(s) && |s.bufs| == 1 && s.inn == s.out == s.queued == 0 && s.phase.Idle? && !s.stop && !s.exited
    && !s.bufs[0].full
  }

  /** All that the producer has written. */
  function Produced(s: State): seq<byte>
    requires Sized(s)
  {
    s.released + Held(s)
  }

  lemma One<T>(s: seq<T>, t: T)
    requires |s| == 1
    ensures s[0 := t] == [t]
  {
  }

  lemma {:induction false} CleanJoin(s: State, a: seq<Action>, b: seq<Action>)
    requires Sized(s) && Clean(s, a) && Clean(Exec(s, a), b)
    ensures Clean(s, a + b) && Exec(s, a + b) == Exec(Exec(s, a), b)
    decreases |a|
  {
    if a == [] {
      assert a + b == b;
    } else {
      assert (a + b)[1..] == a[1..] + b && (a + b)[0] == a[0];
      var t := Step(s, a[0]).value;
      StepSized(s, a[0]);
      hide Step, Sized;
      CleanJoin(t, a[1..], b);
    }
  }

  /** One step at the end of a clean run. */
  lemma CleanMore(s: State, acts: seq<Action>, a: Action)
    requires Sized(s) && Clean(s, acts) && !a.Retry? && Step(Exec(s, acts), a).Some?
    ensures Clean(s, acts + [a]) && Exec(s, acts + [a]) == Step(Exec(s, acts), a).value
  {
    var t := Exec(s, acts);
    StepSized(t, a);
    assert [a][1..] == [];
    assert Clean(t, [a]) && Exec(t, [a]) == Step(t, a).value;
    CleanJoin(s, acts, [a]);
  }

  lemma ReadyCall(s: State)
    requires Ready(s)
    ensures Step(s, Call) == Some(s.(bufs := [s.bufs[0].(filled := true)], released := Produced(s), phase := Calling))
  {
    hide Sized;
    One(s.bufs, s.bufs[0].(filled := true));
  }

  /** The call finds room in the buffer. */
  lemma RoomGet(s: State)
    requires Sized(s) && |s.bufs| == 1 && s.inn == 0 && s.phase.Calling? && s.bufs[0].spot < s.size
    ensures var b := s.bufs[0];
      Step(s, Get(512)) == Some(s.(bufs := [b.(spot := b.spot + 512)], offset := s.offset + 512, phase := Idle(512)))
  {
    var b := s.bufs[0];
    WholeArith(s.size, b.spot);
    assert Round(512) == 512 && s.size - b.spot >= 512;
    hide Sized, Round, Whole;
    One(s.bufs, b.(spot := b.spot + 512));
  }

  /** The call finds the buffer used up, and waits until it has been sent. */
  lemma FullGet(s: State) returns (t: State)
    requires Sized(s) && |s.bufs| == 1 && s.inn == s.out == s.queued == 0 && s.phase.Calling? && !s.stop && !s.exited
    requires s.bufs[0].spot == s.size && !s.bufs[0].full && s.bufs[0].filled
    ensures Clean(s, [Get(512), Send, Wake]) && Exec(s, [Get(512), Send, Wake]) == t
    ensures var b := s.bufs[0];
      t == s.(bufs := [Buf(b.data, 512, false, false)], offset := s.offset + 512, phase := Idle(512),
              sent := s.sent + b.data)
  {
    var b := s.bufs[0];
    var s1 := s.(bufs := [b.(full := true)], queued := 1, phase := Waiting(512));
    var s2 := s1.(bufs := [b.(filled := false)], queued := 0, sent := s.sent + b.data);
    t := s.(bufs := [Buf(b.data, 512, false, false)], offset := s.offset + 512, phase := Idle(512),
            sent := s.sent + b.data);
    FullMarks(s, s1);
    FullSends(s1, s2);
    FullWakes(s2, t);
    assert Clean(s, []) && Exec(s, []) == s;
    hide Step, Sized, Clean, Exec;
    CleanMore(s, [], Get(512));
    CleanMore(s, [] + [Get(512)], Send);
    CleanMore(s, [] + [Get(512)] + [Send], Wake);
    assert [] + [Get(512)] + [Send] + [Wake] == [Get(512), Send, Wake];
  }

  lemma FullMarks(s: State, s1: State)
    requires Sized(s) && |s.bufs| == 1 && s.inn == s.queued == 0 && s.phase.Calling?
    requires s.bufs[0].spot == s.size && !s.bufs[0].full
    requires s1 == s.(bufs := [s.bufs[0].(full := true)], queued := 1, phase := Waiting(512))
    ensures Step(s, Get(512)) == Some(s1)
  {
    hide Sized, Whole;
    One(s.bufs, s.bufs[0].(full := true));
  }

  lemma FullSends(s1: State, s2: State)
    requires Sized(s1) && |s1.bufs| == 1 && s1.out == 0 && s1.queued == 1 && !s1.exited
    requires s1.bufs[0].full && s1.bufs[0].filled
    requires s2 == s1.(bufs := [s1.bufs[0].(full := false, filled := false)], queued := 0,
                       sent := s1.sent + s1.bufs[0].data)
    ensures Step(s1, Send) == Some(s2)
  {
    hide Sized, Whole;
    One(s1.bufs, s1.bufs[0].(full := false, filled := false));
  }

  lemma FullWakes(s2: State, t: State)
    requires Sized(s2) && |s2.bufs| == 1 && s2.inn == 0 && s2.phase == Waiting(512) && !s2.bufs[0].full
    requires t == s2.(bufs := [s2.bufs[0].(spot := 512)], offset := s2.offset + 512, phase := Idle(512))
    ensures Step(s2, Wake) == Some(t)
  {
    var b := s2.bufs[0];
    assert Whole(s2.size) && Round(512) == 512 && s2.size >= 512;
    assert s2.bufs[0 := b.(spot := 0)] == [b.(spot := 0)];
    assert [b.(spot := 0)][0 := b.(spot := 512)] == [b.(spot := 512)];
    hide Sized, Round, Whole;
  }

  /** What the producer holds is written. */
  lemma ReadyWrite(s: State, bytes: seq<byte>)
    requires Ready(s) && s.phase == Idle(512) && |bytes| == 512
    ensures Step(s, Write(bytes)).Some? && Ready(Step(s, Write(bytes)).value)
    ensures Produced(Step(s, Write(bytes)).value) == s.released + bytes
  {
    var b := s.bufs[0];
    var d := b.data[..b.spot - 512] + bytes + b.data[b.spot..];
    One(s.bufs, b.(data := d));
    assert d[b.spot - 512..b.spot] == bytes;
    hide Whole;
  }

  /** One record more: a call for a piece, with a wait and a send when the buffer is used up, and the record written. */
  lemma ProduceRecord(s: State, bytes: seq<byte>) returns (acts: seq<Action>)
    requires Ready(s) && |bytes| == 512
    ensures Clean(s, acts) && Ready(Exec(s, acts)) && Produced(Exec(s, acts)) == Produced(s) + bytes
  {
    ReadyCall(s);
    assert Clean(s, []) && Exec(s, []) == s;
    var s1 := Step(s, Call).value;
    CleanMore(s, [], Call);
    var t;
    if s1.bufs[0].spot < s.size {
      RoomGet(s1);
      CleanMore(s, [] + [Call], Get(512));
      acts, t := [] + [Call] + [Get(512)], Step(s1, Get(512)).value;
    } else {
      t := FullGet(s1);
      CleanJoin(s, [] + [Call], [Get(512), Send, Wake]);
      acts := [] + [Call] + [Get(512), Send, Wake];
    }
    assert Ready(t) && t.released == Produced(s);
    ReadyWrite(t, bytes);
    hide Step, Clean, Exec;
    CleanMore(s, acts, Write(bytes));
    acts := acts + [Write(bytes)];
  }

  /** Any number of whole records. */
  lemma {:induction false} ProduceAll(s: State, stream: seq<byte>) returns (acts: seq<Action>)
    requires Ready(s) && Whole(|stream|)
    ensures Clean(s, acts) && Ready(Exec(s, acts)) && Produced(Exec(s, acts)) == Produced(s) + stream
    decreases |stream|
  {
    acts := [];
    if stream == [] {
      assert Produced(s) + stream == Produced(s);
    } else {
      WholeArith(|stream|, 512);
      var first, rest := stream[..512], stream[512..];
      assert stream == first + rest;
      var a := ProduceRecord(s, first);
      hide Step, Clean, Exec, Produced, Ready;
      ReadySized(Exec(s, a));
      ReadySized(s);
      var b := ProduceAll(Exec(s, a), rest);
      CleanJoin(s, a, b);
      acts := a + b;
      Regrouped(Produced(s), first, rest);
    }
  }

  lemma ReadySized(s: State)
    ensures Ready(s) ==> Sized(s)
  {
  }

  lemma Regrouped<T>(a: seq<T>, b: seq<T>, c: seq<T>)
    ensures a + b + c == a + (b + c)
  {
  }

  /** write_tar_eof, the stop, the last send and the writer's exit. */
  lemma Finish(s: State) returns (acts: seq<Action>)
    requires Ready(s)
    ensures Clean(s, acts) && Exec(s, acts).exited && Exec(s, acts).phase == Ended(true)
    ensures Exec(s, acts).released == Produced(s)
  {
    var b := s.bufs[0];
    var s1 := s.(released := Produced(s), phase := Ended(true), queued := 1,
                 bufs := [b.(filled := true, full := true)]);
    var s2 := s1.(stop := true);
    var s3 := s2.(bufs := [b.(filled := false, full := false)], queued := 0, sent := s.sent + b.data);
    One(s.bufs, b.(filled := true, full := true));
    assert Step(s, Eof) == Some(s1) && Step(s1, Stop) == Some(s2);
    FullSends(s2, s3);
    assert Step(s3, Exit) == Some(s3.(exited := true));
    assert Clean(s, []) && Exec(s, []) == s;
    hide Step, Sized, Clean, Exec;
    CleanMore(s, [], Eof);
    CleanMore(s, [] + [Eof], Stop);
    CleanMore(s, [] + [Eof] + [Stop], Send);
    CleanMore(s, [] + [Eof] + [Stop] + [Send], Exit);
    acts := [] + [Eof] + [Stop] + [Send] + [Exit];
  }

  /** From every initial state of a one-buffer ring, any stream of whole records is what some clean run releases. */
  lemma AnyStreamReleased(s0: State, stream: seq<byte>) returns (acts: seq<Action>)
    requires Initial(s0) && |s0.bufs| == 1 && Whole(|stream|)
    ensures Clean(s0, acts) && Exec(s0, acts).exited && Exec(s0, acts).phase == Ended(true)
    ensures Exec(s0, acts).released == stream
  {
    assert Produced(s0) == [] && [] + stream == stream;
    hide Step, Clean, Exec, Produced;
    var a := ProduceAll(s0, stream);
    var b := Finish(Exec(s0, a));
    CleanJoin(s0, a, b);
    acts := a + b;
  }
}
