/** The shared buffer as each thread sees it between waits: whole records are handed out of it. */
module Buffers {
  import opened Bytes

  /** The producer's side (tlm_get_write_buffer): when the buffer is full it is sent and taken up again. */
  class WriteBuffers {
    const data: array<byte>     // tb_buffer_data
    var spot: nat               // tb_buffer_spot
    var offset: nat             // tbs_offset
    var sent: seq<byte>         // what the connection has been given
    ghost var rounds: nat       // how many buffers that is
    ghost var last: seq<byte>   // the last of them, or the zeros the buffer was allocated with

    ghost predicate Valid()
      reads this, data
    {
      Sound() && (spot == 0 ==> sent == [])
    }

    ghost predicate Sound()
      reads this, data
    {
      && 0 < data.Length && Whole(data.Length)
      && spot <= data.Length && Whole(spot)
      && offset == |sent| + spot && |sent| == Times(rounds, data.Length)
      && Behind()
    }

    /** What lies behind the spot is what the last round left there. */
    ghost predicate Behind()
      reads this, data
    {
      && |last| == data.Length && spot <= data.Length && data[spot..] == last[spot..]
      && if sent == [] then forall i :: 0 <= i < |last| ==> last[i] == 0
         else data.Length <= |sent| && last == sent[|sent| - data.Length..]
    }

    /** The bytes produced so far: those sent and those waiting in the buffer. */
    ghost function Stream(): (s: seq<byte>)
      requires Sound()
      reads this, data
      ensures |s| == offset
    {
      sent + data[..spot]
    }

    constructor (size: nat)
      requires 0 < size && Whole(size)
      ensures Valid() && Stream() == [] && fresh(data) && data.Length == size
    {
      data := new byte[size](_ => 0);
      spot, offset, sent, rounds, last := 0, 0, [], 0, Repeat(0, size);
    }

    ghost function Room(): nat
      requires Sound()
      reads this, data
    {
      if spot == data.Length then data.Length else data.Length - spot
    }

    /** The full buffer goes out and is taken up again from its start. */
    method Drain()
      requires Valid() && spot == data.Length
      modifies this
      ensures Sound() && Stream() == old(Stream()) && offset == old(offset) && spot == 0
    {
      assert data[..] == data[..spot] == data[0..];
      sent, last, rounds := sent + data[..], data[..], rounds + 1;
      spot := 0;
    }

    /** write_tar_eof and the writer's last send: the whole buffer goes out, what lies behind the end included. */
    method SendLast() returns (conn: seq<byte>, ghost tail: seq<byte>)
      requires Valid()
      ensures conn == Stream() + tail && TailOf(Stream(), tail, data.Length)
    {
      conn, tail := sent + data[..], data[spot..];
      assert data[..] == data[..spot] + data[spot..];
      assert |conn| == Times(rounds + 1, data.Length);
    }

    /**
     * Hand out the next piece: whole records, at most what the buffer has left, never fewer than one record.
     * The piece joins the stream with whatever it held before, or zeros.
     */
    method GetWriteBuffer(want: nat, zero: bool) returns (at: nat, actual: nat)
      requires Valid() && 0 < want
      modifies this, data
      ensures Valid()
      ensures actual == Min(Round(want), old(Room())) && RECORDSIZE <= actual && Whole(actual)
      ensures at + actual == spot
      ensures offset == old(offset) + actual && Stream()[..old(offset)] == old(Stream())
      ensures zero ==> forall i :: at <= i < spot ==> data[i] == 0
    {
      actual := data.Length - spot;
      if actual == 0 {
        Drain();
        actual := data.Length;
      }
      WholeArith(data.Length, spot);
      actual := Piece(want, actual);
      at := Advance(actual);
      if zero {
        Clear(at);
      }
    }

    method Advance(actual: nat) returns (at: nat)
      requires Sound() && 0 < actual && Whole(actual) && spot + actual <= data.Length
      modifies `spot, `offset
      ensures Valid() && at == old(spot) && spot == at + actual && offset == old(offset) + actual
      ensures Stream()[..old(offset)] == old(Stream())
    {
      WholeArith(spot, actual);
      at := spot;
      ghost var before := data[..at];
      spot, offset := spot + actual, offset + actual;
      assert data[spot..] == data[at..][actual..] && last[spot..] == last[at..][actual..];
      assert data[..spot][..at] == before;
    }

    method Clear(at: nat)
      requires Valid() && at <= spot
      modifies data
      ensures Valid() && Stream()[..offset - (spot - at)] == old(Stream())[..offset - (spot - at)]
      ensures forall i :: at <= i < spot ==> data[i] == 0
    {
      ghost var before, behind := data[..at], data[spot..];
      forall i | at <= i < spot { data[i] := 0; }
      assert data[spot..] == behind && data[..at] == before;
      assert data[..spot][..at] == before;
    }

    /** Copy bytes into the piece last handed out. */
    method Fill(at: nat, bytes: seq<byte>)
      requires Valid() && at + |bytes| <= spot
      modifies data
      ensures Valid() && offset == old(offset)
      ensures Stream()[..offset - spot + at] == old(Stream())[..offset - spot + at]
      ensures Stream()[offset - spot + at..][..|bytes|] == bytes
      ensures data[at..at + |bytes|] == bytes
      ensures data[at + |bytes|..] == old(data[at + |bytes|..]) && data[..at] == old(data[..at])
    {
      ghost var d0, n := data[..], |bytes|;
      forall i | 0 <= i < |bytes| { data[at + i] := bytes[i]; }
      assert data[at..at + n] == bytes && data[..at] == d0[..at] && data[at + n..] == d0[at + n..];
      Overwritten(sent, d0, data[..], at, n, spot);
    }

    /** A zeroed record with the bytes at its front joins the stream. */
    method PutRecord(bytes: seq<byte>) returns (at: nat)
      requires Valid() && |bytes| <= RECORDSIZE
      modifies this, data
      ensures Valid() && at + RECORDSIZE == spot && offset == old(offset) + RECORDSIZE
      ensures data[at..spot] == bytes + Repeat(0, RECORDSIZE - |bytes|)
      ensures Stream() == old(Stream()) + data[at..spot]
    {
      hide Behind, Round;
      ghost var s := Stream();
      var actual;
      at, actual := GetWriteBuffer(RECORDSIZE, true);
      ghost var d0 := data[..];
      Fill(at, bytes);
      ZeroRest(d0, data[..], at, spot, bytes);
      Ends(s, sent, data[..], at, spot);
    }
  }

  /** What stands behind the piece of a stream that was there before. */
  lemma Ends(s: seq<byte>, sent: seq<byte>, d: seq<byte>, at: nat, spot: nat)
    requires at <= spot <= |d| && |s| == |sent| + at && (sent + d[..spot])[..|s|] == s
    ensures sent + d[..spot] == s + d[at..spot]
  {
    assert d[..spot] == d[..at] + d[at..spot];
    assert (sent + d[..spot])[..|s|] == sent + d[..at];
  }

  lemma ZeroRest(d0: seq<byte>, d1: seq<byte>, at: nat, spot: nat, bytes: seq<byte>)
    requires |d0| == |d1| && at + |bytes| <= spot <= |d1| && d1[at..at + |bytes|] == bytes
    requires d1[at + |bytes|..] == d0[at + |bytes|..] && forall i :: at <= i < spot ==> d0[i] == 0
    ensures d1[at..spot] == bytes + Repeat(0, spot - at - |bytes|)
  {
    var n := |bytes|;
    assert forall i :: at + n <= i < spot ==> d1[i] == d1[at + n..][i - at - n] == d0[at + n..][i - at - n] == d0[i];
    assert forall i :: at <= i < at + n ==> d1[i] == d1[at..at + n][i - at];
  }

  /** A piece of the buffer written over changes just that piece of the stream. */
  lemma Overwritten(sent: seq<byte>, d0: seq<byte>, d1: seq<byte>, at: nat, n: nat, spot: nat)
    requires |d0| == |d1| && at + n <= spot <= |d1| && d1[..at] == d0[..at] && d1[at + n..] == d0[at + n..]
    ensures d1[spot..] == d0[spot..]
    ensures var t := sent + d1[..spot];
      && t[..|sent| + at] == (sent + d0[..spot])[..|sent| + at] == sent + d0[..at]
      && t[|sent| + at..][..n] == d1[at..at + n]
  {
    assert d1[spot..] == d1[at + n..][spot - at - n..] && d0[spot..] == d0[at + n..][spot - at - n..];
    assert d1[..spot][..at] == d1[..at] && d0[..spot][..at] == d0[..at];
    assert d1[..spot] == d1[..at] + d1[at..at + n] + d1[at + n..spot] && d0[..spot] == d0[..at] + d0[at..spot];
    assert (sent + d1[..spot])[..|sent| + at] == sent + d1[..spot][..at];
    assert (sent + d0[..spot])[..|sent| + at] == sent + d0[..spot][..at];
    assert (sent + d1[..spot])[|sent| + at..] == d1[..spot][at..];
  }

  /** The consumer's side (tlm_get_read_buffer): an emptied buffer is given back and filled from the connection. */
  class ReadBuffers {
    const data: array<byte>
    var spot: nat
    var full: bool
    ghost var left: nat         // whole buffers the connection will still deliver
    const limit: nat            // bytes in all the whole buffers
    var taken: nat              // bytes read from the connection
    const conn: seq<byte>       // all the bytes the connection will deliver

    ghost predicate Valid()
      reads this, data
    {
      && 0 < data.Length && Whole(data.Length)
      && spot <= data.Length && Whole(spot)
      && taken + Times(left, data.Length) == limit
      && limit <= |conn| < limit + data.Length
      && (full ==> data.Length <= taken &&
                   forall i :: 0 <= i < data.Length ==> data[i] == conn[taken - data.Length + i])
    }

    /** How far into the connection's bytes the consumer has been handed pieces. */
    ghost function Pos(): int
      reads this, data
    {
      if full then taken - (data.Length - spot) else taken
    }

    constructor (size: nat, conn: seq<byte>)
      requires 0 < size && Whole(size)
      ensures Valid() && Pos() == 0 && fresh(data) && this.conn == conn && data.Length == size
      ensures limit == Times(Quotient(|conn|, size), size)
    {
      data := new byte[size];
      spot, full, taken := 0, false, 0;
      this.conn := conn;
      left, limit := Quotient(|conn|, size), Times(Quotient(|conn|, size), size);
    }

    /** One read from the connection into the emptied buffer (MOD_READ): all of it or nothing. */
    method Refill() returns (ok: bool)
      requires Valid() && !full
      modifies this, data
      ensures Valid() && ok == full && Pos() == old(Pos())
      ensures ok <==> old(Pos()) != limit
      ensures ok ==> spot == 0
    {
      if taken + data.Length > |conn| {
        return false;
      }
      forall i | 0 <= i < data.Length { data[i] := conn[taken + i]; }
      taken, left, spot, full := taken + data.Length, left - 1, 0, true;
      return true;
    }

    /** The next piece of a buffer that is not used up: whole records, at most what it has left. */
    method Take(want: nat) returns (piece: seq<byte>)
      requires Valid() && full && spot < data.Length && 0 < want
      modifies `spot
      ensures Valid() && 0 <= old(Pos()) && Pos() == old(Pos()) + |piece| <= limit
      ensures piece == conn[old(Pos())..Pos()]
      ensures RECORDSIZE <= |piece| <= Round(want) && Whole(|piece|)
    {
      hide Round;
      WholeArith(data.Length, spot);
      var n := Piece(want, data.Length - spot);
      WholeArith(spot, n);
      piece := data[spot..spot + n];
      spot := spot + n;
    }

    /** The next piece, or None when the connection has no further whole buffer. */
    method GetReadBuffer(want: nat) returns (piece: Option<seq<byte>>)
      requires Valid() && 0 < want
      modifies this, data
      ensures Valid()
      ensures piece.None? <==> old(Pos()) == limit
      ensures piece.None? ==> Pos() == old(Pos())
      ensures piece.Some? ==>
                && 0 <= old(Pos()) && Pos() == old(Pos()) + |piece.value| <= limit
                && piece.value == conn[old(Pos())..Pos()]
                && RECORDSIZE <= |piece.value| <= Round(want) && Whole(|piece.value|)
    {
      hide Round;
      if full && spot == data.Length {
        full := false;
      }
      if !full {
        var ok := Refill();
        if !ok {
          return None;
        }
      }
      var bytes := Take(want);
      return Some(bytes);
    }
  }

  /** A number of whole buffers. */
  ghost predicate Fills(n: nat, size: nat) {
    exists k :: n == Times(k, size)
  }

  /**
   * What is sent behind the end of a stream: the rest of its last buffer, as the round before left it, or zeros in the
   * first round.
   */
  ghost predicate TailOf(stream: seq<byte>, tail: seq<byte>, size: nat) {
    && Fills(|stream| + |tail|, size)
    && (if stream == [] then |tail| == size else |tail| < size)
    && forall i :: 0 <= i < |tail| ==>
         tail[i] == if |stream| + i < size then 0 else stream[|stream| + i - size]
  }

  function Times(k: nat, size: nat): nat {
    if k == 0 then 0 else size + Times(k - 1, size)
  }

  function Quotient(n: nat, size: nat): (q: nat)
    requires 0 < size
    ensures Times(q, size) <= n < Times(q, size) + size
  {
    if n < size then 0 else 1 + Quotient(n - size, size)
  }

  lemma {:induction false} TimesSum(a: nat, b: nat, size: nat)
    ensures Times(a + b, size) == Times(a, size) + Times(b, size)
  {
    if a > 0 {
      TimesSum(a - 1, b, size);
    }
  }

  lemma {:induction false} TimesProduct(k: nat, n: nat, size: nat) returns (m: nat)
    ensures Times(k, Times(n, size)) == Times(m, size)
  {
    m := 0;
    if k > 0 {
      var rest := TimesProduct(k - 1, n, size);
      TimesSum(n, rest, size);
      m := n + rest;
    }
  }

  /** What fills whole buffers of the larger size fills whole ones of the smaller: a reader sees all of it. */
  lemma AllWhole(total: nat, n: nat, size: nat)
    requires 0 < size && Fills(total, Times(n, size))
    ensures Times(Quotient(total, size), size) == total
  {
    var k :| total == Times(k, Times(n, size));
    var m := TimesProduct(k, n, size);
    var q := Quotient(total, size);
    if q < m {
      TimesSum(q, m - q, size);
    } else if m < q {
      TimesSum(m, q - m, size);
    }
  }

  lemma {:induction false} TimesWhole(k: nat, size: nat)
    requires Whole(size)
    ensures Whole(Times(k, size)) && (0 < k && 0 < size ==> 0 < Times(k, size))
  {
    if k > 0 {
      TimesWhole(k - 1, size);
    }
  }
}
