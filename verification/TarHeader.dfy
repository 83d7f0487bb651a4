/** The 512-byte header record (struct tlm_tar_hdr): its layout, its checksum and reading it back. */
module TarHeader {
  import opened Bytes
  import opened Octal

  // Offsets of the fields; each field runs to the next one.
  const MODE := 100
  const UID := 108
  const GID := 116
  const SIZE := 124
  const MTIME := 136
  const CHKSUM := 148
  const FLAG := 156
  const LINKNAME := 157
  const MAGIC := 257
  const UNAME := 265
  const GNAME := 297
  const SHARED := 329
  const HDREND := 345

  const LF_OLDNORMAL: byte := 0
  const LF_NORMAL: byte := 48
  const LF_LINK: byte := 49
  const LF_SYMLINK: byte := 50
  const LF_DIR: byte := 53
  const LF_FIFO: byte := 54
  const LF_CONTIG: byte := 55
  const LF_ACL: byte := 65
  const LF_XATTR: byte := 69
  const LF_HUMONGUS: byte := 72
  const LF_LONGLINK: byte := 75
  const LF_LONGNAME: byte := 76
  const LF_MULTIVOL: byte := 77
  const LF_VOLHDR: byte := 86

  /** The printed text of every field; an empty text leaves the field zeroed. */
  datatype Header = Header(name: Str, mode: Str, uid: Str, gid: Str, size: Str, mtime: Str, flag: byte,
                           link: Str, magic: Str, uname: Str, gname: Str, ino: Str)
  {
    /** Every text leaves room for its NUL. */
    predicate Fits() {
      && |name| < 100 && |mode| < 8 && |uid| < 8 && |gid| < 8 && |size| < 12 && |mtime| < 12
      && |link| < 100 && |magic| < 8 && |uname| < 32 && |gname| < 32 && |ino| < 12
    }

    /** Byte i of the record before the checksum is printed: the checksum field holds blanks. */
    function BlankByte(i: nat): byte {
      if i < MODE then At(name, i)
      else if i < UID then At(mode, i - MODE)
      else if i < GID then At(uid, i - UID)
      else if i < SIZE then At(gid, i - GID)
      else if i < MTIME then At(size, i - SIZE)
      else if i < CHKSUM then At(mtime, i - MTIME)
      else if i < FLAG then BLANK
      else if i == FLAG then flag
      else if i < MAGIC then At(link, i - LINKNAME)
      else if i < UNAME then At(magic, i - MAGIC)
      else if i < GNAME then At(uname, i - UNAME)
      else if i < SHARED then At(gname, i - GNAME)
      else At(ino, i - SHARED)
    }

    function Blank(): (r: seq<byte>)
      ensures |r| == RECORDSIZE
    {
      seq(RECORDSIZE, i requires 0 <= i < RECORDSIZE => BlankByte(i))
    }

    /** The finished record. */
    function Record(): (r: seq<byte>)
      ensures |r| == RECORDSIZE
    {
      Stamp(Blank())
    }
  }

  function At(s: Str, i: nat): byte {
    if i < |s| then s[i] else 0
  }

  function Sum(s: seq<byte>): nat {
    if s == [] then 0 else Sum(s[..|s| - 1]) + s[|s| - 1]
  }

  lemma {:induction false} SumConcat(a: seq<byte>, b: seq<byte>)
    ensures Sum(a + b) == Sum(a) + Sum(b)
    decreases |b|
  {
    if b == [] {
      assert a + b == a;
    } else {
      SumConcat(a, b[..|b| - 1]);
      assert (a + b)[..|a + b| - 1] == a + b[..|b| - 1];
    }
  }

  lemma {:induction false} SumBound(s: seq<byte>)
    ensures Sum(s) <= 255 * |s|
    decreases |s|
  {
    if s != [] {
      SumBound(s[..|s| - 1]);
    }
  }

  lemma {:induction false} SumZero(s: seq<byte>)
    ensures Sum(s) == 0 <==> forall i :: 0 <= i < |s| ==> s[i] == 0
    decreases |s|
  {
    if s != [] {
      SumZero(s[..|s| - 1]);
      assert forall i :: 0 <= i < |s| - 1 ==> s[i] == s[..|s| - 1][i];
    }
  }

  /** The three parts of a record around its checksum field. */
  lemma SumParts(s: seq<byte>)
    requires |s| == RECORDSIZE
    ensures Sum(s) == Sum(s[..CHKSUM]) + Sum(s[CHKSUM..FLAG]) + Sum(s[FLAG..])
  {
    SumConcat(s[..CHKSUM], s[CHKSUM..FLAG]);
    SumConcat(s[..CHKSUM] + s[CHKSUM..FLAG], s[FLAG..]);
    assert s == s[..CHKSUM] + s[CHKSUM..FLAG] + s[FLAG..];
  }

  /** "%6o" and its NUL over the first seven of the eight checksum bytes. */
  function SumField(v: nat): (f: Str)
    ensures |f| <= 8
  {
    Clip(PadLeft(BLANK, 6, Digits(8, v)), 8) + [0]
  }

  const CHKBLANKS := Repeat(BLANK, 8)

  /** What tlm_build_header_checksum makes of a record. */
  function Stamp(s: seq<byte>): (r: seq<byte>)
    requires |s| == RECORDSIZE
    ensures |r| == RECORDSIZE
  {
    var t := s[..CHKSUM] + CHKBLANKS + s[FLAG..];
    var f := SumField(Sum(t));
    t[..CHKSUM] + f + t[CHKSUM + |f|..]
  }

  /** What tlm_vfy_tar_checksum answers: 1, 0 for an all-zero record, else -1. */
  function Verify(s: seq<byte>): int
    requires |s| == RECORDSIZE
  {
    if Sum(s) == 0 then 0
    else if Sum(s) - Sum(s[CHKSUM..FLAG]) + BLANK * 8 == OctAtoi(s[CHKSUM..]) then 1
    else -1
  }

  /**
   * A record passes exactly when it is not all zero and the number in its checksum field is the sum of the bytes on
   * both sides of the field, with eight blanks for the field itself.
   */
  lemma VerifyIff(s: seq<byte>)
    requires |s| == RECORDSIZE
    ensures Verify(s) == 1 <==>
              && (exists i :: 0 <= i < |s| && s[i] != 0)
              && OctAtoi(s[CHKSUM..]) == Sum(s[..CHKSUM]) + Sum(CHKBLANKS) + Sum(s[FLAG..])
    ensures Verify(s) in {0, 1, -1}
  {
    SumParts(s);
    SumZero(s);
    BlanksSum();
  }

  lemma SumUpdate(s: seq<byte>, i: nat, b: byte)
    requires i < |s|
    ensures Sum(s[i := b]) == Sum(s) - s[i] + b
  {
    var t := s[i := b];
    assert s == s[..i] + ([s[i]] + s[i + 1..]) && t == s[..i] + ([b] + s[i + 1..]);
    SumConcat(s[..i], [s[i]] + s[i + 1..]);
    SumConcat([s[i]], s[i + 1..]);
    SumConcat(s[..i], [b] + s[i + 1..]);
    SumConcat([b], s[i + 1..]);
    OneSum(s[i]);
    OneSum(b);
  }

  lemma OneSum(b: byte)
    ensures Sum([b]) == b
  {
    assert [b][..0] == [];
  }

  /** A record that passes is refused once a byte beside its checksum is another one, if the field still reads alike. */
  lemma ChangeRefused(s: seq<byte>, i: nat, b: byte)
    requires |s| == RECORDSIZE && Verify(s) == 1 && i < RECORDSIZE && !(CHKSUM <= i < FLAG) && b != s[i]
    requires OctAtoi(s[i := b][CHKSUM..]) == OctAtoi(s[CHKSUM..])
    ensures Verify(s[i := b]) == -1
  {
    hide OctAtoi;
    var t := s[i := b];
    VerifyIff(s);
    VerifyIff(t);
    VerifyZero(t);
    hide Verify;
    if i < CHKSUM {
      assert t[..CHKSUM] == s[..CHKSUM][i := b] && t[FLAG..] == s[FLAG..];
      SumUpdate(s[..CHKSUM], i, b);
    } else {
      assert t[FLAG..] == s[FLAG..][i - FLAG := b] && t[..CHKSUM] == s[..CHKSUM];
      SumUpdate(s[FLAG..], i - FLAG, b);
    }
    if forall k :: 0 <= k < |t| ==> t[k] == 0 {
      NoNumber(s, i, b);
    }
  }

  /** One that would be all zero then had no number in its field. */
  lemma NoNumber(s: seq<byte>, i: nat, b: byte)
    requires |s| == RECORDSIZE && i < RECORDSIZE && !(CHKSUM <= i < FLAG)
    requires var t := s[i := b]; forall k :: 0 <= k < |t| ==> t[k] == 0
    requires OctAtoi(s[i := b][CHKSUM..]) == OctAtoi(s[CHKSUM..])
    ensures OctAtoi(s[CHKSUM..]) < Sum(s[..CHKSUM]) + Sum(CHKBLANKS) + Sum(s[FLAG..])
  {
    BlanksSum();
    assert s[i := b][CHKSUM..][0] == 0;
  }

  /** The field of a stamped record reads alike whatever stands behind it. */
  lemma StampReads(s: seq<byte>, r: seq<byte>)
    requires |s| == |r| == RECORDSIZE && r[CHKSUM..FLAG] == Stamp(s)[CHKSUM..FLAG]
    ensures OctAtoi(r[CHKSUM..]) == Sum(s[..CHKSUM]) + Sum(CHKBLANKS) + Sum(s[FLAG..])
  {
    var t := s[..CHKSUM] + CHKBLANKS + s[FLAG..];
    var v := Sum(t);
    SumParts(t);
    SumBound(t);
    assert t[CHKSUM..FLAG] == CHKBLANKS && t[..CHKSUM] == s[..CHKSUM] && t[FLAG..] == s[FLAG..];
    SumDigits(v);
    var f := SumField(v);
    assert Stamp(s)[CHKSUM..CHKSUM + 7] == f;
    Within(Stamp(s), CHKSUM, 7, 8);
    Within(r, CHKSUM, 7, 8);
    assert r[CHKSUM..] == r[CHKSUM..CHKSUM + 7] + r[CHKSUM + 7..];
    var d, rest := Digits(8, v), [0] + r[CHKSUM + 7..];
    assert f + r[CHKSUM + 7..] == Repeat(BLANK, 6 - |d|) + d + rest;
    hide OctAtoi, Stamp, Sum;
    OctAtoiReads(6 - |d|, d, rest);
  }

  lemma Within<T>(s: seq<T>, at: nat, m: nat, n: nat)
    requires m <= n && at + n <= |s|
    ensures s[at..at + m] == s[at..at + n][..m]
  {
  }

  lemma SumDigits(v: nat)
    requires v <= 255 * RECORDSIZE
    ensures |Digits(8, v)| <= 6 && Value(8, Digits(8, v)) == v
    ensures SumField(v) == Repeat(BLANK, 6 - |Digits(8, v)|) + Digits(8, v) + [0] && |SumField(v)| == 7
  {
    assert Pow(8, 6) == 262144 by {
      assert Pow(8, 1) == 8 && Pow(8, 2) == 64 && Pow(8, 3) == 512 && Pow(8, 4) == 4096 && Pow(8, 5) == 32768;
    }
    DigitsLength(8, v, 6);
    DigitsValue(8, v);
    assert Repeat(BLANK, 0) + Digits(8, v) == Digits(8, v);
  }

  lemma StampKeeps(s: seq<byte>)
    requires |s| == RECORDSIZE
    ensures Stamp(s)[..CHKSUM] == s[..CHKSUM] && Stamp(s)[FLAG..] == s[FLAG..]
    ensures Stamp(s)[CHKSUM + 5] != 0
  {
    var t := s[..CHKSUM] + CHKBLANKS + s[FLAG..];
    var v := Sum(t);
    SumBound(t);
    SumDigits(v);
    hide Sum, SumField;
    var r, d := Stamp(s), Digits(8, v);
    assert r[..CHKSUM] == t[..CHKSUM] == s[..CHKSUM];
    assert r[FLAG..] == t[FLAG..] == s[FLAG..];
    assert r[CHKSUM + 5] == SumField(v)[5] == d[|d| - 1];
  }

  /** Every record that tlm_build_header_checksum stamps passes tlm_vfy_tar_checksum. */
  lemma StampVerifies(s: seq<byte>)
    requires |s| == RECORDSIZE
    ensures Verify(Stamp(s)) == 1
    ensures Stamp(s)[..CHKSUM] == s[..CHKSUM] && Stamp(s)[FLAG..] == s[FLAG..]
  {
    hide Verify, Stamp, OctAtoi;
    StampKeeps(s);
    StampReads(s, Stamp(s));
    VerifyIff(Stamp(s));
  }

  /** A stamped record with any one byte beside its checksum changed is refused. */
  lemma DamageRefused(s: seq<byte>, i: nat, b: byte)
    requires |s| == RECORDSIZE && i < RECORDSIZE && !(CHKSUM <= i < FLAG) && b != Stamp(s)[i]
    ensures Verify(Stamp(s)[i := b]) == -1
  {
    var r := Stamp(s);
    var t := r[i := b];
    StampVerifies(s);
    assert t[CHKSUM..FLAG] == r[CHKSUM..FLAG];
    hide Verify, Stamp, OctAtoi;
    StampReads(s, r);
    StampReads(s, t);
    ChangeRefused(r, i, b);
  }

  lemma BlanksSum()
    ensures Sum(CHKBLANKS) == BLANK * 8
  {
    RepeatSum(BLANK, 8);
  }

  lemma {:induction false} RepeatSum(c: byte, n: nat)
    ensures Sum(Repeat(c, n)) == c * n
  {
    if n > 0 {
      RepeatSum(c, n - 1);
      assert Repeat(c, n)[..n - 1] == Repeat(c, n - 1);
      assert c * n == c * (n - 1) + c;
    }
  }

  /** A record answers 0, and so is skipped without a word, exactly when all its bytes are zero. */
  lemma VerifyZero(s: seq<byte>)
    requires |s| == RECORDSIZE
    ensures Verify(s) == 0 <==> forall i :: 0 <= i < |s| ==> s[i] == 0
  {
    SumZero(s);
  }

  /** tlm_build_header_checksum on the record at buf[at..]. */
  method BuildHeaderChecksum(buf: array<byte>, at: nat)
    requires at + RECORDSIZE <= buf.Length
    modifies buf
    ensures buf[at..at + RECORDSIZE] == old(Stamp(buf[at..at + RECORDSIZE]))
    ensures buf[..at] == old(buf[..at]) && buf[at + RECORDSIZE..] == old(buf[at + RECORDSIZE..])
  {
    ghost var s := buf[at..at + RECORDSIZE];
    ghost var t := s[..CHKSUM] + CHKBLANKS + s[FLAG..];
    forall k | 0 <= k < 8 { buf[at + CHKSUM + k] := BLANK; }
    assert buf[at..at + RECORDSIZE] == t;
    var sum := SumBytes(buf, at);
    WriteSum(buf, at, sum);
  }

  method SumBytes(buf: array<byte>, at: nat) returns (sum: nat)
    requires at + RECORDSIZE <= buf.Length
    ensures sum == Sum(buf[at..at + RECORDSIZE])
  {
    sum := 0;
    ghost var t := buf[at..at + RECORDSIZE];
    for i := 0 to RECORDSIZE
      invariant sum == Sum(t[..i])
    {
      sum := sum + buf[at + i];
      assert t[..i + 1][..i] == t[..i];
    }
    assert t[..RECORDSIZE] == t;
  }

  method WriteSum(buf: array<byte>, at: nat, sum: nat)
    requires at + RECORDSIZE <= buf.Length
    modifies buf
    ensures var t := old(buf[at..at + RECORDSIZE]); var f := SumField(sum);
            buf[at..at + RECORDSIZE] == t[..CHKSUM] + f + t[CHKSUM + |f|..]
    ensures buf[..at] == old(buf[..at]) && buf[at + RECORDSIZE..] == old(buf[at + RECORDSIZE..])
  {
    hide SumField;
    var f := SumField(sum);
    assert |f| <= 8;
    forall k | 0 <= k < |f| { buf[at + CHKSUM + k] := f[k]; }
  }

  /** tlm_vfy_tar_checksum: two passes over the record, the second taking the old checksum back out. */
  method VfyTarChecksum(s: seq<byte>) returns (r: int)
    requires |s| == RECORDSIZE
    ensures r == Verify(s)
  {
    var chksum := OctAtoiLoop(s[CHKSUM..]);
    var sum: int := 0;
    for i := 0 to RECORDSIZE
      invariant sum == Sum(s[..i])
    {
      sum := sum + s[i];
      assert s[..i + 1][..i] == s[..i];
    }
    assert s[..RECORDSIZE] == s;
    if sum == 0 {
      return 0;
    }
    ghost var f := s[CHKSUM..FLAG];
    for i := 0 to 8
      invariant sum == Sum(s) - Sum(f[..i])
    {
      sum := sum - s[CHKSUM + i];
      assert f[..i + 1][..i] == f[..i] && f[i] == s[CHKSUM + i];
    }
    assert f[..8] == f;
    sum := sum + BLANK * 8;
    return if sum == chksum then 1 else -1;
  }

  /** A text in a zeroed field of w bytes. */
  function FieldBytes(f: Str, w: nat): (r: seq<byte>)
    ensures |r| == w
  {
    seq(w, i requires 0 <= i < w => At(f, i))
  }

  /** A text in its field is read back by the string and number readers. */
  lemma TextAt(rec: seq<byte>, off: nat, w: nat, f: Str)
    requires off + w <= |rec| && |f| < w && NulFree(f)
    requires rec[off..off + w] == FieldBytes(f, w)
    ensures CStr(rec[off..]) == f
    ensures rec[off..] == f + rec[off + |f|..] && EndsDigits(rec[off + |f|..])
  {
    var t := rec[off..];
    assert t[..w] == FieldBytes(f, w);
    assert t[..|f|] == t[..w][..|f|] == f;
    assert t[|f|] == t[..w][|f|] == 0;
    CStrUnique(t, f);
  }

  lemma NumberAt(rec: seq<byte>, off: nat, v: nat, w: nat, cap: nat)
    requires 0 < w < cap && v <= INT_MAX && v < Pow(8, cap - 1)
    requires off + cap <= |rec|
    requires rec[off..off + cap] == FieldBytes(OctField(v, w, cap), cap)
    ensures OctAtoi(rec[off..]) == v
  {
    var f := OctField(v, w, cap);
    TextAt(rec, off, cap, f);
    OctFieldReads(v, w, cap, rec[off + |f|..]);
  }

  lemma PowersOfEight()
    ensures Pow(8, 7) == 0x20_0000 && Pow(8, 11) == 0x2_0000_0000
  {
    assert Pow(8, 1) == 8 && Pow(8, 2) == 64 && Pow(8, 3) == 512 && Pow(8, 4) == 4096 && Pow(8, 5) == 32768;
    assert Pow(8, 6) == 0x4_0000 && Pow(8, 8) == 0x100_0000 && Pow(8, 9) == 0x800_0000 && Pow(8, 10) == 0x4000_0000;
  }

  /** A printed record keeps the bytes of every field outside the checksum. */
  lemma RecordField(h: Header, off: nat, w: nat, f: Str)
    requires off + w <= CHKSUM || FLAG <= off < off + w <= RECORDSIZE
    requires forall i :: 0 <= i < w ==> h.BlankByte(off + i) == At(f, i)
    ensures h.Record()[off..off + w] == FieldBytes(f, w)
  {
    StampVerifies(h.Blank());
    var r, b := h.Record(), h.Blank();
    assert b[off..off + w] == FieldBytes(f, w);
    if off + w <= CHKSUM {
      HeadSlice(r, CHKSUM, off, off + w);
      HeadSlice(b, CHKSUM, off, off + w);
    } else {
      TailSlice(r, FLAG, off - FLAG, off - FLAG + w);
      TailSlice(b, FLAG, off - FLAG, off - FLAG + w);
    }
  }

  /** The attributes as tar_getdir reads them from any 512 bytes. */
  datatype Fields = Fields(mode: int, uid: int, gid: int, mtime: int, uname: Str, gname: Str)

  function FieldsOf(rec: seq<byte>): Fields
    requires |rec| == RECORDSIZE
  {
    Fields(OctAtoi(rec[MODE..]), OctAtoi(rec[UID..]), OctAtoi(rec[GID..]), OctAtoi(rec[MTIME..]),
           Cut(CStr(rec[UNAME..]), 31), Cut(CStr(rec[GNAME..]), 31))
  }

  lemma RecordText(h: Header, off: nat, w: nat, f: Str)
    requires off + w <= CHKSUM || FLAG <= off < off + w <= RECORDSIZE
    requires forall i :: 0 <= i < w ==> h.BlankByte(off + i) == At(f, i)
    requires |f| < w && NulFree(f)
    ensures CStr(h.Record()[off..]) == f
    ensures h.Record()[off] == At(f, 0)
  {
    RecordField(h, off, w, f);
    TextAt(h.Record(), off, w, f);
    assert h.Record()[off] == h.Record()[off..off + w][0];
  }

  /** A record printed from a header verifies, and its name, link and flag are the ones printed. */
  lemma RecordReads(h: Header)
    requires h.Fits() && NulFree(h.name) && NulFree(h.link)
    ensures Verify(h.Record()) == 1
    ensures h.Record()[FLAG] == h.flag
    ensures CStr(h.Record()) == h.name && CStr(h.Record()[LINKNAME..]) == h.link
    ensures h.Record()[0] == At(h.name, 0)
  {
    StampVerifies(h.Blank());
    assert h.Record()[0..] == h.Record();
    RecordText(h, 0, 100, h.name);
    RecordField(h, FLAG, 1, [h.flag]);
    assert h.Record()[FLAG] == h.Record()[FLAG..FLAG + 1][0];
    RecordText(h, LINKNAME, 100, h.link);
  }

  lemma RecordOwners(h: Header)
    requires h.Fits() && NulFree(h.uname) && NulFree(h.gname)
    ensures CStr(h.Record()[UNAME..]) == h.uname && CStr(h.Record()[GNAME..]) == h.gname
  {
    RecordText(h, UNAME, 32, h.uname);
    RecordText(h, GNAME, 32, h.gname);
  }

  /** The numbers of a printed record are the ones printed, whether or not snprintf cut the field. */
  lemma RecordNumbers(h: Header, mode: nat, uid: nat, gid: nat, mtime: nat)
    requires h.Fits()
    requires h.mode == OctField(mode, 6, 8) && h.uid == OctField(uid, 6, 8) && h.gid == OctField(gid, 6, 8)
    requires h.mtime == OctField(mtime, 11, 12)
    requires mode < 0x20_0000 && uid < 0x20_0000 && gid < 0x20_0000 && mtime <= INT_MAX
    ensures OctAtoi(h.Record()[MODE..]) == mode && OctAtoi(h.Record()[UID..]) == uid
    ensures OctAtoi(h.Record()[GID..]) == gid && OctAtoi(h.Record()[MTIME..]) == mtime
  {
    PowersOfEight();
    RecordField(h, MODE, 8, h.mode);
    NumberAt(h.Record(), MODE, mode, 6, 8);
    RecordField(h, UID, 8, h.uid);
    NumberAt(h.Record(), UID, uid, 6, 8);
    RecordField(h, GID, 8, h.gid);
    NumberAt(h.Record(), GID, gid, 6, 8);
    RecordField(h, MTIME, 12, h.mtime);
    NumberAt(h.Record(), MTIME, mtime, 11, 12);
  }

  lemma RecordSize(h: Header, size: nat)
    requires h.size == OctField(size, 11, 12) && size <= INT_MAX
    ensures OctAtoi(h.Record()[SIZE..]) == size
  {
    PowersOfEight();
    RecordField(h, SIZE, 12, h.size);
    NumberAt(h.Record(), SIZE, size, 11, 12);
  }

  lemma RecordInode(h: Header, ino: nat)
    requires h.ino == OctField(ino, 11, 12) && ino <= INT_MAX
    ensures OctAtoi(h.Record()[SHARED..]) == ino
  {
    PowersOfEight();
    RecordField(h, SHARED, 12, h.ino);
    NumberAt(h.Record(), SHARED, ino, 11, 12);
  }
}
