/** The restore side: tar_getdir and its helpers at work on the shared read buffer (tlm_restore_writer.c). */
module TarRestorer {
  import opened Bytes
  import opened Octal
  import opened TarHeader
  import opened Selection
  import opened TarRestore
  import opened Buffers
  import HardlinkQueue

  /** What the parser keeps of a queue entry: the path of the first link, if it was restored. */
  ghost function Paths(links: map<int, HardlinkQueue.Link>): map<int, Option<Str>> {
    map i | i in links :: links[i].path
  }

  /** What a round has put back and remembered for good; the rest of the state dies with the loop. */
  ghost predicate Settled(st: St, was: St) {
    st.made == was.made && st.attrSet == was.attrSet && st.dirs == was.dirs && st.links == was.links
  }

  /** The outcome r of a specification step, against what a method left behind. */
  ghost predicate Outcome(r: Option<(St, nat)>, ok: bool, st: St, pos: int, was: St) {
    && ok == r.Some?
    && (ok ==> st == r.value.0 && pos == r.value.1)
    && (!ok ==> Settled(st, was))
  }

  /** parse with a blank: the first word and what follows the blanks behind it. */
  method ParseWord(line: Str) returns (word: Str, rest: Str)
    ensures (word, rest) == FirstWord(line)
  {
    if line == [] {
      return [], [];
    }
    var n := 1;
    while n < |line| && line[n] != BLANK
      invariant 1 <= n <= |line|
      invariant WordLength(line[1..]) == n - 1 + WordLength(line[n..])
    {
      n := n + 1;
    }
    word := line[..n];
    ghost var k := n;
    while n < |line| && line[n] == BLANK
      invariant k <= n <= |line|
      invariant SkipBlanks(line[k..]) == SkipBlanks(line[n..])
    {
      n := n + 1;
    }
    rest := line[n..];
  }

  class RestoreWriter {
    const c: Choice
    const rs: ReadBuffers
    const hardlinks: HardlinkQueue.Queue
    ghost const s: seq<byte>    // what the connection delivers in whole buffers

    var longname: Str
    var nmEnd: nat
    var longlink: Str
    var lnkEnd: nat
    var hugename: Str
    var hugeSize: int
    var fp: Option<OpenFile>
    var acls: Acls
    var aclSpot: int
    var multi: bool
    var last: byte
    var left: int
    var dirs: seq<DirAttr>
    var made: seq<Restored>     // what has been done to the disk
    var attrSet: seq<DirAttr>

    ghost predicate Valid()
      reads rs, rs.data, hardlinks, hardlinks.nodes
    {
      rs.Valid() && hardlinks.Valid() && s == rs.conn[..rs.limit] && 0 <= rs.Pos() <= rs.limit
    }

    ghost function Links(): map<int, Option<Str>>
      reads hardlinks
    {
      Paths(hardlinks.Links())
    }

    ghost function State(): St
      reads this, hardlinks
    {
      St(longname, nmEnd, longlink, lnkEnd, hugename, hugeSize, fp, acls, aclSpot, Links(), multi, last, left,
         dirs, made, attrSet)
    }

    /** The locals as tar_getdir starts them; the queue comes from the session. */
    constructor (c: Choice, rs: ReadBuffers, hardlinks: HardlinkQueue.Queue)
      requires rs.Valid() && hardlinks.Valid() && 0 <= rs.Pos() <= rs.limit
      ensures Valid() && State() == Start(Links())
      ensures this.c == c && this.rs == rs && this.hardlinks == hardlinks && s == rs.conn[..rs.limit]
    {
      this.c, this.rs, this.hardlinks, s := c, rs, hardlinks, rs.conn[..rs.limit];
      longname, nmEnd, longlink, lnkEnd, hugename, hugeSize := [], 0, [], 0, [], 0;
      fp, acls, aclSpot, multi, last, left := None, NO_ACLS, 0, false, 0, 0;
      dirs, made, attrSet := [], [], [];
    }

    /** What both reading loops take from the next piece: no more than is still wanted, its padding dropped. */
    method NextBytes(toread: nat, ghost pos: nat, ghost got: Str) returns (bytes: Option<Str>)
      requires Valid() && 0 < toread && Whole(|got|) && rs.Pos() == pos + |got| && got == s[pos..rs.Pos()]
      modifies rs, rs.data
      ensures Valid()
      ensures bytes.None? ==> !Avail(s, pos, |got| + toread)
      ensures bytes.Some? ==>
                && 0 < |bytes.value| <= toread
                && rs.Pos() == pos + Round(|got| + |bytes.value|)
                && got + bytes.value == s[pos..pos + |got| + |bytes.value|]
                && (|bytes.value| < toread ==> Whole(|got| + |bytes.value|))
    {
      assert rs.limit <= |rs.conn|;
      hide Round, ReadBuffers.Valid, ReadBuffers.Pos, HardlinkQueue.Queue.Valid;
      ghost var at := rs.Pos();
      var piece := rs.GetReadBuffer(toread);
      if piece.None? {
        RoundAdvance(|got|, |got| + toread);
        return None;
      }
      PieceRounds(toread, |piece.value|);
      var n := Min(|piece.value|, toread);
      RoundAdvance(|got|, |got| + n);
      Taken(rs.conn, rs.limit, pos, at, got, piece.value, n);
      return Some(piece.value[..n]);
    }

    /**
     * input_mem: piece after piece until the payload is in; the padding of the last piece is dropped.
     * None when the stream ends inside the payload.
     */
    method InputMem(len: int) returns (mem: Option<Str>)
      requires Valid()
      modifies rs, rs.data
      ensures Valid()
      ensures mem.Some? <==> Avail(s, old(rs.Pos()), len)
      ensures mem.Some? ==> mem.value == Payload(s, old(rs.Pos()), len) && rs.Pos() == Past(old(rs.Pos()), len)
    {
      assert rs.limit <= |rs.conn|;
      hide Round, ReadBuffers.Valid, ReadBuffers.Pos, HardlinkQueue.Queue.Valid;
      ghost var pos := rs.Pos();
      var got: Str := [];
      while |got| < len
        invariant Valid() && |got| <= Max0(len)
        invariant |got| < len ==> Whole(|got|)
        invariant rs.Pos() == pos + Round(|got|) && pos + |got| <= |s|
        invariant got == s[pos..pos + |got|]
      {
        var bytes := NextBytes(len - |got|, pos, got);
        if bytes.None? {
          return None;
        }
        got := got + bytes.value;
      }
      return Some(got);
    }

    /** The copying loop of restore_file: the data goes to the open file piece by piece, when it is wanted. */
    method CopyData(wanted: bool, size: int) returns (ok: bool)
      requires Valid() && (wanted ==> fp.Some?)
      modifies rs, rs.data, `fp
      ensures Valid()
      ensures ok <==> Avail(s, old(rs.Pos()), size)
      ensures ok ==> rs.Pos() == Past(old(rs.Pos()), size)
      ensures ok ==> fp == if wanted then Written(old(fp), Payload(s, old(rs.Pos()), size)) else old(fp)
    {
      assert rs.limit <= |rs.conn|;
      hide Round, ReadBuffers.Valid, ReadBuffers.Pos, HardlinkQueue.Queue.Valid, Written;
      ghost var pos := rs.Pos();
      var toread := size;
      ghost var got: Str := [];
      WrittenTwice(fp, [], []);
      while toread > 0
        invariant Valid() && |got| <= Max0(size) && toread == size - |got|
        invariant toread > 0 ==> Whole(|got|)
        invariant rs.Pos() == pos + Round(|got|) && pos + |got| <= |s|
        invariant got == s[pos..pos + |got|]
        invariant fp == if wanted then Written(old(fp), got) else old(fp)
      {
        var bytes := NextBytes(toread, pos, got);
        if bytes.None? {
          return false;
        }
        if wanted {
          WrittenTwice(old(fp), got, bytes.value);
          fp := Written(fp, bytes.value);
        }
        toread := toread - |bytes.value|;
        got := got + bytes.value;
      }
      assert got == Payload(s, pos, size);
      return true;
    }

    /** restore_file: the last section closes the file. */
    method RestoreData(path: Option<Str>, size: int) returns (ok: bool)
      requires Valid()
      modifies rs, rs.data, `fp, `made, `acls, `left
      ensures Valid()
      ensures ok <==> Avail(s, old(rs.Pos()), size)
      ensures ok ==> rs.Pos() == Past(old(rs.Pos()), size)
      ensures ok ==> State() == RestoreFile(old(State()), path, Payload(s, old(rs.Pos()), size), size).(left := 0)
      ensures !ok ==> Settled(State(), old(State()))
    {
      hide Round, Avail, Payload, Past, ReadBuffers.Valid, HardlinkQueue.Queue.Valid, RestoreWriter.Valid;
      hide ReadBuffers.Pos, Paths, HardlinkQueue.Queue.Links, CloseFile;
      if fp.None? && path.Some? {
        fp := Some(OpenFile(path.value, []));
      }
      ok := CopyData(path.Some?, size);
      if ok {
        CloseLast(size);
      }
    }

    /** restore_file once the data is through: the last section closes the file. */
    method CloseLast(size: int)
      modifies `fp, `made, `acls, `left
      ensures State() == CloseFile(old(State()), size).(left := 0)
    {
      hide Paths, HardlinkQueue.Queue.Links;
      if fp.Some? && hugeSize - size <= 0 {
        made := made + [NewFile(fp.value.path, fp.value.data, acls)];
        fp, acls := None, NO_ACLS;
      }
      left := 0;
    }

    /** Whether the name is wanted, and as what; the path it comes back under. */
    method NewPath(name: Str) returns (path: Option<Str>, kind: Kind)
      ensures path == Target(c, name) && kind == Wanted(c, name).kind
    {
      var w := IsFileWanted(c, name);
      return if w.found then c.rename(w.pos, name) else None, w.kind;
    }

    /** Directories the path is not inside are popped (dtree_pop). */
    method PopDirs(path: Str)
      modifies `dirs, `attrSet
      ensures (dirs, attrSet) == PopTo(old(dirs), old(attrSet), path)
    {
      while dirs != [] && !Contains(path, dirs[|dirs| - 1].path)
        invariant PopTo(dirs, attrSet, path) == PopTo(old(dirs), old(attrSet), path)
        decreases |dirs|
      {
        dirs, attrSet := dirs[..|dirs| - 1], attrSet + [dirs[|dirs| - 1]];
      }
    }

    method ClearNames()
      modifies `longname, `nmEnd, `longlink, `lnkEnd
      ensures State() == TarRestore.ClearNames(old(State()))
    {
      longname, nmEnd, longlink, lnkEnd := [], 0, [], 0;
    }

    /** LF_LINK when the inode is queued: a link to the path that is queued with it. */
    method RestoreLink(rec: seq<byte>, target: Option<Str>, ghost ino: int)
      requires |rec| == RECORDSIZE && ino in Links() && Links()[ino] == target
      modifies this
      ensures State() == OnQueuedLink(c, old(State()), rec, ino)
    {
      hide Target, Wanted, CStr, Paths;
      var path, kind := NewPath(if longname == [] then CStr(rec) else longname);
      if path.Some? && target.Some? {
        made := made + [NewHard(path.value, target.value, acls)];
        acls := NO_ACLS;
      }
      ClearNames();
    }

    /** The name a regular file goes by becomes the long name. */
    method TakeFileName(rec: seq<byte>)
      requires |rec| == RECORDSIZE
      modifies `longname
      ensures State() == old(State()).(longname := FileName(old(State()), rec))
    {
      if hugename != [] {
        longname := hugename;
      } else if longname == [] {
        longname := if rec[0] != SLASH then [SLASH] + CStr(rec) else CStr(rec);
      }
    }

    /** hardlink_q_add for the first link to an inode. */
    method QueueLink(hard: Option<int>, path: Option<Str>)
      requires Valid()
      modifies hardlinks
      ensures Valid() && State() == WithLink(old(State()), hard, path)
    {
      if hard.Some? {
        PathsAdd(hardlinks.Links(), hard.value, HardlinkQueue.Link(path, 0, false));
        var added := hardlinks.Add(hard.value, HardlinkQueue.Link(path, 0, false));
      }
    }

    /** After a section: directories are popped; the rest of a huge file is awaited, or the names are forgotten. */
    method EndSection(path: Option<Str>, size: int)
      modifies `hugeSize, `longname, `nmEnd, `longlink, `lnkEnd, `hugename, `dirs, `attrSet
      ensures State() == AfterSection(old(State()), path, size)
    {
      hide PopTo;
      if path.Some? {
        PopDirs(path.value);
      }
      hugeSize := hugeSize - size;
      if hugeSize < 0 {
        hugeSize := 0;
      }
      if hugeSize == 0 {
        ClearNames();
        hugename := [];
      }
    }

    /** What follows the data: the first path of an inode is queued, and the section is over. */
    method FinishFile(hard: Option<int>, path: Option<Str>, size: int)
      requires Valid()
      modifies hardlinks, `hugeSize, `longname, `nmEnd, `longlink, `lnkEnd, `hugename, `dirs, `attrSet
      ensures Valid() && State() == AfterSection(WithLink(old(State()), hard, path), path, size)
    {
      hide AfterSection, WithLink, ReadBuffers.Valid, ReadBuffers.Pos, HardlinkQueue.Queue.Valid, Paths,
           HardlinkQueue.Queue.Links, RestoreWriter.Valid;
      QueueLink(hard, path);
      EndSection(path, size);
    }

    /** The regular-file branch; hard holds the inode of an LF_LINK header. */
    method RestoreRegular(rec: seq<byte>, size: int, hard: Option<int>) returns (ok: bool)
      requires Valid() && |rec| == RECORDSIZE
      modifies this, rs, rs.data, hardlinks
      ensures Valid()
      ensures var r := OnFile(c, old(State()), rec, size, hard, s, old(rs.Pos()));
        Outcome(r, ok, State(), rs.Pos(), old(State()))
    {
      assert rs.Pos() >= 0;
      hide Round, RestoreFile, Target, Avail, Payload, Past, CStr, FileName, OnFile, WithLink, AfterSection,
           ReadBuffers.Valid, ReadBuffers.Pos, HardlinkQueue.Queue.Valid, HardlinkQueue.Queue.Links, Paths,
           RestoreWriter.Valid;
      ghost var st, pos := State(), rs.Pos();
      OnFileSteps(c, st, rec, size, hard, s, pos);
      TakeFileName(rec);
      var path, kind := NewPath(longname);
      ok := RestoreData(path, size);
      if ok {
        FinishFile(hard, path, size);
      }
    }

    method RestoreSym(rec: seq<byte>)
      requires |rec| == RECORDSIZE
      modifies this
      ensures State() == OnSym(c, old(State()), rec)
    {
      hide Target, Wanted, CStr, Paths;
      var path, kind := NewPath(if longname == [] then CStr(rec) else longname);
      var target := if longlink == [] then CStr(rec[LINKNAME..]) else longlink;
      if path.Some? {
        made := made + [NewSym(path.value, target, acls)];
        acls := NO_ACLS;
      }
      ClearNames();
    }

    method RestoreDir(rec: seq<byte>)
      requires |rec| == RECORDSIZE
      modifies this
      ensures State() == OnDir(c, old(State()), rec)
    {
      hide PopTo, Target, Wanted, CStr, Paths, HardlinkQueue.Queue.Links, TarRestore.ClearNames;
      var path, kind := NewPath(if longname == [] then CStr(rec) else longname);
      if path.Some? && kind != Parent {
        EnterDir(path.value);
      }
      ClearNames();
    }

    /** The directory is made and goes on the stack, once those it is not inside have left it. */
    method EnterDir(path: Str)
      modifies `made, `dirs, `attrSet, `acls
      ensures var st := old(State());
              var (d, a) := PopTo(st.dirs, st.attrSet, path);
              State() == st.(made := st.made + [NewDir(path, st.acls)], acls := NO_ACLS,
                             dirs := d + [DirAttr(path, st.acls)], attrSet := a)
    {
      hide PopTo, Paths, HardlinkQueue.Queue.Links;
      made := made + [NewDir(path, acls)];
      PopDirs(path);
      dirs := dirs + [DirAttr(path, acls)];
      acls := NO_ACLS;
    }

    method RestoreFifo(rec: seq<byte>)
      requires |rec| == RECORDSIZE
      modifies this
      ensures State() == OnFifo(c, old(State()), rec)
    {
      hide Target, Wanted, CStr, Paths;
      var path, kind := NewPath(if longname == [] then CStr(rec) else longname);
      if path.Some? {
        made := made + [NewFifo(path.value, acls)];
        acls := NO_ACLS;
      }
      ClearNames();
    }

    /** get_long_name into longname. */
    method LoadLongName(size: int) returns (ok: bool)
      requires Valid()
      modifies this, rs, rs.data
      ensures Valid()
      ensures var r := OnLongName(old(State()), size, s, old(rs.Pos())); Outcome(r, ok, State(), rs.Pos(), old(State()))
    {
      var n := LongSize(size, nmEnd);
      var bytes := InputMem(n);
      if bytes.None? {
        return false;
      }
      longname, nmEnd, left := Splice(longname, nmEnd, bytes.value), nmEnd + n, 0;
      return true;
    }

    /** get_long_name into longlink. */
    method LoadLongLink(size: int) returns (ok: bool)
      requires Valid()
      modifies this, rs, rs.data
      ensures Valid()
      ensures var r := OnLongLink(old(State()), size, s, old(rs.Pos())); Outcome(r, ok, State(), rs.Pos(), old(State()))
    {
      var n := LongSize(size, lnkEnd);
      var bytes := InputMem(n);
      if bytes.None? {
        return false;
      }
      longlink, lnkEnd, left := Splice(longlink, lnkEnd, bytes.value), lnkEnd + n, 0;
      return true;
    }

    /** load_acl_info. */
    method LoadAclInfo(size: int) returns (ok: bool)
      requires Valid()
      modifies this, rs, rs.data
      ensures Valid()
      ensures var r := OnAcl(old(State()), size, s, old(rs.Pos())); Outcome(r, ok, State(), rs.Pos(), old(State()))
    {
      hide Avail, Payload, Past, RestoreWriter.Valid;
      if aclSpot == 0 {
        acls := NO_ACLS;
      }
      var bytes := InputMem(size);
      if bytes.None? {
        return false;
      }
      var was := if acls.acl.None? then [] else acls.acl.value;
      acls := acls.(acl := Some(was + bytes.value));
      aclSpot, left := aclSpot + |bytes.value|, if size < 0 then size else 0;
      return true;
    }

    /** get_humongus_file_header. */
    method LoadHumongus(size: int) returns (ok: bool)
      requires Valid()
      modifies this, rs, rs.data
      ensures Valid()
      ensures var r := OnHuge(old(State()), size, s, old(rs.Pos())); Outcome(r, ok, State(), rs.Pos(), old(State()))
    {
      hide Round;
      var recsize := if size == 0 then RECORDSIZE else size;
      var bytes := InputMem(recsize);
      if bytes.None? {
        return false;
      }
      if |bytes.value| != recsize {
        hugename, hugeSize := [], 0;
        return true;
      }
      var word, rest := ParseWord(CStr(bytes.value));
      hugename, hugeSize := if |rest| < MAX_PATH_NAME then rest else rest[..MAX_PATH_NAME - 1], Atoll(word);
      return true;
    }

    /** The switch on the link flag. */
    method ProcessRecord(rec: seq<byte>, size: int) returns (ok: bool)
      requires Valid() && |rec| == RECORDSIZE
      modifies this, rs, rs.data, hardlinks
      ensures Valid()
      ensures var r := Process(c, old(State()), rec, size, s, old(rs.Pos()));
        Outcome(r, ok, State(), rs.Pos(), old(State()))
    {
      hide OnFile, OnSym, OnDir, OnFifo, OnQueuedLink, OnLongName, OnLongLink, OnAcl, OnHuge;
      var flag := rec[FLAG];
      ok := true;
      if flag == LF_MULTIVOL {
        multi := true;
      } else if flag == LF_LINK {
        var ino := OctAtoiLoop(rec[SHARED..]);
        var done: Option<HardlinkQueue.Link> := None;
        if ino != 0 {
          done := hardlinks.Get(ino);
        }
        if done.Some? {
          RestoreLink(rec, done.value.path, ino);
        } else if rec[0] != 0 {
          ok := RestoreRegular(rec, size, Some(ino));
        }
      } else if flag == LF_OLDNORMAL && rec[0] == 0 {
      } else if flag == LF_OLDNORMAL || flag == LF_NORMAL || flag == LF_CONTIG {
        ok := RestoreRegular(rec, size, None);
      } else if flag == LF_SYMLINK {
        RestoreSym(rec);
      } else if flag == LF_DIR {
        RestoreDir(rec);
      } else if flag == LF_FIFO {
        RestoreFifo(rec);
      } else if flag == LF_LONGLINK {
        ok := LoadLongLink(size);
      } else if flag == LF_LONGNAME {
        ok := LoadLongName(size);
      } else if flag == LF_ACL {
        ok := LoadAclInfo(size);
      } else if flag == LF_HUMONGUS {
        ok := LoadHumongus(size);
      }
    }

    /** The attributes of a header that passed its checksum. */
    method TakeHeader(rec: seq<byte>)
      requires |rec| == RECORDSIZE
      modifies `acls, `aclSpot, `last
      ensures State() == LoadHeader(old(State()), rec)
    {
      hide FieldsOf;
      if rec[FLAG] != LF_MULTIVOL && rec[FLAG] != LF_VOLHDR {
        if rec[FLAG] != LF_HUMONGUS {
          acls := acls.(attr := FieldsOf(rec));
        }
        aclSpot, last := 0, rec[FLAG];
      }
    }

    /** The round that follows a volume change: its header is made up. */
    method VolumeRound() returns (ok: bool)
      requires Valid() && multi
      modifies this, rs, rs.data, hardlinks
      ensures Valid()
      ensures var r := Step(c, old(State()), s, old(rs.Pos())); Outcome(r, ok, State(), rs.Pos(), old(State()))
    {
      hide Process, FakeRecord, RestoreWriter.Valid;
      var rec, size := FakeRecord(last), left;
      multi, last := false, 0;
      ok := ProcessRecord(rec, size);
    }

    /** The round of a record that has been read and verifies. */
    method HeaderRound(rec: seq<byte>) returns (ok: bool)
      requires Valid() && |rec| == RECORDSIZE
      modifies this, rs, rs.data, hardlinks
      ensures Valid()
      ensures var r := Process(c, LoadHeader(old(State()), rec), rec, OctAtoi(rec[SIZE..]), s, old(rs.Pos()));
        Outcome(r, ok, State(), rs.Pos(), old(State()))
    {
      hide Process, FieldsOf, OctAtoi, RestoreWriter.Valid;
      TakeHeader(rec);
      var size := OctAtoiLoop(rec[SIZE..]);
      ok := ProcessRecord(rec, size);
    }

    /** The next record of the stream. */
    method NextRecord() returns (rec: Option<seq<byte>>)
      requires Valid() && !multi
      modifies rs, rs.data
      ensures Valid()
      ensures rec.None? <==> old(rs.Pos()) + RECORDSIZE > |s|
      ensures rec.Some? ==>
                && |rec.value| == RECORDSIZE && rec.value == s[old(rs.Pos())..][..RECORDSIZE]
                && rs.Pos() == old(rs.Pos()) + RECORDSIZE
    {
      assert rs.limit <= |rs.conn|;
      hide ReadBuffers.Valid, ReadBuffers.Pos, HardlinkQueue.Queue.Valid;
      ghost var pos := rs.Pos();
      rec := rs.GetReadBuffer(RECORDSIZE);
      if rec.Some? {
        Taken(rs.conn, rs.limit, pos, pos, [], rec.value, RECORDSIZE);
        assert [] + rec.value[..RECORDSIZE] == rec.value;
      }
    }

    /** The round of the next record: one that does not verify is passed over. */
    method RecordRound() returns (ok: bool)
      requires Valid() && !multi
      modifies this, rs, rs.data, hardlinks
      ensures Valid()
      ensures var r := Step(c, old(State()), s, old(rs.Pos())); Outcome(r, ok, State(), rs.Pos(), old(State()))
    {
      hide Process, FieldsOf, LoadHeader, Verify, OctAtoi, ReadBuffers.Valid, ReadBuffers.Pos, RestoreWriter.Valid;
      var rec := NextRecord();
      if rec.None? {
        return false;
      }
      var chk := VfyTarChecksum(rec.value);
      if chk != 1 {
        return true;
      }
      ok := HeaderRound(rec.value);
    }

    /** One round of the loop. */
    method OneRound() returns (ok: bool)
      requires Valid()
      modifies this, rs, rs.data, hardlinks
      ensures Valid()
      ensures var r := Step(c, old(State()), s, old(rs.Pos())); Outcome(r, ok, State(), rs.Pos(), old(State()))
    {
      hide Process, FieldsOf, LoadHeader, Verify, OctAtoi, ReadBuffers.Pos;
      if multi {
        ok := VolumeRound();
      } else {
        ok := RecordRound();
      }
    }

    /** tar_getdir: rounds until the connection has no more, then the directory stack is emptied. */
    method GetDir()
      requires Valid() && State() == Start(Links())
      modifies this, rs, rs.data, hardlinks
      ensures var end := Restore(c, old(Links()), s, old(rs.Pos()));
              made == end.made && attrSet == end.attrSet && dirs == end.dirs && Links() == end.links
    {
      hide Step, Run;
      ghost var st0, from := State(), rs.Pos();
      ghost var going := true;
      var ok := true;
      while ok
        invariant Valid()
        invariant ok ==> Sane(State()) && Run(c, State(), s, rs.Pos()) == Run(c, st0, s, from)
        invariant !ok ==> Settled(State(), Run(c, st0, s, from).0)
        decreases ok, if rs.Pos() <= |s| then |s| - rs.Pos() else 0, multi
      {
        ghost var st, pos := State(), rs.Pos();
        StepSaneToo(c, st, s, pos);
        ok := OneRound();
        if ok {
          RunStep(c, st, s, pos);
          StepAdvances(c, st, s, pos);
        } else {
          RunEnds(c, st, s, pos);
        }
      }
      while dirs != []
        invariant PopAll(dirs, attrSet) == PopAll(Run(c, st0, s, from).0.dirs, Run(c, st0, s, from).0.attrSet)
        decreases |dirs|
        modifies `dirs, `attrSet
      {
        dirs, attrSet := dirs[..|dirs| - 1], attrSet + [dirs[|dirs| - 1]];
      }
    }
  }

  function WithLink(st: St, hard: Option<int>, path: Option<Str>): St {
    if hard.Some? then st.(links := AddLink(st.links, hard.value, path)) else st
  }

  function AfterSection(st: St, path: Option<Str>, size: int): St {
    var (dirs, attrSet) := if path.Some? then PopTo(st.dirs, st.attrSet, path.value) else (st.dirs, st.attrSet);
    var st' := st.(dirs := dirs, attrSet := attrSet, hugeSize := Max0(st.hugeSize - size));
    if st'.hugeSize == 0 then ClearNames(st').(hugename := []) else st'
  }

  /** The regular-file branch is naming, data, queue and the end of the section, in that order. */
  lemma OnFileSteps(c: Choice, st: St, rec: seq<byte>, size: int, hard: Option<int>, s: seq<byte>, pos: nat)
    requires rec != []
    ensures var name := FileName(st, rec);
            var path := Target(c, name);
            OnFile(c, st, rec, size, hard, s, pos) ==
              if !Avail(s, pos, size) then None else
                var st1 := RestoreFile(st.(longname := name), path, Payload(s, pos, size), size).(left := 0);
                Some((AfterSection(WithLink(st1, hard, path), path, size), Past(pos, size)))
  {
    hide Target, Wanted, CStr, Avail, Payload, Past, PopTo, FileName, AddLink, Round;
  }

  lemma PathsAdd(links: map<int, HardlinkQueue.Link>, ino: int, link: HardlinkQueue.Link)
    ensures Paths(links[ino := link]) == Paths(links)[ino := link.path]
  {
  }

  lemma StepSaneToo(c: Choice, st: St, s: seq<byte>, pos: nat)
    requires Sane(st)
    ensures Step(c, st, s, pos).Some? ==> Sane(Step(c, st, s, pos).value.0)
  {
    if Step(c, st, s, pos).Some? {
      StepSane(c, st, s, pos);
    }
  }

  lemma RunEnds(c: Choice, st: St, s: seq<byte>, pos: nat)
    requires Sane(st) && Step(c, st, s, pos).None?
    ensures Run(c, st, s, pos) == (st, pos)
  {
  }

  function Written(fp: Option<OpenFile>, bytes: Str): Option<OpenFile> {
    if fp.Some? then Some(OpenFile(fp.value.path, fp.value.data + bytes)) else fp
  }

  lemma WrittenTwice(fp: Option<OpenFile>, a: Str, b: Str)
    ensures Written(Written(fp, a), b) == Written(fp, a + b)
    ensures Written(fp, []) == fp
  {
    if fp.Some? {
      assert fp.value.data + a + b == fp.value.data + (a + b) && fp.value.data + [] == fp.value.data;
    }
  }

  /** A piece read at the stream position extends the payload read so far. */
  lemma Taken(conn: seq<byte>, limit: nat, pos: nat, at: nat, got: Str, piece: Str, n: nat)
    requires pos <= at == pos + |got| && at + |piece| <= limit <= |conn| && n <= |piece|
    requires got == conn[..limit][pos..at] && piece == conn[at..at + |piece|]
    ensures got + piece[..n] == conn[..limit][pos..at + n]
  {
  }
}
