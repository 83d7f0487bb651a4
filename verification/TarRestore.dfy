/** What tar_getdir does with a stream of bytes: one record after the other, over its whole state. */
module TarRestore {
  import opened Bytes
  import opened Octal
  import opened TarHeader
  import opened Selection

  /** tlm_acls: the attributes of the last header and the payload of the last ACL record. */
  datatype Acls = Acls(attr: Fields, acl: Option<Str>)

  const NO_ACLS := Acls(Fields(0, 0, 0, 0, [], []), None)

  /** An object put back on disk, with the attributes set on it (a directory's are set when it is popped). */
  datatype Restored =
    | NewDir(path: Str, acls: Acls)
    | NewSym(path: Str, target: Str, acls: Acls)
    | NewHard(path: Str, target: Str, acls: Acls)
    | NewFile(path: Str, data: Str, acls: Acls)
    | NewFifo(path: Str, acls: Acls)

  /** The file behind fp: where it is and what has been written to it. */
  datatype OpenFile = OpenFile(path: Str, data: Str)

  datatype DirAttr = DirAttr(path: Str, acls: Acls)

  /** The locals of tar_getdir, the hard-link queue, and what has been done to the disk. */
  datatype St = St(
    longname: Str, nmEnd: nat, longlink: Str, lnkEnd: nat, hugename: Str, hugeSize: int,
    fp: Option<OpenFile>, acls: Acls, aclSpot: int, links: map<int, Option<Str>>,
    multi: bool, last: byte, left: int,
    dirs: seq<DirAttr>,         // the directory stack, top last
    made: seq<Restored>,        // objects put back, in order
    attrSet: seq<DirAttr>)      // directory attributes set, in order

  function Start(links: map<int, Option<Str>>): St {
    St([], 0, [], 0, [], 0, None, NO_ACLS, 0, links, false, 0, 0, [], [], [])
  }

  /** strstr */
  predicate Contains(s: Str, t: Str) {
    exists i :: 0 <= i <= |s| - |t| && s[i..][..|t|] == t
  }

  /** Directories the new path is not inside are popped and get their attributes. */
  function PopTo(dirs: seq<DirAttr>, attrSet: seq<DirAttr>, path: Str): (seq<DirAttr>, seq<DirAttr>) {
    if dirs == [] || Contains(path, dirs[|dirs| - 1].path) then (dirs, attrSet)
    else PopTo(dirs[..|dirs| - 1], attrSet + [dirs[|dirs| - 1]], path)
  }

  /** The end of tar_getdir: everything left on the stack is popped. */
  function PopAll(dirs: seq<DirAttr>, attrSet: seq<DirAttr>): seq<DirAttr> {
    if dirs == [] then attrSet else PopAll(dirs[..|dirs| - 1], attrSet + [dirs[|dirs| - 1]])
  }

  predicate Avail(s: seq<byte>, pos: nat, size: int) {
    size <= 0 || pos + Round(size) <= |s|
  }

  function Payload(s: seq<byte>, pos: nat, size: int): Str
    requires Avail(s, pos, size)
  {
    if size <= 0 then [] else s[pos..][..size]
  }

  function Past(pos: nat, size: int): nat {
    pos + if size <= 0 then 0 else Round(size)
  }

  function Name(st: St, rec: seq<byte>): Str {
    if st.longname == [] then CStr(rec) else st.longname
  }

  /** The new path for a wanted name, None when the name is not wanted or its path is too long. */
  ghost function Target(c: Choice, name: Str): Option<Str> {
    var w := Wanted(c, name);
    if w.found then c.rename(w.pos, name) else None
  }

  function ClearNames(st: St): St {
    st.(longname := [], nmEnd := 0, longlink := [], lnkEnd := 0)
  }

  /** A link to an inode that is queued: no data follows. */
  ghost function OnQueuedLink(c: Choice, st: St, rec: seq<byte>, ino: int): St
    requires ino in st.links
  {
    var path := Target(c, Name(st, rec));
    ClearNames(if path.Some? && st.links[ino].Some?
               then st.(made := st.made + [NewHard(path.value, st.links[ino].value, st.acls)], acls := NO_ACLS)
               else st)
  }

  /** The name a regular file goes by. */
  function FileName(st: St, rec: seq<byte>): Str
    requires rec != []
  {
    if st.hugename != [] then st.hugename
    else if st.longname != [] then st.longname
    else if rec[0] != SLASH then [SLASH] + CStr(rec)
    else CStr(rec)
  }

  /** A file goes by an absolute path, whatever its header says, unless a long name says otherwise. */
  lemma FileNameIsAbsolute(st: St, rec: seq<byte>)
    requires rec != [] && st.hugename == [] && st.longname == []
    ensures var name := FileName(st, rec);
      && name != [] && name[0] == SLASH && StripSlashes(name) == StripSlashes(CStr(rec))
      && (CStr(rec) != [] && CStr(rec)[0] == SLASH ==> name == CStr(rec))
  {
    assert ([SLASH] + CStr(rec))[1..] == CStr(rec);
  }

  /** The file is closed after its last section. */
  function CloseFile(st: St, size: int): St {
    if st.fp.Some? && st.hugeSize - size <= 0
    then st.(fp := None, made := st.made + [NewFile(st.fp.value.path, st.fp.value.data, st.acls)], acls := NO_ACLS)
    else st
  }

  /** restore_file: write what is wanted, close after the last section. */
  function RestoreFile(st: St, path: Option<Str>, data: Str, size: int): St {
    var fp := if st.fp.None? && path.Some? then Some(OpenFile(path.value, [])) else st.fp;
    var fp' := if fp.Some? && path.Some? then Some(fp.value.(data := fp.value.data + data)) else fp;
    CloseFile(st.(fp := fp'), size)
  }

  /** hardlink_q_add: the first link stays. */
  function AddLink(links: map<int, Option<Str>>, ino: int, path: Option<Str>): map<int, Option<Str>> {
    if ino in links then links else links[ino := path]
  }

  function Max0(n: int): int {
    if n < 0 then 0 else n
  }

  /** A regular file, or the first link to an inode; hard holds the inode of an LF_LINK header. */
  ghost function OnFile(c: Choice, st: St, rec: seq<byte>, size: int, hard: Option<int>,
                        s: seq<byte>, pos: nat): Option<(St, nat)>
    requires rec != []
  {
    if !Avail(s, pos, size) then None else
      var name := FileName(st, rec);
      var path := Target(c, name);
      var st1 := RestoreFile(st, path, Payload(s, pos, size), size);
      var st2 := if hard.Some? then st1.(links := AddLink(st.links, hard.value, path)) else st1;
      var (dirs, attrSet) := if path.Some? then PopTo(st.dirs, st.attrSet, path.value) else (st.dirs, st.attrSet);
      var huge := Max0(st.hugeSize - size);
      var st3 := st2.(dirs := dirs, attrSet := attrSet, hugeSize := huge, longname := name, left := 0);
      Some((if huge == 0 then ClearNames(st3).(hugename := []) else st3, Past(pos, size)))
  }

  ghost function OnSym(c: Choice, st: St, rec: seq<byte>): St
    requires |rec| == RECORDSIZE
  {
    var path := Target(c, Name(st, rec));
    var target := if st.longlink == [] then CStr(rec[LINKNAME..]) else st.longlink;
    ClearNames(if path.Some?
               then st.(made := st.made + [NewSym(path.value, target, st.acls)], acls := NO_ACLS)
               else st)
  }

  ghost function OnDir(c: Choice, st: St, rec: seq<byte>): St {
    var name := Name(st, rec);
    var path := Target(c, name);
    ClearNames(if path.Some? && Wanted(c, name).kind != Parent
               then var (dirs, attrSet) := PopTo(st.dirs, st.attrSet, path.value);
                    st.(made := st.made + [NewDir(path.value, st.acls)], acls := NO_ACLS,
                        dirs := dirs + [DirAttr(path.value, st.acls)], attrSet := attrSet)
               else st)
  }

  ghost function OnFifo(c: Choice, st: St, rec: seq<byte>): St {
    var path := Target(c, Name(st, rec));
    ClearNames(if path.Some?
               then st.(made := st.made + [NewFifo(path.value, st.acls)], acls := NO_ACLS)
               else st)
  }

  /** min and max here compare unsigned numbers, so a negative size asks for all the room there is. */
  function LongSize(size: int, end: nat): nat {
    var room := if end <= MAX_PATH_NAME then MAX_PATH_NAME - end else 0;
    if 0 <= size < room then size else room
  }

  /** Text written at offset end of a C string, and a NUL behind it. */
  function Splice(text: Str, end: nat, bytes: Str): Str {
    if end <= |text| then text[..end] + CStr(bytes) else text
  }

  function OnLongLink(st: St, size: int, s: seq<byte>, pos: nat): Option<(St, nat)> {
    var n := LongSize(size, st.lnkEnd);
    if !Avail(s, pos, n) then None else
      Some((st.(longlink := Splice(st.longlink, st.lnkEnd, Payload(s, pos, n)), lnkEnd := st.lnkEnd + n, left := 0),
            Past(pos, n)))
  }

  function OnLongName(st: St, size: int, s: seq<byte>, pos: nat): Option<(St, nat)> {
    var n := LongSize(size, st.nmEnd);
    if !Avail(s, pos, n) then None else
      Some((st.(longname := Splice(st.longname, st.nmEnd, Payload(s, pos, n)), nmEnd := st.nmEnd + n, left := 0),
            Past(pos, n)))
  }

  /** load_acl_info: the payload is kept as it is. */
  function OnAcl(st: St, size: int, s: seq<byte>, pos: nat): Option<(St, nat)> {
    if !Avail(s, pos, size) then None else
      var was := if st.aclSpot == 0 || st.acls.acl.None? then [] else st.acls.acl.value;
      var kept := if st.aclSpot == 0 then NO_ACLS.attr else st.acls.attr;
      var bytes := Payload(s, pos, size);
      Some((st.(acls := Acls(kept, Some(was + bytes)), aclSpot := st.aclSpot + |bytes|,
                left := if size < 0 then size else 0),
            Past(pos, size)))
  }

  /** parse(&line, " "): the first word, one character at least, and what follows the blanks behind it. */
  function FirstWord(line: Str): (Str, Str) {
    if line == [] then ([], []) else
      var n := 1 + WordLength(line[1..]);
      (line[..n], SkipBlanks(line[n..]))
  }

  function WordLength(s: Str): (n: nat)
    ensures n <= |s|
  {
    if s == [] || s[0] == BLANK then 0 else 1 + WordLength(s[1..])
  }

  /** get_humongus_file_header: an old record has size 0 and takes a whole record. */
  function OnHuge(st: St, size: int, s: seq<byte>, pos: nat): Option<(St, nat)> {
    var n := if size == 0 then RECORDSIZE else size;
    if !Avail(s, pos, n) then None
    else if n < 0 then Some((st.(hugename := [], hugeSize := 0), pos))
    else
      var (word, rest) := FirstWord(CStr(Payload(s, pos, n)));
      Some((st.(hugename := if |rest| < MAX_PATH_NAME then rest else rest[..MAX_PATH_NAME - 1],
                hugeSize := Atoll(word)), Past(pos, n)))
  }

  /** The switch on the link flag; pos is behind the header. */
  ghost function Process(c: Choice, st: St, rec: seq<byte>, size: int, s: seq<byte>, pos: nat): Option<(St, nat)>
    requires |rec| == RECORDSIZE
  {
    var flag := rec[FLAG];
    if flag == LF_MULTIVOL then Some((st.(multi := true), pos))
    else if flag == LF_LINK then
      var ino := OctAtoi(rec[SHARED..]);
      if ino != 0 && ino in st.links then Some((OnQueuedLink(c, st, rec, ino), pos))
      else if rec[0] == 0 then Some((st, pos))
      else OnFile(c, st, rec, size, Some(ino), s, pos)
    else if flag == LF_OLDNORMAL && rec[0] == 0 then Some((st, pos))
    else if flag == LF_OLDNORMAL || flag == LF_NORMAL || flag == LF_CONTIG then OnFile(c, st, rec, size, None, s, pos)
    else if flag == LF_SYMLINK then Some((OnSym(c, st, rec), pos))
    else if flag == LF_DIR then Some((OnDir(c, st, rec), pos))
    else if flag == LF_FIFO then Some((OnFifo(c, st, rec), pos))
    else if flag == LF_LONGLINK then OnLongLink(st, size, s, pos)
    else if flag == LF_LONGNAME then OnLongName(st, size, s, pos)
    else if flag == LF_ACL then OnAcl(st, size, s, pos)
    else if flag == LF_HUMONGUS then OnHuge(st, size, s, pos)
    else Some((st, pos))
  }

  /** The header made up after a volume change: zeros and the flag of the interrupted action. */
  function FakeRecord(last: byte): (r: seq<byte>)
    ensures |r| == RECORDSIZE
  {
    Repeat(0, FLAG) + [last] + Repeat(0, RECORDSIZE - FLAG - 1)
  }

  /** What a header that passes its checksum leaves in the attributes. */
  function LoadHeader(st: St, rec: seq<byte>): St
    requires |rec| == RECORDSIZE
  {
    var flag := rec[FLAG];
    if flag == LF_MULTIVOL || flag == LF_VOLHDR then st
    else if flag == LF_HUMONGUS then st.(aclSpot := 0, last := flag)
    else st.(acls := st.acls.(attr := FieldsOf(rec)), aclSpot := 0, last := flag)
  }

  /** One round of the loop at pos; None when the record or its payload is not all there. */
  ghost function Step(c: Choice, st: St, s: seq<byte>, pos: nat): Option<(St, nat)> {
    if st.multi then Process(c, st.(multi := false, last := 0), FakeRecord(st.last), st.left, s, pos)
    else if pos + RECORDSIZE > |s| then None
    else
      var rec := s[pos..][..RECORDSIZE];
      if Verify(rec) != 1 then Some((st, pos + RECORDSIZE))
      else Process(c, LoadHeader(st, rec), rec, OctAtoi(rec[SIZE..]), s, pos + RECORDSIZE)
  }

  /** What no branch of the switch but that of a volume change does: go back, leave the stream, touch multi or last. */
  predicate Onward(st: St, r: Option<(St, nat)>, s: seq<byte>, pos: nat) {
    r.Some? ==>
      && r.value.1 >= pos && (pos <= |s| ==> r.value.1 <= |s|)
      && r.value.0.multi == st.multi && r.value.0.last == st.last
  }

  lemma FileOnward(c: Choice, st: St, rec: seq<byte>, size: int, hard: Option<int>, s: seq<byte>, pos: nat)
    requires rec != []
    ensures Onward(st, OnFile(c, st, rec, size, hard, s, pos), s, pos)
  {
    hide Target, FileName, PopTo, Payload, AddLink, Whole, Round;
  }

  lemma LoadsOnward(st: St, size: int, s: seq<byte>, pos: nat)
    ensures Onward(st, OnLongLink(st, size, s, pos), s, pos) && Onward(st, OnLongName(st, size, s, pos), s, pos)
    ensures Onward(st, OnAcl(st, size, s, pos), s, pos) && Onward(st, OnHuge(st, size, s, pos), s, pos)
  {
    hide Payload, Splice, CStr, FirstWord, Atoll, LongSize, Whole, Round;
  }

  lemma MakesOnward(c: Choice, st: St, rec: seq<byte>, ino: int, s: seq<byte>, pos: nat)
    requires |rec| == RECORDSIZE
    ensures Onward(st, Some((OnSym(c, st, rec), pos)), s, pos) && Onward(st, Some((OnDir(c, st, rec), pos)), s, pos)
    ensures Onward(st, Some((OnFifo(c, st, rec), pos)), s, pos)
    ensures ino in st.links ==> Onward(st, Some((OnQueuedLink(c, st, rec, ino), pos)), s, pos)
  {
    hide Target, Wanted, PopTo, CStr, Name;
  }

  lemma ProcessAdvances(c: Choice, st: St, rec: seq<byte>, size: int, s: seq<byte>, pos: nat)
    requires |rec| == RECORDSIZE && Process(c, st, rec, size, s, pos).Some?
    ensures Process(c, st, rec, size, s, pos).value.1 >= pos
    ensures rec[FLAG] != LF_MULTIVOL ==> Process(c, st, rec, size, s, pos).value.0.multi == st.multi
    ensures Process(c, st, rec, size, s, pos).value.0.last == st.last
    ensures pos <= |s| ==> Process(c, st, rec, size, s, pos).value.1 <= |s|
  {
    hide OctAtoi, OnFile, OnLongName, OnLongLink, OnAcl, OnHuge, OnSym, OnDir, OnFifo, OnQueuedLink;
    var ino := OctAtoi(rec[SHARED..]);
    FileOnward(c, st, rec, size, None, s, pos);
    FileOnward(c, st, rec, size, Some(ino), s, pos);
    LoadsOnward(st, size, s, pos);
    MakesOnward(c, st, rec, ino, s, pos);
  }

  /** Every round moves on in the stream, or is the one that follows a volume-change record. */
  lemma StepAdvances(c: Choice, st: St, s: seq<byte>, pos: nat)
    requires Step(c, st, s, pos).Some?
    ensures var (st', pos') := Step(c, st, s, pos).value;
            if st.multi then pos' >= pos && (st.last == LF_MULTIVOL || !st'.multi) else pos' >= pos + RECORDSIZE
  {
    if st.multi {
      ProcessAdvances(c, st.(multi := false, last := 0), FakeRecord(st.last), st.left, s, pos);
      assert FakeRecord(st.last)[FLAG] == st.last;
    } else if Verify(s[pos..][..RECORDSIZE]) == 1 {
      var rec := s[pos..][..RECORDSIZE];
      ProcessAdvances(c, LoadHeader(st, rec), rec, OctAtoi(rec[SIZE..]), s, pos + RECORDSIZE);
    }
  }

  /** The flag kept for a volume change is never that of the change itself. */
  predicate Sane(st: St) {
    st.last != LF_MULTIVOL
  }

  lemma StepSane(c: Choice, st: St, s: seq<byte>, pos: nat)
    requires Sane(st) && Step(c, st, s, pos).Some?
    ensures Sane(Step(c, st, s, pos).value.0)
  {
    if st.multi {
      ProcessAdvances(c, st.(multi := false, last := 0), FakeRecord(st.last), st.left, s, pos);
    } else if Verify(s[pos..][..RECORDSIZE]) == 1 {
      var rec := s[pos..][..RECORDSIZE];
      ProcessAdvances(c, LoadHeader(st, rec), rec, OctAtoi(rec[SIZE..]), s, pos + RECORDSIZE);
    }
  }

  /** The loop: rounds until the stream has no complete record left. */
  ghost function Run(c: Choice, st: St, s: seq<byte>, pos: nat): (St, nat)
    requires Sane(st)
    decreases if pos <= |s| then |s| - pos else 0, st.multi
  {
    var r := Step(c, st, s, pos);
    if r.None? then (st, pos)
    else
      assert Sane(r.value.0) &&
             (if st.multi then r.value.1 >= pos && !r.value.0.multi else r.value.1 >= pos + RECORDSIZE) by {
        StepSane(c, st, s, pos);
        StepAdvances(c, st, s, pos);
      }
      Run(c, r.value.0, s, r.value.1)
  }

  /** tar_getdir over a stream from where it stands, with the hard-link queue as it finds it. */
  ghost function Restore(c: Choice, links: map<int, Option<Str>>, s: seq<byte>, from: nat): St {
    var st := Run(c, Start(links), s, from).0;
    st.(dirs := [], attrSet := PopAll(st.dirs, st.attrSet))
  }

  /** One round, then the rest. */
  lemma RunStep(c: Choice, st: St, s: seq<byte>, pos: nat)
    requires Sane(st) && Step(c, st, s, pos).Some?
    ensures var (st', pos') := Step(c, st, s, pos).value; Sane(st') && Run(c, st, s, pos) == Run(c, st', s, pos')
  {
    StepSane(c, st, s, pos);
  }

  // ---- the directory stack ----

  /** The attributes that the restored directories ask for. */
  function DirsOf(made: seq<Restored>): multiset<DirAttr> {
    if made == [] then multiset{} else
      var m := made[|made| - 1];
      DirsOf(made[..|made| - 1]) + if m.NewDir? then multiset{DirAttr(m.path, m.acls)} else multiset{}
  }

  /** Every directory made is on the stack or has had its attributes set, as often as it was made. */
  ghost predicate Balanced(st: St) {
    multiset(st.dirs) + multiset(st.attrSet) == DirsOf(st.made)
  }

  lemma {:induction false} PopToKeeps(dirs: seq<DirAttr>, attrSet: seq<DirAttr>, path: Str)
    ensures var (d, a) := PopTo(dirs, attrSet, path); multiset(d) + multiset(a) == multiset(dirs) + multiset(attrSet)
    decreases |dirs|
  {
    if dirs != [] && !Contains(path, dirs[|dirs| - 1].path) {
      PopToKeeps(dirs[..|dirs| - 1], attrSet + [dirs[|dirs| - 1]], path);
      assert dirs == dirs[..|dirs| - 1] + [dirs[|dirs| - 1]];
    }
  }

  lemma {:induction false} PopAllKeeps(dirs: seq<DirAttr>, attrSet: seq<DirAttr>)
    ensures multiset(PopAll(dirs, attrSet)) == multiset(dirs) + multiset(attrSet)
    decreases |dirs|
  {
    if dirs != [] {
      PopAllKeeps(dirs[..|dirs| - 1], attrSet + [dirs[|dirs| - 1]]);
      assert dirs == dirs[..|dirs| - 1] + [dirs[|dirs| - 1]];
    }
  }

  lemma DirsSnoc(made: seq<Restored>, m: Restored)
    ensures DirsOf(made + [m]) == DirsOf(made) + if m.NewDir? then multiset{DirAttr(m.path, m.acls)} else multiset{}
  {
    assert (made + [m])[..|made|] == made;
  }

  /** What restoring a file does to the objects made and to the directory stack. */
  lemma OnFileMakes(c: Choice, st: St, rec: seq<byte>, size: int, hard: Option<int>, s: seq<byte>, pos: nat)
    requires rec != [] && OnFile(c, st, rec, size, hard, s, pos).Some?
    ensures var st' := OnFile(c, st, rec, size, hard, s, pos).value.0;
            var path := Target(c, FileName(st, rec));
            && (st'.made == st.made || exists m: Restored :: !m.NewDir? && st'.made == st.made + [m])
            && (st'.dirs, st'.attrSet) == if path.Some? then PopTo(st.dirs, st.attrSet, path.value)
                                          else (st.dirs, st.attrSet)
  {
    hide Target, FileName, PopTo, Avail, Past, Payload, AddLink;
  }

  lemma OnFileBalanced(c: Choice, st: St, rec: seq<byte>, size: int, hard: Option<int>, s: seq<byte>, pos: nat)
    requires rec != [] && OnFile(c, st, rec, size, hard, s, pos).Some? && Balanced(st)
    ensures Balanced(OnFile(c, st, rec, size, hard, s, pos).value.0)
  {
    hide OnFile, Target, FileName, PopTo, DirsOf;
    var path := Target(c, FileName(st, rec));
    if path.Some? {
      PopToKeeps(st.dirs, st.attrSet, path.value);
    }
    var st' := OnFile(c, st, rec, size, hard, s, pos).value.0;
    OnFileMakes(c, st, rec, size, hard, s, pos);
    if st'.made != st.made {
      var m: Restored :| !m.NewDir? && st'.made == st.made + [m];
      DirsSnoc(st.made, m);
    }
  }

  lemma OnDirBalanced(c: Choice, st: St, rec: seq<byte>)
    requires Balanced(st)
    ensures Balanced(OnDir(c, st, rec))
  {
    var path := Target(c, Name(st, rec));
    if path.Some? {
      PopToKeeps(st.dirs, st.attrSet, path.value);
      DirsSnoc(st.made, NewDir(path.value, st.acls));
    }
  }

  lemma MadeBalanced(st: St, st': St)
    requires Balanced(st) && st'.dirs == st.dirs && st'.attrSet == st.attrSet
    requires st'.made == st.made || exists m: Restored :: !m.NewDir? && st'.made == st.made + [m]
    ensures Balanced(st')
  {
    if st'.made != st.made {
      var m: Restored :| !m.NewDir? && st'.made == st.made + [m];
      DirsSnoc(st.made, m);
    }
  }

  lemma ProcessBalanced(c: Choice, st: St, rec: seq<byte>, size: int, s: seq<byte>, pos: nat)
    requires |rec| == RECORDSIZE && Process(c, st, rec, size, s, pos).Some? && Balanced(st)
    ensures Balanced(Process(c, st, rec, size, s, pos).value.0)
  {
    var st' := Process(c, st, rec, size, s, pos).value.0;
    var flag := rec[FLAG];
    var ino := OctAtoi(rec[SHARED..]);
    if flag == LF_DIR {
      OnDirBalanced(c, st, rec);
    } else if flag == LF_LINK && !(ino != 0 && ino in st.links) && rec[0] != 0 {
      OnFileBalanced(c, st, rec, size, Some(ino), s, pos);
    } else if (flag == LF_OLDNORMAL && rec[0] != 0) || flag == LF_NORMAL || flag == LF_CONTIG {
      OnFileBalanced(c, st, rec, size, None, s, pos);
    } else {
      OthersMade(c, st, rec, size, s, pos);
      MadeBalanced(st, st');
    }
  }

  lemma OthersMade(c: Choice, st: St, rec: seq<byte>, size: int, s: seq<byte>, pos: nat)
    requires |rec| == RECORDSIZE && Process(c, st, rec, size, s, pos).Some? && rec[FLAG] != LF_DIR
    requires rec[FLAG] == LF_LINK ==>
               rec[0] == 0 || (OctAtoi(rec[SHARED..]) != 0 && OctAtoi(rec[SHARED..]) in st.links)
    requires !((rec[FLAG] == LF_OLDNORMAL && rec[0] != 0) || rec[FLAG] == LF_NORMAL || rec[FLAG] == LF_CONTIG)
    ensures var st' := Process(c, st, rec, size, s, pos).value.0;
            && st'.dirs == st.dirs && st'.attrSet == st.attrSet
            && (st'.made == st.made || exists m: Restored :: !m.NewDir? && st'.made == st.made + [m])
  {
  }

  lemma {:induction false} RunBalanced(c: Choice, st: St, s: seq<byte>, pos: nat)
    requires Sane(st) && Balanced(st)
    ensures Balanced(Run(c, st, s, pos).0)
    decreases if pos <= |s| then |s| - pos else 0, st.multi
  {
    var r := Step(c, st, s, pos);
    if r.Some? {
      StepSane(c, st, s, pos);
      StepAdvances(c, st, s, pos);
      if st.multi {
        ProcessBalanced(c, st.(multi := false, last := 0), FakeRecord(st.last), st.left, s, pos);
      } else if Verify(s[pos..][..RECORDSIZE]) == 1 {
        var rec := s[pos..][..RECORDSIZE];
        ProcessBalanced(c, LoadHeader(st, rec), rec, OctAtoi(rec[SIZE..]), s, pos + RECORDSIZE);
      }
      RunBalanced(c, r.value.0, s, r.value.1);
    }
  }

  /** On every stream and selection, each directory that is made gets its attributes exactly once. */
  lemma EveryDirectoryPopped(c: Choice, links: map<int, Option<Str>>, s: seq<byte>, from: nat)
    ensures multiset(Restore(c, links, s, from).attrSet) == DirsOf(Restore(c, links, s, from).made)
  {
    RunBalanced(c, Start(links), s, from);
    var st := Run(c, Start(links), s, from).0;
    PopAllKeeps(st.dirs, st.attrSet);
  }
}
