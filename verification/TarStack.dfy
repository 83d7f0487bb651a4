/** What the parser keeps on every stream: the directory stack is nested, and names and links keep their bounds. */
module TarStack {
  import opened Bytes
  import opened Octal
  import opened TarHeader
  import opened Selection
  import opened TarRestore

  /** Each directory's path occurs in those of all directories above it on the stack. */
  predicate Nested(dirs: seq<DirAttr>) {
    forall i, j :: 0 <= i < j < |dirs| ==> Contains(dirs[j].path, dirs[i].path)
  }

  /** No text collected for a name or a link is longer than MAX_PATH_NAME, the NUL behind it not counted. */
  predicate InBounds(st: St) {
    && st.nmEnd <= MAX_PATH_NAME && st.lnkEnd <= MAX_PATH_NAME
    && |st.longname| <= MAX_PATH_NAME && |st.longlink| <= MAX_PATH_NAME && |st.hugename| < MAX_PATH_NAME
  }

  predicate Kept(st: St) {
    Nested(st.dirs) && InBounds(st)
  }

  lemma ContainsTrans(a: Str, b: Str, c: Str)
    requires Contains(a, b) && Contains(b, c)
    ensures Contains(a, c)
  {
    var i :| 0 <= i <= |a| - |b| && a[i..][..|b|] == b;
    var j :| 0 <= j <= |b| - |c| && b[j..][..|c|] == c;
    assert a[i + j..][..|c|] == a[i..][..|b|][j..][..|c|] == c;
  }

  /** From a nested stack just the directories that do not occur in the path are popped, the top one first. */
  lemma {:induction false} PopToMeans(dirs: seq<DirAttr>, attrSet: seq<DirAttr>, path: Str)
    requires Nested(dirs)
    ensures var (d, a) := PopTo(dirs, attrSet, path);
      && |d| <= |dirs| && d == dirs[..|d|]
      && (forall i :: 0 <= i < |dirs| ==> (i < |d| <==> Contains(path, dirs[i].path)))
      && |a| == |attrSet| + |dirs| - |d| && a[..|attrSet|] == attrSet
      && (forall k :: |attrSet| <= k < |a| ==> a[k] == dirs[|dirs| - 1 - (k - |attrSet|)])
    decreases |dirs|
  {
    hide Contains;
    if dirs != [] {
      var top := dirs[|dirs| - 1];
      if Contains(path, top.path) {
        forall i | 0 <= i < |dirs| ensures Contains(path, dirs[i].path) {
          if i < |dirs| - 1 {
            ContainsTrans(path, top.path, dirs[i].path);
          }
        }
      } else {
        PopToMeans(dirs[..|dirs| - 1], attrSet + [top], path);
      }
    }
  }

  lemma NestedPop(dirs: seq<DirAttr>, attrSet: seq<DirAttr>, path: Str, attr: DirAttr)
    requires Nested(dirs) && attr.path == path
    ensures var (d, a) := PopTo(dirs, attrSet, path); Nested(d) && Nested(d + [attr])
  {
    hide Contains, PopTo;
    PopToMeans(dirs, attrSet, path);
  }

  lemma FileKept(c: Choice, st: St, rec: seq<byte>, size: int, hard: Option<int>, s: seq<byte>, pos: nat)
    requires |rec| == RECORDSIZE && OnFile(c, st, rec, size, hard, s, pos).Some? && Kept(st)
    ensures Kept(OnFile(c, st, rec, size, hard, s, pos).value.0)
  {
    hide Target, PopTo, Avail, Past, Payload, AddLink, RestoreFile, Nested;
    var path := Target(c, FileName(st, rec));
    if path.Some? {
      NestedPop(st.dirs, st.attrSet, path.value, DirAttr(path.value, st.acls));
    }
    FileKeeps(st, path, if Avail(s, pos, size) then Payload(s, pos, size) else [], size);
    assert |FileName(st, rec)| <= MAX_PATH_NAME;
    hide FileName;
  }

  lemma FileKeeps(st: St, path: Option<Str>, data: Str, size: int)
    ensures var st1 := RestoreFile(st, path, data, size);
      st1 == st.(fp := st1.fp, made := st1.made, acls := st1.acls)
  {
  }

  lemma DirKept(c: Choice, st: St, rec: seq<byte>)
    requires Kept(st)
    ensures Kept(OnDir(c, st, rec))
  {
    hide Target, Wanted, PopTo, Name, Nested;
    var path := Target(c, Name(st, rec));
    if path.Some? {
      NestedPop(st.dirs, st.attrSet, path.value, DirAttr(path.value, st.acls));
    }
  }

  lemma TextsKept(st: St, size: int, s: seq<byte>, pos: nat)
    requires Kept(st)
    ensures OnLongName(st, size, s, pos).Some? ==> Kept(OnLongName(st, size, s, pos).value.0)
    ensures OnLongLink(st, size, s, pos).Some? ==> Kept(OnLongLink(st, size, s, pos).value.0)
  {
    hide Nested, Round, Past;
  }

  lemma LoadsKept(st: St, size: int, s: seq<byte>, pos: nat)
    requires Kept(st)
    ensures OnAcl(st, size, s, pos).Some? ==> Kept(OnAcl(st, size, s, pos).value.0)
    ensures OnHuge(st, size, s, pos).Some? ==> Kept(OnHuge(st, size, s, pos).value.0)
  {
    hide Nested, Payload, Avail, Past, FirstWord, CStr, Atoll;
  }

  lemma MakesKept(c: Choice, st: St, rec: seq<byte>, ino: int)
    requires |rec| == RECORDSIZE && Kept(st)
    ensures Kept(OnSym(c, st, rec)) && Kept(OnFifo(c, st, rec))
    ensures ino in st.links ==> Kept(OnQueuedLink(c, st, rec, ino))
  {
    hide Target, Wanted, CStr, Name, Nested;
  }

  lemma ProcessKept(c: Choice, st: St, rec: seq<byte>, size: int, s: seq<byte>, pos: nat)
    requires |rec| == RECORDSIZE && Process(c, st, rec, size, s, pos).Some? && Kept(st)
    ensures Kept(Process(c, st, rec, size, s, pos).value.0)
  {
    hide OctAtoi, OnFile, OnLongName, OnLongLink, OnAcl, OnHuge, OnSym, OnDir, OnFifo, OnQueuedLink, Nested;
    var ino := OctAtoi(rec[SHARED..]);
    DirKept(c, st, rec);
    TextsKept(st, size, s, pos);
    LoadsKept(st, size, s, pos);
    MakesKept(c, st, rec, ino);
    if OnFile(c, st, rec, size, Some(ino), s, pos).Some? {
      FileKept(c, st, rec, size, Some(ino), s, pos);
    }
    if OnFile(c, st, rec, size, None, s, pos).Some? {
      FileKept(c, st, rec, size, None, s, pos);
    }
  }

  lemma StepKept(c: Choice, st: St, s: seq<byte>, pos: nat)
    requires Step(c, st, s, pos).Some? && Kept(st)
    ensures Kept(Step(c, st, s, pos).value.0)
  {
    hide Process, Verify, OctAtoi, FieldsOf, Nested;
    if st.multi {
      ProcessKept(c, st.(multi := false, last := 0), FakeRecord(st.last), st.left, s, pos);
    } else if Verify(s[pos..][..RECORDSIZE]) == 1 {
      var rec := s[pos..][..RECORDSIZE];
      ProcessKept(c, LoadHeader(st, rec), rec, OctAtoi(rec[SIZE..]), s, pos + RECORDSIZE);
    }
  }

  /** The state and the position after n rounds, or when the stream has ended. */
  ghost function Rounds(c: Choice, st: St, s: seq<byte>, pos: nat, n: nat): (St, nat)
    decreases n
  {
    if n == 0 || Step(c, st, s, pos).None? then (st, pos)
    else Rounds(c, Step(c, st, s, pos).value.0, s, Step(c, st, s, pos).value.1, n - 1)
  }

  lemma {:induction false} RoundsKept(c: Choice, st: St, s: seq<byte>, pos: nat, n: nat)
    requires Kept(st)
    ensures Kept(Rounds(c, st, s, pos, n).0)
    decreases n
  {
    hide Kept, Step;
    if n > 0 && Step(c, st, s, pos).Some? {
      StepKept(c, st, s, pos);
      RoundsKept(c, Step(c, st, s, pos).value.0, s, Step(c, st, s, pos).value.1, n - 1);
    }
  }

  /** After any number of rounds on whatever stream the stack is nested and the names keep their bounds. */
  lemma EveryRoundKept(c: Choice, links: map<int, Option<Str>>, s: seq<byte>, from: nat, n: nat)
    ensures Kept(Rounds(c, Start(links), s, from, n).0)
  {
    hide Rounds;
    RoundsKept(c, Start(links), s, from, n);
  }
}
