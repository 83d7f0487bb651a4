/** No restore makes a directory that only stands above what is selected. */
module TarAbove {
  import opened Bytes
  import opened Octal
  import opened TarHeader
  import opened Selection
  import opened TarRestore
  import opened RestorePath

  /** A path that a directory gets whose name does not only stand above a selection. */
  ghost predicate OfSelected(c: Choice, path: Str) {
    exists name :: Target(c, name) == Some(path) && Wanted(c, name).kind != Parent
  }

  ghost predicate AllOfSelected(c: Choice, made: seq<Restored>) {
    forall i :: 0 <= i < |made| && made[i].NewDir? ==> OfSelected(c, made[i].path)
  }

  lemma OneMore(c: Choice, made: seq<Restored>, made': seq<Restored>)
    requires AllOfSelected(c, made)
    requires made' == made || exists m: Restored ::
               (m.NewDir? ==> OfSelected(c, m.path)) && made' == made + [m]
    ensures AllOfSelected(c, made')
  {
    hide OfSelected;
  }

  lemma DirOfSelected(c: Choice, st: St, rec: seq<byte>)
    requires AllOfSelected(c, st.made)
    ensures AllOfSelected(c, OnDir(c, st, rec).made)
  {
    hide Target, Wanted, PopTo, Name;
    var name, path := Name(st, rec), Target(c, Name(st, rec));
    var made := OnDir(c, st, rec).made;
    if made != st.made {
      assert Target(c, name) == Some(path.value) && Wanted(c, name).kind != Parent;
      var m := NewDir(path.value, st.acls);
      assert OfSelected(c, m.path) && made == st.made + [m];
    }
    hide OfSelected, OnDir;
    OneMore(c, st.made, made);
  }

  lemma ProcessOfSelected(c: Choice, st: St, rec: seq<byte>, size: int, s: seq<byte>, pos: nat)
    requires |rec| == RECORDSIZE && Process(c, st, rec, size, s, pos).Some? && AllOfSelected(c, st.made)
    ensures AllOfSelected(c, Process(c, st, rec, size, s, pos).value.0.made)
  {
    hide OctAtoi, OnFile, OnLongName, OnLongLink, OnAcl, OnHuge, OnSym, OnDir, OnFifo, OnQueuedLink, AllOfSelected;
    var ino := OctAtoi(rec[SHARED..]);
    var flag := rec[FLAG];
    if flag == LF_DIR {
      DirOfSelected(c, st, rec);
    } else if flag == LF_LINK && !(ino != 0 && ino in st.links) && rec[0] != 0 {
      OnFileMakes(c, st, rec, size, Some(ino), s, pos);
      OneMore(c, st.made, OnFile(c, st, rec, size, Some(ino), s, pos).value.0.made);
    } else if (flag == LF_OLDNORMAL && rec[0] != 0) || flag == LF_NORMAL || flag == LF_CONTIG {
      OnFileMakes(c, st, rec, size, None, s, pos);
      OneMore(c, st.made, OnFile(c, st, rec, size, None, s, pos).value.0.made);
    } else {
      OthersMade(c, st, rec, size, s, pos);
      OneMore(c, st.made, Process(c, st, rec, size, s, pos).value.0.made);
    }
  }

  lemma StepOfSelected(c: Choice, st: St, s: seq<byte>, pos: nat)
    requires Step(c, st, s, pos).Some? && AllOfSelected(c, st.made)
    ensures AllOfSelected(c, Step(c, st, s, pos).value.0.made)
  {
    hide Process, Verify, OctAtoi, FieldsOf, AllOfSelected;
    if st.multi {
      ProcessOfSelected(c, st.(multi := false, last := 0), FakeRecord(st.last), st.left, s, pos);
    } else if Verify(s[pos..][..RECORDSIZE]) == 1 {
      var rec := s[pos..][..RECORDSIZE];
      ProcessOfSelected(c, LoadHeader(st, rec), rec, OctAtoi(rec[SIZE..]), s, pos + RECORDSIZE);
    }
  }

  /** Every round has less of the stream before it, or is the one that follows a volume change. */
  lemma StepDown(c: Choice, st: St, s: seq<byte>, pos: nat)
    requires Sane(st) && Step(c, st, s, pos).Some?
    ensures var (st', pos') := Step(c, st, s, pos).value;
      && Sane(st') && pos' >= pos
      && (if st.multi then !st'.multi else pos' >= pos + RECORDSIZE && pos + RECORDSIZE <= |s|)
  {
    hide Process, Verify, OctAtoi, FieldsOf;
    StepSane(c, st, s, pos);
    StepAdvances(c, st, s, pos);
  }

  lemma {:induction false} RunOfSelected(c: Choice, st: St, s: seq<byte>, pos: nat)
    requires Sane(st) && AllOfSelected(c, st.made)
    ensures AllOfSelected(c, Run(c, st, s, pos).0.made)
    decreases if pos <= |s| then |s| - pos else 0, st.multi
  {
    hide AllOfSelected, Process, Verify, Step, Sane;
    if Step(c, st, s, pos).Some? {
      StepDown(c, st, s, pos);
      StepOfSelected(c, st, s, pos);
      RunOfSelected(c, Step(c, st, s, pos).value.0, s, Step(c, st, s, pos).value.1);
    }
  }

  /**
   * On every stream, with plain selections: each directory that is made has the path of a name that does not stand
   * strictly above every selection.
   */
  lemma NoneFromAbove(c: Choice, links: map<int, Option<Str>>, s: seq<byte>, from: nat, i: nat)
    requires Plain(c) && i < |Restore(c, links, s, from).made| && Restore(c, links, s, from).made[i].NewDir?
    ensures exists name :: Target(c, name) == Some(Restore(c, links, s, from).made[i].path) && !AboveAll(c, name)
  {
    hide Run, Target, Wanted, AboveAll, Plain;
    RunOfSelected(c, Start(links), s, from);
    var made := Restore(c, links, s, from).made;
    assert OfSelected(c, made[i].path);
    var name :| Target(c, name) == Some(made[i].path) && Wanted(c, name).kind != Parent;
    TargetFound(c, name);
    if AboveAll(c, name) {
      AboveAllIsParent(c, name);
    }
  }

  /**
   * So a directory strictly above every selection is never made. With full paths nothing is made at its place; else
   * it has no place.
   */
  lemma AboveNeverMade(c: Choice, m: Maker, links: map<int, Option<Str>>, s: seq<byte>, from: nat, d: Str)
    requires Serves(c, m) && Plain(c) && AboveAll(c, d) && d != [] && d[0] == SLASH
    ensures m.full ==> forall r :: r in Restore(c, links, s, from).made && r.NewDir? ==>
              Some(r.path) != CatPath(m.restorePath, d)
    ensures !m.full ==> Target(c, d).None?
  {
    hide Run, AboveAll, Plain, Wanted, NewName, CatPath, Joins, StripSlashes, Restore;
    if m.full {
      forall r | r in Restore(c, links, s, from).made && r.NewDir? ensures Some(r.path) != CatPath(m.restorePath, d) {
        var i :| 0 <= i < |Restore(c, links, s, from).made| && Restore(c, links, s, from).made[i] == r;
        NoneFromAbove(c, links, s, from, i);
        var path := r.path;
        var name :| Target(c, name) == Some(path) && !AboveAll(c, name);
        FullTarget(c, m, name);
        CatPathJoins(m.restorePath, name);
        CatPathJoins(m.restorePath, d);
        if CatPath(m.restorePath, d) == Some(path) {
          if StripSlashes(name) != StripSlashes(d) {
            JoinsDiffer(path, path, m.restorePath, name, d);
          }
          SameAbove(c, name, d);
        }
      }
    } else {
      AboveNoPath(c, m, d);
    }
  }

  lemma TargetFound(c: Choice, name: Str)
    requires Target(c, name).Some?
    ensures Wanted(c, name).found
  {
    hide Wanted;
  }

  lemma FullTarget(c: Choice, m: Maker, name: Str)
    requires Serves(c, m) && m.full && Target(c, name).Some?
    ensures Target(c, name) == CatPath(m.restorePath, name)
  {
    hide Wanted, CatPath;
    assert c.rename(Wanted(c, name).pos, name) == NewName(m, Wanted(c, name).pos, name);
  }

  lemma SameAbove(c: Choice, a: Str, b: Str)
    requires StripSlashes(a) == StripSlashes(b)
    ensures AboveAll(c, a) <==> AboveAll(c, b)
  {
  }

  lemma AboveNoPath(c: Choice, m: Maker, d: Str)
    requires Serves(c, m) && Plain(c) && !m.full && AboveAll(c, d) && d != [] && d[0] == SLASH
    ensures Target(c, d).None?
  {
    var key, sel := StripSlashes(d), StripSlashes(c.sels[0]);
    assert Trimmed(sel) && key + [SLASH] <= sel && c.sels[0] == m.nlist[0].opath;
    AboveIsParent(sel, key);
    assert Behind(key, sel)[|sel| - |key| - 1] == sel[|sel| - 1] != SLASH;
    NoSelection();
    hide KindOf, StripSlashes, CatPath, MkRsp, OnlySlashes;
    TargetIs(c, m, d);
    NotSlashes(Behind(key, sel), |sel| - |key| - 1);
    assert !SelectsAll(c) && Hits(c, 0, key) && FirstHit(c, 0, key) == 0;
  }

  lemma NotSlashes(s: Str, i: nat)
    requires i < |s| && s[i] != SLASH
    ensures !OnlySlashes(s)
  {
  }
}
