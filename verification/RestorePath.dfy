/** The path a wanted name is restored under: mkrsp and mknewname over the name list of a restore (ndmpd_tar_v3.c). */
module RestorePath {
  import opened Bytes
  import opened Selection
  import opened TarRestore

  /** An entry of the name list: what was selected, and where to put it. */
  datatype NameEntry = NameEntry(opath: Str, dpath: Option<Str>)

  /**
   * What the daemon's name maker works on: the name list, whether restores keep full paths (restore-fullpath), the
   * restore path, and the byte that lies in memory before the name.
   */
  datatype Maker = Maker(nlist: seq<NameEntry>, full: bool, restorePath: Str, before: byte)

  /** How far two strings are the same. */
  function Common(a: Str, b: Str): (k: nat)
    ensures k <= |a| && k <= |b| && a[..k] == b[..k]
    ensures k < |a| && k < |b| ==> a[k] != b[k]
  {
    if a == [] || b == [] || a[0] != b[0] then 0 else
      var k := 1 + Common(a[1..], b[1..]);
      assert a[..k] == [a[0]] + a[1..][..k - 1] && b[..k] == [b[0]] + b[1..][..k - 1];
      k
  }

  lemma CommonIs(a: Str, b: Str, k: nat)
    requires k <= |a| && k <= |b| && a[..k] == b[..k] && (k < |a| && k < |b| ==> a[k] != b[k])
    ensures Common(a, b) == k
  {
    var n := Common(a, b);
    assert forall i :: 0 <= i < n ==> a[i] == a[..n][i] == b[..n][i] == b[i];
    assert forall i :: 0 <= i < k ==> a[i] == a[..k][i] == b[..k][i] == b[i];
  }

  predicate AtBoundary(s: Str) {
    s == [] || s[0] == SLASH
  }

  function DestOf(dest: Option<Str>): Str {
    if dest.Some? then dest.value else [SLASH]
  }

  /** The byte before what is left of the name behind its first k characters. */
  function ByteBefore(name: Str, k: nat, before: byte): byte
    requires k <= |StripSlashes(name)|
  {
    if k > 0 then StripSlashes(name)[k - 1]
    else if |StripSlashes(name)| < |name| then SLASH else before
  }

  /** mkrsp, with a selection. */
  function MkRsp(name: Str, sel: Str, dest: Option<Str>, before: byte): Option<Str> {
    var p, s := StripSlashes(name), StripSlashes(sel);
    var k := Common(p, s);
    if !(AtBoundary(p[k..]) && AtBoundary(s[k..])) && (s[k..] != [] || ByteBefore(name, k, before) != SLASH) then None
    else if p[k..] == [] && StripSlashes(s[k..]) != [] then None
    else CatPath(DestOf(dest), p[k..])
  }

  /** mkrsp, moving along both strings. */
  method MakeRestorePath(name: Str, sel: Str, dest: Option<Str>, before: byte) returns (path: Option<Str>)
    ensures path == MkRsp(name, sel, dest, before)
  {
    var p, s := StripSlashes(name), StripSlashes(sel);
    var last := if |p| < |name| then SLASH else before;
    var k := 0;
    while k < |s| && k < |p| && s[k] == p[k]
      invariant k <= |s| && k <= |p| && p[..k] == s[..k]
      invariant last == ByteBefore(name, k, before)
    {
      last := p[k];
      k := k + 1;
    }
    CommonIs(p, s, k);
    if !AtBoundary(p[k..]) || !AtBoundary(s[k..]) {
      if s[k..] != [] || last != SLASH {
        return None;
      }
    }
    if p[k..] == [] && s[k..] != [] {
      if |StripSlashes(s[k..])| > 0 {
        return None;
      }
    }
    return CatPath(DestOf(dest), p[k..]);
  }

  /** mknewname. */
  function NewName(m: Maker, idx: nat, name: Str): Option<Str> {
    if m.full then CatPath(m.restorePath, name)
    else if idx >= |m.nlist| then None
    else MkRsp(name, m.nlist[idx].opath, m.nlist[idx].dpath, m.before)
  }

  // ---- what mkrsp does with a name that a selection has matched ----

  /** The part of a name behind a selection. */
  function Behind(sel: Str, name: Str): Str {
    if |name| <= |sel| then [] else name[|sel|..]
  }

  lemma {:induction false} StrippedAway(s: Str)
    ensures StripSlashes(s) == [] <==> OnlySlashes(s)
  {
    if s != [] && s[0] == SLASH {
      StrippedAway(s[1..]);
      assert OnlySlashes(s) <==> OnlySlashes(s[1..]) by {
        assert forall i :: 0 < i < |s| ==> s[i] == s[1..][i - 1];
      }
    }
  }

  /** tlm_cat_path with a slash. */
  lemma WithSlash(p: Str)
    ensures CatPath(p, [SLASH]) ==
              if |p| + 2 >= PATH_MAX then None
              else if p != [] && p[|p| - 1] == SLASH then Some(p) else Some(p + [SLASH])
  {
    assert StripSlashes([SLASH]) == [] && p + [] == p;
  }

  /** A selection that is the name, or differs from it by a slash at the end. */
  lemma ExactPath(name: Str, sel: Str, dest: Option<Str>, before: byte)
    requires KindOf(StripSlashes(sel), StripSlashes(name), false) == Exact
    ensures MkRsp(name, sel, dest, before) == CatPath(DestOf(dest), [])
    ensures Behind(StripSlashes(sel), StripSlashes(name)) == []
  {
    var p, s := StripSlashes(name), StripSlashes(sel);
    WithSlash(p);
    CommonIs(p, s, |p|);
    assert p[|p|..] == [];
    StrippedAway(s[|p|..]);
  }

  /** A name below the selection goes to the destination and the part behind the selection. */
  lemma ChildPath(name: Str, sel: Str, dest: Option<Str>, before: byte)
    requires KindOf(StripSlashes(sel), StripSlashes(name), false) == Child
    ensures MkRsp(name, sel, dest, before) ==
              CatPath(DestOf(dest), Behind(StripSlashes(sel), StripSlashes(name)))
  {
    var p, s := StripSlashes(name), StripSlashes(sel);
    WithSlash(s);
    var t := CatPath(s, [SLASH]).value;
    assert t <= p && s <= t && s != [];
    assert p[..|s|] == t[..|s|] == s;
    CommonIs(p, s, |s|);
    assert s[|s|..] == [];
    if s[|s| - 1] != SLASH {
      assert p[|s|] == t[|s|] == SLASH;
    }
  }

  /** A name above the selection gets no path, unless the selection goes on with slashes only. */
  lemma ParentPath(name: Str, sel: Str, dest: Option<Str>, before: byte)
    requires KindOf(StripSlashes(sel), StripSlashes(name), false) == Parent
    ensures var p, s := StripSlashes(name), StripSlashes(sel);
      && |p| < |s|
      && MkRsp(name, sel, dest, before) == if OnlySlashes(s[|p|..]) then CatPath(DestOf(dest), []) else None
  {
    var p, s := StripSlashes(name), StripSlashes(sel);
    WithSlash(p);
    var t := CatPath(p, [SLASH]).value;
    assert t <= s && p <= t && p != [];
    assert s[..|p|] == t[..|p|] == p;
    assert |p| < |s|;
    CommonIs(p, s, |p|);
    assert p[|p|..] == [];
    StrippedAway(s[|p|..]);
    if p[|p| - 1] != SLASH {
      assert s[|p|] == t[|p|] == SLASH;
    }
  }

  /** An empty selection: the name without its leading slashes. */
  lemma EmptySelectionPath(name: Str, sel: Str, dest: Option<Str>, before: byte)
    requires OnlySlashes(sel) && name != [] && name[0] == SLASH
    ensures MkRsp(name, sel, dest, before) == CatPath(DestOf(dest), StripSlashes(name))
  {
    StrippedAway(sel);
    CommonIs(StripSlashes(name), [], 0);
    assert StripSlashes(name)[0..] == StripSlashes(name);
    StripShorter(name);
  }

  lemma StripShorter(name: Str)
    requires name != [] && name[0] == SLASH
    ensures |StripSlashes(name)| < |name|
  {
  }

  // ---- the restore of a session ----

  function Opaths(nlist: seq<NameEntry>): (r: seq<Str>)
    ensures |r| == |nlist|
  {
    seq(|nlist|, i requires 0 <= i < |nlist| => nlist[i].opath)
  }

  /** What ndmpd_rs_sar_tar_v3 hands to tar_getdir: its name list as selections, no exclusions, no flags, mknewname. */
  ghost predicate Serves(c: Choice, m: Maker) {
    && c.sels == Opaths(m.nlist) && c.exls == [] && !c.wild && !c.icase
    && forall pos, name :: c.rename(pos, name) == NewName(m, pos, name)
  }

  /**
   * Where a name goes. The first selection that is the name, or stands above or below it, decides: the destination and
   * what is behind the selection, and nowhere when the name only stands above it; or the restore path and the name.
   */
  ghost function PlaceOf(c: Choice, m: Maker, name: Str): Option<Str> {
    var key := StripSlashes(name);
    if SelectsAll(c) then
      if m.full then CatPath(m.restorePath, name)
      else if m.nlist == [] then None
      else CatPath(DestOf(m.nlist[0].dpath), key)
    else
      var i := FirstHit(c, 0, key);
      if i >= |m.nlist| then None
      else if m.full then CatPath(m.restorePath, name)
      else
        var sel, dest := StripSlashes(m.nlist[i].opath), DestOf(m.nlist[i].dpath);
        if KindOf(sel, key, false) != Parent then CatPath(dest, Behind(sel, key))
        else if OnlySlashes(Behind(key, sel)) then CatPath(dest, []) else None
  }

  /** The path of every name, for every name list and with both settings of restore-fullpath. */
  lemma TargetIs(c: Choice, m: Maker, name: Str)
    requires Serves(c, m) && name != [] && name[0] == SLASH
    ensures Target(c, name) == PlaceOf(c, m, name)
  {
    var key := StripSlashes(name);
    hide MkRsp, KindOf, StripSlashes, CatPath, OnlySlashes;
    if SelectsAll(c) {
      assert c.rename(0, name) == NewName(m, 0, name);
      if m.nlist != [] {
        assert c.sels[0] == m.nlist[0].opath;
        EmptySelectionPath(name, [], m.nlist[0].dpath, m.before);
      }
    } else {
      var i := FirstHit(c, 0, key);
      assert !Excluded(c.exls, key);
      if i < |m.nlist| {
        assert c.rename(i, name) == NewName(m, i, name) && c.sels[i] == m.nlist[i].opath;
        MatchedPath(name, m.nlist[i].opath, m.nlist[i].dpath, m.before);
      }
    }
  }

  lemma MatchedPath(name: Str, sel: Str, dest: Option<Str>, before: byte)
    requires KindOf(StripSlashes(sel), StripSlashes(name), false) != NoMatch
    ensures var p, s := StripSlashes(name), StripSlashes(sel);
      MkRsp(name, sel, dest, before) ==
        if KindOf(s, p, false) != Parent then CatPath(DestOf(dest), Behind(s, p))
        else if OnlySlashes(Behind(p, s)) then CatPath(DestOf(dest), []) else None
  {
    hide MkRsp, StripSlashes, CatPath, OnlySlashes;
    var kind := KindOf(StripSlashes(sel), StripSlashes(name), false);
    hide KindOf;
    match kind
    case Exact => ExactPath(name, sel, dest, before);
    case Child => ChildPath(name, sel, dest, before);
    case Parent => ParentPath(name, sel, dest, before);
  }

  // ---- the restore of one tree ----

  /** Where a restore of one tree puts its names: whole below a directory, or what is below a root below another. */
  datatype Way = FullPath(dir: Str) | Below(root: Str, dir: Str)

  function Part(w: Way, name: Str): Str {
    match w
    case FullPath(_) => name
    case Below(root, _) => Behind(root, StripSlashes(name))
  }

  function Place(w: Way, name: Str): Option<Str> {
    CatPath(w.dir, Part(w, name))
  }

  /** Whether the path that a name gets is short enough. */
  predicate Fits(w: Way, name: Str) {
    |w.dir| + |Part(w, name)| + 1 < PATH_MAX
  }

  function WayOf(m: Maker): Way
    requires |m.nlist| == 1
  {
    if m.full then FullPath(m.restorePath) else Below(StripSlashes(m.nlist[0].opath), DestOf(m.nlist[0].dpath))
  }

  /** A root without slashes at its ends, short enough to be compared with the names below it. */
  predicate GoodRoot(root: Str) {
    root != [] && root[0] != SLASH && root[|root| - 1] != SLASH && |root| + 2 < PATH_MAX
  }

  /** The root itself or below it. */
  predicate InTree(root: Str, key: Str) {
    key == root || root + [SLASH] <= key
  }

  lemma TreeKind(root: Str, key: Str)
    requires GoodRoot(root) && InTree(root, key)
    ensures KindOf(root, key, false) == if key == root then Exact else Child
  {
    WithSlash(key);
    WithSlash(root);
  }

  /** A name of the one tree selected is wanted, does not only stand above it, and goes where the way says. */
  lemma TreePlace(c: Choice, m: Maker, name: Str)
    requires Serves(c, m) && |m.nlist| == 1 && name != [] && name[0] == SLASH
    requires GoodRoot(StripSlashes(m.nlist[0].opath)) && InTree(StripSlashes(m.nlist[0].opath), StripSlashes(name))
    ensures Target(c, name) == Place(WayOf(m), name) && Wanted(c, name).found && Wanted(c, name).kind != Parent
  {
    var root, key := StripSlashes(m.nlist[0].opath), StripSlashes(name);
    TargetIs(c, m, name);
    TreeKind(root, key);
    assert c.sels[0] == m.nlist[0].opath && !SelectsAll(c);
    hide KindOf, StripSlashes, MkRsp, CatPath;
    assert Hits(c, 0, key) && FirstHit(c, 0, key) == 0 && !Excluded(c.exls, key);
  }

  /**
   * The path written out: the destination, one slash, and what is below the root. Without a destination that is the
   * root directory.
   */
  lemma TreePath(c: Choice, m: Maker, rest: Str)
    requires Serves(c, m) && |m.nlist| == 1 && !m.full && rest != [] && rest[0] != SLASH
    requires var root := StripSlashes(m.nlist[0].opath); GoodRoot(root)
    ensures var name := [SLASH] + StripSlashes(m.nlist[0].opath) + [SLASH] + rest;
            var dest := m.nlist[0].dpath;
            Target(c, name) ==
              if |DestOf(dest)| + |rest| + 2 >= PATH_MAX then None
              else if dest.None? || dest.value == [] || EndsInSlash(dest.value)
              then Some((if dest.None? || dest.value == [] then [SLASH] else dest.value) + rest)
              else Some(dest.value + [SLASH] + rest)
  {
    var root, dest := StripSlashes(m.nlist[0].opath), m.nlist[0].dpath;
    var name := [SLASH] + root + [SLASH] + rest;
    assert name[1..] == root + [SLASH] + rest;
    NoneStripped(root + [SLASH] + rest);
    assert (root + [SLASH] + rest)[|root|..] == [SLASH] + rest;
    TreePlace(c, m, name);
    NoneStripped(rest);
    assert StripSlashes([SLASH] + rest) == rest by { assert ([SLASH] + rest)[1..] == rest; }
    assert Part(WayOf(m), name) == [SLASH] + rest;
    hide StripSlashes, Target;
    if dest.Some? && dest.value != [] && !EndsInSlash(dest.value) {
      assert dest.value + ([SLASH] + rest) == dest.value + [SLASH] + rest;
    } else if dest.Some? && dest.value == [] {
      assert [] + ([SLASH] + rest) == [SLASH] + rest;
    }
  }

  /** The same when the name list selects everything, as "/" of the backup path "/" does. */
  lemma AllPlace(c: Choice, m: Maker, name: Str)
    requires Serves(c, m) && |m.nlist| == 1 && m.nlist[0].opath == [] && name != [] && name[0] == SLASH
    ensures Target(c, name) == Place(WayOf(m), name) && Wanted(c, name).found && Wanted(c, name).kind != Parent
  {
    TargetIs(c, m, name);
    assert c.sels[0] == [];
    hide StripSlashes, MkRsp, CatPath;
    assert StripSlashes([]) == [] by { StrippedAway([]); }
    assert Behind([], StripSlashes(name)) == StripSlashes(name);
  }
}
