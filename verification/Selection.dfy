/** Which archived names a restore wants (is_file_wanted) and under which path they come back. */
module Selection {
  import opened Bytes
  import opened Wildcard

  /** How a name relates to a selection: PM_NONE, PM_EXACT, PM_PARENT, PM_CHILD. */
  datatype Kind = NoMatch | Exact | Parent | Child

  /**
   * sels and exls are the selection and exclusion lists; rename stands for the name maker
   * (rs_new_name), which may find the new path too long.
   */
  datatype Choice = Choice(sels: seq<Str>, exls: seq<Str>, wild: bool, icase: bool, rename: (nat, Str) -> Option<Str>)

  datatype Want = Want(found: bool, kind: Kind, pos: nat)

  predicate OnlySlashes(s: Str) {
    forall i :: 0 <= i < |s| ==> s[i] == SLASH
  }

  function StripSlashes(s: Str): (r: Str)
    ensures r == [] || r[0] != SLASH
    ensures |r| <= |s|
  {
    if s != [] && s[0] == SLASH then StripSlashes(s[1..]) else s
  }

  /** What is taken off is slashes, and the rest stays. */
  lemma {:induction false} StripIs(s: Str)
    ensures var k := |s| - |StripSlashes(s)|; OnlySlashes(s[..k]) && s == s[..k] + StripSlashes(s)
  {
    if s != [] && s[0] == SLASH {
      StripIs(s[1..]);
      var k := |s| - |StripSlashes(s)|;
      assert s[..k] == [SLASH] + s[1..][..k - 1];
    }
  }

  function Upper(s: Str): (r: Str)
    ensures |r| == |s|
  {
    seq(|s|, i requires 0 <= i < |s| => if 97 <= s[i] <= 122 then s[i] - 32 else s[i])
  }

  /** tlm_cat_path: one slash between the two parts, nothing when the result may not fit. */
  function CatPath(dir: Str, name: Str): Option<Str> {
    if |dir| + |name| + 1 >= PATH_MAX then None
    else if dir != [] && dir[|dir| - 1] == SLASH && name != [] && name[0] == SLASH then Some(dir + StripSlashes(name))
    else if dir == [] || name == [] || dir[|dir| - 1] == SLASH || name[0] == SLASH then Some(dir + name)
    else Some(dir + [SLASH] + name)
  }

  predicate EndsInSlash(s: Str) {
    s != [] && s[|s| - 1] == SLASH
  }

  /**
   * r is dir and name as one path: dir first, the name without its leading slashes last, and between them slashes
   * only: none when dir ends in one, else those of the name, but at least one unless dir or name is empty.
   */
  predicate Joins(r: Str, dir: Str, name: Str) {
    var rest := StripSlashes(name);
    var at := |r| - |rest|;
    && |dir| <= at && r[..|dir|] == dir && OnlySlashes(r[|dir|..at]) && r[at..] == rest
    && at - |dir| == (if EndsInSlash(dir) then 0
                      else if dir != [] && name != [] && name[0] != SLASH then 1
                      else |name| - |rest|)
  }

  /** There is a joined path exactly when it is sure to fit, and it is the two parts with the slashes that they need. */
  lemma CatPathJoins(dir: Str, name: Str)
    ensures CatPath(dir, name).Some? <==> |dir| + |name| + 1 < PATH_MAX
    ensures CatPath(dir, name).Some? ==> Joins(CatPath(dir, name).value, dir, name)
  {
    if |dir| + |name| + 1 < PATH_MAX {
      var slashes := CatPathSlashes(dir, name);
      hide CatPath, StripSlashes;
      Assembled(dir, slashes, StripSlashes(name));
    }
  }

  /** The slashes between the two parts. */
  lemma CatPathSlashes(dir: Str, name: Str) returns (slashes: Str)
    requires |dir| + |name| + 1 < PATH_MAX
    ensures OnlySlashes(slashes) && CatPath(dir, name) == Some(dir + slashes + StripSlashes(name))
    ensures |slashes| == (if EndsInSlash(dir) then 0
                          else if dir != [] && name != [] && name[0] != SLASH then 1
                          else |name| - |StripSlashes(name)|)
  {
    StripIs(name);
    var rest := StripSlashes(name);
    NoneStripped(name);
    hide StripSlashes;
    if EndsInSlash(dir) {
      slashes := [];
      assert dir + [] + rest == dir + rest;
    } else if dir != [] && name != [] && name[0] != SLASH {
      slashes := [SLASH];
    } else {
      slashes := name[..|name| - |rest|];
      assert dir + name == dir + slashes + rest;
    }
  }

  lemma Assembled(dir: Str, slashes: Str, rest: Str)
    ensures var r := dir + slashes + rest; var at := |dir| + |slashes|;
      r[..|dir|] == dir && r[|dir|..at] == slashes && r[at..] == rest
  {
  }

  lemma NoneStripped(name: Str)
    ensures name == [] || name[0] != SLASH ==> StripSlashes(name) == name
  {
  }

  /** Names that differ behind their leading slashes are joined to different paths. */
  lemma JoinsDiffer(r1: Str, r2: Str, dir: Str, n1: Str, n2: Str)
    requires Joins(r1, dir, n1) && Joins(r2, dir, n2) && StripSlashes(n1) != StripSlashes(n2)
    ensures r1 != r2
  {
    var t1, t2 := StripSlashes(n1), StripSlashes(n2);
    hide StripSlashes;
    if r1 == r2 {
      SameSplit(r1, |dir|, |r1| - |t1|, |r2| - |t2|);
    }
  }

  /** A path has one place where the slashes from a given point on end. */
  lemma SameSplit(r: Str, k: nat, m1: nat, m2: nat)
    requires k <= m1 <= |r| && k <= m2 <= |r| && OnlySlashes(r[k..m1]) && OnlySlashes(r[k..m2])
    requires (m1 < |r| ==> r[m1] != SLASH) && (m2 < |r| ==> r[m2] != SLASH)
    ensures m1 == m2
  {
    hide OnlySlashes;
    if m1 < m2 {
      SlashAt(r, k, m2, m1);
    } else if m2 < m1 {
      SlashAt(r, k, m1, m2);
    }
  }

  lemma SlashAt(r: Str, k: nat, m: nat, i: nat)
    requires k <= i < m <= |r| && OnlySlashes(r[k..m])
    ensures r[i] == SLASH
  {
    assert r[i] == r[k..m][i - k];
  }

  /** The comparison function chosen by the wildcard flag. */
  ghost predicate Same(pattern: Str, name: Str, wild: bool) {
    if wild then Matches(Norm(pattern), name) else pattern == name
  }

  ghost predicate IsParent(parent: Str, child: Str, wild: bool) {
    if wild then
      var t := CatPath(parent, [STAR]);
      t.Some? && Matches(Norm(t.value), child)
    else
      var t := CatPath(parent, [SLASH]);
      t.Some? && t.value <= child
  }

  /** The four tries of is_file_wanted against one selection, in its order. */
  ghost function KindOf(sel: Str, name: Str, wild: bool): Kind {
    if Same(sel, name, wild) then Exact
    else if CatPath(name, [SLASH]).Some? && Same(sel, CatPath(name, [SLASH]).value, wild) then Exact
    else if IsParent(sel, name, wild) then Child
    else if IsParent(name, sel, wild) then Parent
    else NoMatch
  }

  /** The name as it is compared: no leading slashes, upper case when case is ignored. */
  function Key(name: Str, icase: bool): Str {
    if icase then Upper(StripSlashes(name)) else StripSlashes(name)
  }

  ghost predicate Hits(c: Choice, i: nat, key: Str)
    requires i < |c.sels|
  {
    KindOf(StripSlashes(c.sels[i]), key, c.wild) != NoMatch
  }

  ghost predicate Excluded(exls: seq<Str>, key: Str) {
    exists i :: 0 <= i < |exls| && Matches(Norm(StripSlashes(exls[i])), key)
  }

  predicate SelectsAll(c: Choice) {
    c.sels == [] || c.sels[0] == []
  }

  /** The first selection that hits, or the number of selections. */
  ghost function FirstHit(c: Choice, from: nat, key: Str): (i: nat)
    requires from <= |c.sels|
    ensures from <= i <= |c.sels|
    ensures i < |c.sels| ==> Hits(c, i, key)
    ensures forall j :: from <= j < i ==> !Hits(c, j, key)
    decreases |c.sels| - from
  {
    if from == |c.sels| || Hits(c, from, key) then from else FirstHit(c, from + 1, key)
  }

  ghost function Wanted(c: Choice, name: Str): Want {
    if SelectsAll(c) then Want(true, NoMatch, 0) else
      var key := Key(name, c.icase);
      var i := FirstHit(c, 0, key);
      if i == |c.sels| || Excluded(c.exls, key) then Want(false, NoMatch, 0)
      else Want(true, KindOf(StripSlashes(c.sels[i]), key, c.wild), i)
  }

  method MatchName(pattern: Str, name: Str, wild: bool) returns (r: bool)
    ensures r <==> Same(pattern, name, wild)
  {
    if wild {
      r := Match(pattern, name);
    } else {
      r := pattern == name;
    }
  }

  method IsParentOf(parent: Str, child: Str, wild: bool) returns (r: bool)
    ensures r <==> IsParent(parent, child, wild)
  {
    var t := CatPath(parent, if wild then [STAR] else [SLASH]);
    if t.None? {
      return false;
    }
    if wild {
      r := Match(t.value, child);
    } else {
      r := t.value <= child;
    }
  }

  method KindOfSelection(sel: Str, name: Str, wild: bool) returns (k: Kind)
    ensures k == KindOf(sel, name, wild)
  {
    var m := MatchName(sel, name, wild);
    if m {
      return Exact;
    }
    var retry := CatPath(name, [SLASH]);
    if retry.Some? {
      m := MatchName(sel, retry.value, wild);
      if m {
        return Exact;
      }
    }
    m := IsParentOf(sel, name, wild);
    if m {
      return Child;
    }
    m := IsParentOf(name, sel, wild);
    return if m then Parent else NoMatch;
  }

  /** exact_find over the exclusions. */
  method ExactFind(name: Str, list: seq<Str>) returns (found: bool)
    ensures found <==> Excluded(list, name)
  {
    for i := 0 to |list|
      invariant forall j :: 0 <= j < i ==> !Matches(Norm(StripSlashes(list[j])), name)
    {
      var m := Match(StripSlashes(list[i]), name);
      if m {
        return true;
      }
    }
    return false;
  }

  /** is_file_wanted: the first selection that matches decides, then the exclusions. */
  method IsFileWanted(c: Choice, name: Str) returns (w: Want)
    ensures w == Wanted(c, name)
  {
    if |c.sels| == 0 || c.sels[0] == [] {
      return Want(true, NoMatch, 0);
    }
    var key := Key(name, c.icase);
    var i := 0;
    var kind := NoMatch;
    while i < |c.sels|
      invariant 0 <= i <= |c.sels| && kind == NoMatch
      invariant FirstHit(c, 0, key) == FirstHit(c, i, key)
    {
      kind := KindOfSelection(StripSlashes(c.sels[i]), key, c.wild);
      if kind != NoMatch {
        break;
      }
      i := i + 1;
    }
    if i == |c.sels| {
      return Want(false, NoMatch, 0);
    }
    var excluded := ExactFind(key, c.exls);
    return if excluded then Want(false, NoMatch, 0) else Want(true, kind, i);
  }

  /** A path without slashes at its ends. */
  predicate Trimmed(p: Str) {
    p != [] && p[0] != SLASH && p[|p| - 1] != SLASH && |p| + 2 < PATH_MAX
  }

  /** Without wildcards a selection means itself, what lies below it, and the directories above it. */
  lemma PlainSelection(sel: Str, name: Str)
    requires Trimmed(sel) && Trimmed(name)
    ensures KindOf(sel, name, false) == Exact <==> sel == name
    ensures KindOf(sel, name, false) == Child <==> sel + [SLASH] <= name
    ensures KindOf(sel, name, false) == Parent <==> name + [SLASH] <= sel
  {
    assert CatPath(name, [SLASH]) == Some(name + [SLASH]) && CatPath(sel, [SLASH]) == Some(sel + [SLASH]);
    assert (name + [SLASH])[|name|] == SLASH;
    if sel + [SLASH] <= name {
      assert !(name + [SLASH] <= sel);
    }
  }

  /** A selection that ends in a slash means the same as without it. */
  lemma SlashedSelection(sel: Str, name: Str)
    requires Trimmed(sel) && Trimmed(name) && |sel| + 3 < PATH_MAX
    ensures KindOf(sel + [SLASH], name, false) == KindOf(sel, name, false)
  {
    PlainSelection(sel, name);
    assert StripSlashes([SLASH]) == [] by { assert [SLASH][1..] == []; }
    assert sel + [SLASH] + [] == sel + [SLASH];
    assert CatPath(name, [SLASH]) == Some(name + [SLASH]) && CatPath(sel + [SLASH], [SLASH]) == Some(sel + [SLASH]);
    hide CatPath, StripSlashes;
    if name + [SLASH] <= sel + [SLASH] {
      assert name == (sel + [SLASH])[..|name|] == sel[..|name|];
      if |name| < |sel| {
        assert name + [SLASH] == (sel + [SLASH])[..|name| + 1] == sel[..|name| + 1];
      }
    }
  }

  /** With wildcards: what matches the selection, with or without a slash behind it, is it; what matches it and a
      slash and anything is below it; and if the name, a slash and anything matches the selection, it is above it. */
  lemma WildSelection(sel: Str, name: Str)
    requires Trimmed(sel) && Trimmed(name)
    ensures var exact := Matches(Norm(sel), name) || Matches(Norm(sel), name + [SLASH]);
            var below := Matches(Norm(sel + [SLASH, STAR]), name);
            KindOf(sel, name, true) ==
              if exact then Exact else if below then Child
              else if Matches(Norm(name + [SLASH, STAR]), sel) then Parent else NoMatch
  {
    hide Matches, Norm;
    assert CatPath(name, [SLASH]) == Some(name + [SLASH]);
    assert CatPath(sel, [STAR]) == Some(sel + [SLASH] + [STAR]) && sel + [SLASH] + [STAR] == sel + [SLASH, STAR];
    assert CatPath(name, [STAR]) == Some(name + [SLASH] + [STAR]) && name + [SLASH] + [STAR] == name + [SLASH, STAR];
  }

  /** A name is a selection, below it, or above it. */
  predicate Related(sel: Str, name: Str) {
    sel == name || sel + [SLASH] <= name || name + [SLASH] <= sel
  }

  /** The choice of a restore that uses no wildcards, and does not take everything. */
  predicate Plain(c: Choice) {
    && !c.wild && !c.icase && c.sels != []
    && forall i :: 0 <= i < |c.sels| ==> Trimmed(StripSlashes(c.sels[i]))
  }

  /**
   * What is_file_wanted reports of a name, in these terms: whether any selection is related to it and no exclusion
   * matches it, which selection is the first, and whether the name is that selection, below it, or above it.
   */
  lemma PlainWanted(c: Choice, name: Str)
    requires Plain(c) && Trimmed(StripSlashes(name))
    ensures var w, key := Wanted(c, name), StripSlashes(name);
      && (w.found <==>
            && (exists i :: 0 <= i < |c.sels| && Related(StripSlashes(c.sels[i]), key))
            && !(exists i :: 0 <= i < |c.exls| && Matches(Norm(StripSlashes(c.exls[i])), key)))
      && (w.found ==>
            && w.pos < |c.sels| && (forall j :: 0 <= j < w.pos ==> !Related(StripSlashes(c.sels[j]), key))
            && var sel := StripSlashes(c.sels[w.pos]);
            && (w.kind == Exact <==> sel == key)
            && (w.kind == Child <==> sel + [SLASH] <= key)
            && (w.kind == Parent <==> key + [SLASH] <= sel))
  {
    hide StripSlashes, KindOf, Trimmed;
    var key := StripSlashes(name);
    assert StripSlashes(c.sels[0]) != [] by { NoSelection(); TrimmedSome(StripSlashes(c.sels[0])); }
    NoSelection();
    assert !SelectsAll(c);
    forall i | 0 <= i < |c.sels| ensures Hits(c, i, key) <==> Related(StripSlashes(c.sels[i]), key) {
      PlainSelection(StripSlashes(c.sels[i]), key);
    }
    var i := FirstHit(c, 0, key);
    if i < |c.sels| {
      PlainSelection(StripSlashes(c.sels[i]), key);
    }
  }

  /** A name that is excluded without wildcards is not wanted, whatever is selected. */
  lemma ExcludedName(c: Choice, name: Str, i: nat)
    requires Plain(c) && Trimmed(StripSlashes(name)) && i < |c.exls|
    requires StripSlashes(c.exls[i]) == StripSlashes(name) && Literal(StripSlashes(name))
    ensures !Wanted(c, name).found
  {
    hide StripSlashes, KindOf, Trimmed, Wanted;
    LiteralMatches(StripSlashes(name), StripSlashes(name));
    PlainWanted(c, name);
  }

  lemma NoSelection()
    ensures StripSlashes([]) == []
  {
  }

  lemma TrimmedSome(s: Str)
    requires Trimmed(s)
    ensures s != []
  {
  }

  /** Two bytes that are the same letter, or the same byte. */
  predicate SameLetter(a: byte, b: byte) {
    a == b || (65 <= a <= 90 && b == a + 32) || (65 <= b <= 90 && a == b + 32)
  }

  /** Where case is ignored two names are compared alike exactly when they differ only in it. */
  lemma CaseIgnored(a: Str, b: Str)
    ensures Upper(a) == Upper(b) <==> |a| == |b| && forall i :: 0 <= i < |a| ==> SameLetter(a[i], b[i])
  {
    if Upper(a) == Upper(b) {
      assert |a| == |Upper(a)| == |Upper(b)| == |b|;
      forall i | 0 <= i < |a| ensures SameLetter(a[i], b[i]) {
        assert Upper(a)[i] == Upper(b)[i];
      }
    } else if |a| == |b| {
      var i :| 0 <= i < |a| && Upper(a)[i] != Upper(b)[i];
      assert !SameLetter(a[i], b[i]);
    }
  }

  /** With the flag set two such names get the same answer; without it names are compared as they are. */
  lemma CaseBlind(c: Choice, a: Str, b: Str)
    requires c.icase && Upper(StripSlashes(a)) == Upper(StripSlashes(b))
    ensures Wanted(c, a) == Wanted(c, b)
  {
  }

  /** A name that stands strictly above every selection. */
  predicate AboveAll(c: Choice, name: Str) {
    forall i :: 0 <= i < |c.sels| ==> StripSlashes(name) + [SLASH] <= StripSlashes(c.sels[i])
  }

  lemma AboveIsParent(sel: Str, name: Str)
    requires Trimmed(sel) && name + [SLASH] <= sel
    ensures KindOf(sel, name, false) == Parent
  {
    assert |name| < |sel| && name[0] == (name + [SLASH])[0] == sel[0];
    CatPathJoins(name, [SLASH]);
    CatPathJoins(sel, [SLASH]);
    var t := CatPath(name, [SLASH]).value;
    assert t <= sel && t != sel;
  }

  /** Such a name is only wanted as one that stands above a selection. */
  lemma AboveAllIsParent(c: Choice, name: Str)
    requires Plain(c) && AboveAll(c, name)
    ensures Wanted(c, name).found ==> Wanted(c, name).kind == Parent
  {
    hide StripSlashes, KindOf, Trimmed;
    var key := StripSlashes(name);
    assert StripSlashes(c.sels[0]) != [] by { TrimmedSome(StripSlashes(c.sels[0])); }
    NoSelection();
    assert !SelectsAll(c);
    AboveIsParent(StripSlashes(c.sels[0]), key);
    assert Hits(c, 0, key);
  }
}
