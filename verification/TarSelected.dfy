/** Which entries a restore puts back, where, and with which ACL. */
module TarSelected {
  import opened Bytes
  import opened TarHeader
  import opened TarFormat
  import opened Selection
  import opened RestorePath
  import opened TarRestore
  import opened TarRoundTrip

  // ---- links, targets and ACL records of the entries ----

  predicate IsLink(e: Entry, ino: int) {
    e.File? && e.nlink > 1 && e.ino == ino
  }

  /** The first entry that is a link to the inode, or the number of entries. */
  function FirstWith(es: seq<Entry>, ino: int): (k: nat)
    ensures k <= |es|
    ensures k < |es| ==> IsLink(es[k], ino)
    ensures forall j :: 0 <= j < k ==> !IsLink(es[j], ino)
  {
    if es == [] then 0 else
      var k := FirstWith(es[..|es| - 1], ino);
      if k < |es| - 1 then k
      else if IsLink(es[|es| - 1], ino) then |es| - 1
      else |es|
  }

  /** The ACL record that an entry is printed with. */
  function OwnAcl(e: Entry): Option<Str> {
    if e.Sym? then None else e.acl
  }

  /** The path that an inode was first met under, if it has been: links is what the queue held at first. */
  ghost function QueueAt(c: Choice, links: map<int, Option<Str>>, es: seq<Entry>, ino: int): Option<Option<Str>> {
    if ino in links then Some(links[ino]) else
      var k := FirstWith(es, ino);
      if k < |es| then Some(Target(c, es[k].name)) else None
  }

  /**
   * An entry is put back when its name is wanted and its path fits; no directory above the selection is, and a later
   * link only if the first one had a path.
   */
  ghost predicate Back(c: Choice, links: map<int, Option<Str>>, before: seq<Entry>, e: Entry) {
    && Target(c, e.name).Some?
    && (e.Dir? ==> Wanted(c, e.name).kind != Parent)
    && (e.File? && e.nlink > 1 ==> QueueAt(c, links, before, e.ino) != Some(None))
  }

  /** What it is put back as: its own kind and contents, or a link to the path of the first link. */
  ghost function Object(c: Choice, links: map<int, Option<Str>>, before: seq<Entry>, e: Entry,
                        acl: Option<Str>): Restored
    requires Back(c, links, before, e)
  {
    var path := Target(c, e.name).value;
    match e
    case Dir(_, _, attr, _) => NewDir(path, Acls(Shown(attr), acl))
    case Sym(_, target, _, _, _, attr) => NewSym(path, target, Acls(Shown(attr), acl))
    case File(_, data, nlink, ino, attr, _) =>
      var first := QueueAt(c, links, before, ino);
      if nlink > 1 && first.Some? then NewHard(path, first.value.value, Acls(Shown(attr), acl))
      else NewFile(path, data, Acls(Shown(attr), acl))
  }

  /** Every entry that is put back, with its own ACL. */
  ghost function PutBack(c: Choice, links: map<int, Option<Str>>, es: seq<Entry>): seq<Restored> {
    if es == [] then [] else
      var before, e := es[..|es| - 1], es[|es| - 1];
      PutBack(c, links, before) + if Back(c, links, before, e) then [Object(c, links, before, e, OwnAcl(e))] else []
  }

  /** Entry j has an ACL record, and nothing from it on was put back. */
  ghost predicate Waits(c: Choice, links: map<int, Option<Str>>, es: seq<Entry>, j: nat)
    requires j < |es|
  {
    OwnAcl(es[j]).Some? && forall m :: j <= m < |es| ==> !Back(c, links, es[..m], es[m])
  }

  /** The ACL of an entry skipped since the last one put back is still waiting. */
  ghost predicate AclWaits(c: Choice, links: map<int, Option<Str>>, es: seq<Entry>) {
    exists j :: 0 <= j < |es| && Waits(c, links, es, j)
  }

  /** No entry without an ACL record is put back while an ACL waits. */
  ghost predicate NoneInherits(c: Choice, links: map<int, Option<Str>>, es: seq<Entry>) {
    forall i :: 0 <= i < |es| && Back(c, links, es[..i], es[i]) && OwnAcl(es[i]).None? ==> !AclWaits(c, links, es[..i])
  }

  // ---- the carried queue and ACL in these terms ----

  ghost predicate QueueIs(k: Carry, c: Choice, links: map<int, Option<Str>>, es: seq<Entry>) {
    forall ino :: QueueAt(c, links, es, ino) == if ino in k.links then Some(k.links[ino]) else None
  }

  ghost function Waiting(c: Choice, links: map<int, Option<Str>>, es: seq<Entry>): Option<Str> {
    if es == [] then None else
      var before, e := es[..|es| - 1], es[|es| - 1];
      if Back(c, links, before, e) then None
      else if OwnAcl(e).Some? then OwnAcl(e) else Waiting(c, links, before)
  }

  lemma WaitsSnoc(c: Choice, links: map<int, Option<Str>>, es: seq<Entry>, j: nat)
    requires j < |es|
    ensures var before, n := es[..|es| - 1], |es| - 1;
      Waits(c, links, es, j) <==>
        !Back(c, links, before, es[n]) && if j < n then Waits(c, links, before, j) else OwnAcl(es[n]).Some?
  {
    hide Back, OwnAcl;
    var before, n := es[..|es| - 1], |es| - 1;
    assert forall m :: 0 <= m < n ==> before[..m] == es[..m] && before[m] == es[m];
  }

  lemma {:induction false} WaitingIff(c: Choice, links: map<int, Option<Str>>, es: seq<Entry>)
    ensures Waiting(c, links, es).Some? <==> AclWaits(c, links, es)
    decreases |es|
  {
    if es != [] {
      hide Back, Waits, OwnAcl;
      WaitingIff(c, links, es[..|es| - 1]);
      var before, n := es[..|es| - 1], |es| - 1;
      forall j | 0 <= j < |es| && Waits(c, links, es, j)
        ensures !Back(c, links, before, es[n]) && if j < n then Waits(c, links, before, j) else OwnAcl(es[n]).Some?
      {
        WaitsSnoc(c, links, es, j);
      }
      WaitsSnoc(c, links, es, n);
      if AclWaits(c, links, before) {
        var j :| 0 <= j < n && Waits(c, links, before, j);
        WaitsSnoc(c, links, es, j);
      }
    }
  }

  lemma QueueGrows(c: Choice, links: map<int, Option<Str>>, before: seq<Entry>, e: Entry, ino: int)
    ensures QueueAt(c, links, before + [e], ino) ==
              if QueueAt(c, links, before, ino).None? && IsLink(e, ino) then Some(Target(c, e.name))
              else QueueAt(c, links, before, ino)
  {
    hide Target;
    assert (before + [e])[..|before|] == before;
  }

  /** One entry after the others. */
  lemma ExpectedIs(c: Choice, links: map<int, Option<Str>>, before: seq<Entry>, e: Entry, k: Carry)
    requires QueueIs(k, c, links, before)
    ensures var acl := AclOr(OwnAcl(e), k);
      && Expected(c, e, k) == (if Back(c, links, before, e) then [Object(c, links, before, e, acl)] else [])
      && After(c, e, k).acl == (if Back(c, links, before, e) then None else acl)
    ensures QueueIs(After(c, e, k), c, links, before + [e])
  {
    hide Target, Wanted;
    forall ino ensures QueueAt(c, links, before + [e], ino) ==
        (if ino in After(c, e, k).links then Some(After(c, e, k).links[ino]) else None) {
      QueueGrows(c, links, before, e, ino);
      hide QueueAt;
      assert QueueAt(c, links, before, ino) == if ino in k.links then Some(k.links[ino]) else None;
    }
    hide QueueAt;
    if e.File? {
      var ino := e.ino;
      assert QueueAt(c, links, before, ino) == if ino in k.links then Some(k.links[ino]) else None;
    }
  }

  lemma {:induction false} CarryIs(c: Choice, links: map<int, Option<Str>>, es: seq<Entry>)
    ensures var k := CarryAll(c, es, Carry(links, None));
      QueueIs(k, c, links, es) && k.acl == Waiting(c, links, es)
    decreases |es|
  {
    hide QueueIs, Back, Object, Expected, After;
    if es == [] {
      EmptyQueue(c, links);
    } else {
      var before, e := es[..|es| - 1], es[|es| - 1];
      assert es == before + [e];
      CarryIs(c, links, before);
      ExpectedIs(c, links, before, e, CarryAll(c, before, Carry(links, None)));
    }
  }

  lemma EmptyQueue(c: Choice, links: map<int, Option<Str>>)
    ensures QueueIs(Carry(links, None), c, links, [])
  {
  }

  // ---- selections ----

  /** An object without its ACL. */
  function Bare(m: Restored): Restored {
    m.(acls := m.acls.(acl := None))
  }

  function BareAll(ms: seq<Restored>): (r: seq<Restored>)
    ensures |r| == |ms|
  {
    seq(|ms|, i requires 0 <= i < |ms| => Bare(ms[i]))
  }

  lemma BareJoin(a: seq<Restored>, b: seq<Restored>)
    ensures BareAll(a + b) == BareAll(a) + BareAll(b)
  {
  }

  /**
   * An entry that is put back carries its own ACL exactly when it has an ACL record or no ACL of an entry skipped
   * since the last one put back is waiting.
   */
  lemma AclIsOwnIff(c: Choice, links: map<int, Option<Str>>, before: seq<Entry>, e: Entry)
    requires Back(c, links, before, e)
    ensures var made := Expected(c, e, CarryAll(c, before, Carry(links, None)));
      && |made| == 1 && Bare(made[0]) == Bare(Object(c, links, before, e, OwnAcl(e)))
      && (made[0] == Object(c, links, before, e, OwnAcl(e)) <==> OwnAcl(e).Some? || !AclWaits(c, links, before))
  {
    CarryIs(c, links, before);
    WaitingIff(c, links, before);
    ExpectedIs(c, links, before, e, CarryAll(c, before, Carry(links, None)));
    hide QueueIs, Back, Waiting, AclWaits, Target, QueueAt, Expected;
  }

  lemma SplitEqual<T>(a1: seq<T>, b1: seq<T>, a2: seq<T>, b2: seq<T>)
    requires |a1| == |a2|
    ensures a1 + b1 == a2 + b2 <==> a1 == a2 && b1 == b2
  {
    if a1 + b1 == a2 + b2 {
      assert a1 == (a1 + b1)[..|a1|] && b1 == (a1 + b1)[|a1|..];
      assert a2 == (a2 + b2)[..|a1|] && b2 == (a2 + b2)[|a1|..];
    }
  }

  lemma ExpectedSnoc(c: Choice, es: seq<Entry>, k: Carry)
    requires es != []
    ensures var before, e := es[..|es| - 1], es[|es| - 1];
      ExpectedAll(c, es, k) == ExpectedAll(c, before, k) + Expected(c, e, CarryAll(c, before, k))
  {
    hide Expected, CarryAll;
  }

  lemma PutBackSnoc(c: Choice, links: map<int, Option<Str>>, es: seq<Entry>)
    requires es != []
    ensures PutBack(c, links, es) == PutBack(c, links, es[..|es| - 1]) + PutBackLast(c, links, es)
  {
    hide Back, Object;
  }

  ghost function PutBackLast(c: Choice, links: map<int, Option<Str>>, es: seq<Entry>): seq<Restored>
    requires es != []
  {
    var before, e := es[..|es| - 1], es[|es| - 1];
    if Back(c, links, before, e) then [Object(c, links, before, e, OwnAcl(e))] else []
  }

  /** The last entry in both lists. */
  lemma LastPutBack(c: Choice, links: map<int, Option<Str>>, es: seq<Entry>)
    requires es != []
    ensures var before, e := es[..|es| - 1], es[|es| - 1];
      var made, back := Expected(c, e, CarryAll(c, before, Carry(links, None))), PutBackLast(c, links, es);
      && |made| == |back| && BareAll(made) == BareAll(back)
      && (made == back <==> (Back(c, links, before, e) && OwnAcl(e).None? ==> !AclWaits(c, links, before)))
  {
    hide Expected, Back, Object, QueueIs, AclWaits, BareAll, Waiting, CarryAll;
    var before, e := es[..|es| - 1], es[|es| - 1];
    var k := CarryAll(c, before, Carry(links, None));
    if Back(c, links, before, e) {
      AclIsOwnIff(c, links, before, e);
    } else {
      CarryIs(c, links, before);
      ExpectedIs(c, links, before, e, k);
    }
    BareOne(Expected(c, e, k), PutBackLast(c, links, es));
  }

  lemma {:induction false} PutBackIff(c: Choice, links: map<int, Option<Str>>, es: seq<Entry>)
    ensures var made := ExpectedAll(c, es, Carry(links, None));
      && |made| == |PutBack(c, links, es)| && BareAll(made) == BareAll(PutBack(c, links, es))
      && (made == PutBack(c, links, es) <==> NoneInherits(c, links, es))
    decreases |es|
  {
    if es != [] {
      hide Expected, Back, Object, AclWaits, BareAll, NoneInherits, ExpectedAll, PutBack, PutBackLast, CarryAll;
      var before, e := es[..|es| - 1], es[|es| - 1];
      var made2 := Expected(c, e, CarryAll(c, before, Carry(links, None)));
      var made1, back1 := ExpectedAll(c, before, Carry(links, None)), PutBack(c, links, before);
      PutBackIff(c, links, before);
      LastPutBack(c, links, es);
      LastInherits(c, links, es);
      ExpectedSnoc(c, es, Carry(links, None));
      PutBackSnoc(c, links, es);
      BareJoin(made1, made2);
      BareJoin(back1, PutBackLast(c, links, es));
      SplitEqual(made1, made2, back1, PutBackLast(c, links, es));
    } else {
      assert BareAll([]) == [];
    }
  }

  lemma BareOne(a: seq<Restored>, b: seq<Restored>)
    requires |a| == |b| <= 1 && (|a| == 1 ==> Bare(a[0]) == Bare(b[0]))
    ensures BareAll(a) == BareAll(b)
    ensures |a| == 1 ==> (a == b <==> a[0] == b[0])
    ensures |a| == 0 ==> a == b
  {
  }

  lemma LastInherits(c: Choice, links: map<int, Option<Str>>, es: seq<Entry>)
    requires es != []
    ensures var before, e := es[..|es| - 1], es[|es| - 1];
      NoneInherits(c, links, es) <==>
        NoneInherits(c, links, before) && (Back(c, links, before, e) && OwnAcl(e).None? ==> !AclWaits(c, links, before))
  {
    hide Back, AclWaits;
    var before, n := es[..|es| - 1], |es| - 1;
    assert forall i :: 0 <= i < n ==> before[..i] == es[..i];
  }

  /**
   * Restoring under any selection puts back the chosen entries, in order, hard links among them; with their own ACLs
   * exactly when no entry without one is put back while the ACL of a skipped one waits.
   */
  lemma SelectedRestore(c: Choice, es: seq<Entry>, p: Printer, links: map<int, Option<Str>>, s: seq<byte>, from: nat)
    requires forall e :: e in es ==> Printable(e)
    requires AllAgree(es, links, p.queue)
    requires Laid(s, from, ArchiveBlocks(es, p)) && ZerosFrom(s, from + SpanOf(ArchiveBlocks(es, p)))
    ensures var made := Restore(c, links, s, from).made;
      && BareAll(made) == BareAll(PutBack(c, links, es))
      && (made == PutBack(c, links, es) <==> NoneInherits(c, links, es))
  {
    hide Laid, ArchiveBlocks, SpanOf, ZerosFrom, Restore, PutBack, NoneInherits, BareAll, ExpectedAll, Printable;
    ArchiveRoundTrip(c, es, p, links, s, from);
    PutBackIff(c, links, es);
  }

  /** A single-link entry is put back, or not, on its own name alone. */
  lemma ChosenWhen(c: Choice, links: map<int, Option<Str>>, before: seq<Entry>, e: Entry)
    requires e.File? ==> e.nlink <= 1
    ensures Expected(c, e, CarryAll(c, before, Carry(links, None))) != [] <==>
            && Wanted(c, e.name).found && c.rename(Wanted(c, e.name).pos, e.name).Some?
            && !(e.Dir? && Wanted(c, e.name).kind == Parent)
  {
    CarryIs(c, links, before);
    ExpectedIs(c, links, before, e, CarryAll(c, before, Carry(links, None)));
    hide QueueIs, QueueAt, Expected;
  }

  /** The shortest case: an entry with an ACL is skipped, and the next one put back has none, so it gets that one. */
  lemma AclLeaks(c: Choice, links: map<int, Option<Str>>, f: Entry, l: Entry)
    requires OwnAcl(f).Some? && !Back(c, links, [], f)
    requires OwnAcl(l).None? && Back(c, links, [f], l)
    ensures ExpectedAll(c, [f, l], Carry(links, None)) == [Object(c, links, [f], l, OwnAcl(f))]
  {
    var es, k0 := [f, l], Carry(links, None);
    assert es[..1] == [f] && [f][..0] == [] && [] + [f] == [f];
    EmptyQueue(c, links);
    ExpectedIs(c, links, [], f, k0);
    hide QueueIs, QueueAt, Expected, Back, Object;
    assert CarryAll(c, [], k0) == k0 && ExpectedAll(c, [], k0) == [];
    assert CarryAll(c, [f], k0) == After(c, f, k0) && ExpectedAll(c, [f], k0) == [] + Expected(c, f, k0);
    ExpectedIs(c, links, [f], l, After(c, f, k0));
    assert ExpectedAll(c, es, k0) == ExpectedAll(c, [f], k0) + Expected(c, l, CarryAll(c, [f], k0));
  }

  // ---- restoring one tree ----

  /** Every entry goes where the way says, and none only stands above what is selected. */
  ghost predicate Placed(c: Choice, w: Way, es: seq<Entry>) {
    forall e :: e in es ==> Target(c, e.name) == Place(w, e.name) && Wanted(c, e.name).kind != Parent
  }

  /** So it is when the tree backed up, or all there is, is the one selection of a session's restore. */
  lemma TreePlaced(c: Choice, m: Maker, es: seq<Entry>)
    requires Serves(c, m) && |m.nlist| == 1 && forall e :: e in es ==> GoodName(e.name)
    requires var root := StripSlashes(m.nlist[0].opath);
      m.nlist[0].opath == [] || (GoodRoot(root) && forall e :: e in es ==> InTree(root, StripSlashes(e.name)))
    ensures Placed(c, WayOf(m), es)
  {
    hide Target, Wanted, Place, Serves, WayOf;
    forall e | e in es ensures Target(c, e.name) == Place(WayOf(m), e.name) && Wanted(c, e.name).kind != Parent {
      if m.nlist[0].opath == [] {
        AllPlace(c, m, e.name);
      } else {
        TreePlace(c, m, e.name);
      }
    }
  }

  /** An entry comes back when its path fits and, for a later link, that of the first link fits too. */
  predicate Returns(w: Way, before: seq<Entry>, e: Entry) {
    && Fits(w, e.name)
    && (e.File? && e.nlink > 1 ==>
          var k := FirstWith(before, e.ino); k < |before| ==> Fits(w, before[k].name))
  }

  /** What it comes back as: its own kind, name, attributes, ACL and bytes, or a link to the first name of its inode. */
  function Original(w: Way, before: seq<Entry>, e: Entry): Restored
    requires Returns(w, before, e)
  {
    var path := Place(w, e.name).value;
    match e
    case Dir(_, _, attr, acl) => NewDir(path, Acls(Shown(attr), acl))
    case Sym(_, target, _, _, _, attr) => NewSym(path, target, Acls(Shown(attr), None))
    case File(_, data, nlink, ino, attr, acl) =>
      var k := FirstWith(before, ino);
      if nlink > 1 && k < |before| then NewHard(path, Place(w, before[k].name).value, Acls(Shown(attr), acl))
      else NewFile(path, data, Acls(Shown(attr), acl))
  }

  function Originals(w: Way, es: seq<Entry>): seq<Restored> {
    if es == [] then [] else
      var before, e := es[..|es| - 1], es[|es| - 1];
      Originals(w, before) + if Returns(w, before, e) then [Original(w, before, e)] else []
  }

  /** Entry j has an ACL record, and nothing from it on came back. */
  predicate Stranded(w: Way, es: seq<Entry>, j: nat)
    requires j < |es|
  {
    OwnAcl(es[j]).Some? && forall m :: j <= m < |es| ==> !Returns(w, es[..m], es[m])
  }

  /** No entry without an ACL record comes back behind the ACL of one that did not. */
  predicate NoneStranded(w: Way, es: seq<Entry>) {
    forall i, j :: 0 <= j < i < |es| && Returns(w, es[..i], es[i]) && OwnAcl(es[i]).None? ==>
        !Stranded(w, es[..i], j)
  }

  lemma PlaceFits(w: Way, name: Str)
    ensures Place(w, name).Some? <==> Fits(w, name)
  {
  }

  lemma PlacedBack(c: Choice, w: Way, es: seq<Entry>, i: nat)
    requires Placed(c, w, es) && i < |es|
    ensures Back(c, map[], es[..i], es[i]) <==> Returns(w, es[..i], es[i])
    ensures Returns(w, es[..i], es[i]) ==>
              Object(c, map[], es[..i], es[i], OwnAcl(es[i])) == Original(w, es[..i], es[i])
  {
    var before, e := es[..i], es[i];
    assert e in es;
    PlaceFits(w, e.name);
    if e.File? && FirstWith(before, e.ino) < |before| {
      assert before[FirstWith(before, e.ino)] == es[FirstWith(before, e.ino)];
      assert before[FirstWith(before, e.ino)] in es;
      PlaceFits(w, before[FirstWith(before, e.ino)].name);
    }
    hide Placed, Target, Wanted, Place, Fits;
  }

  lemma {:induction false} PlacedPutBack(c: Choice, w: Way, es: seq<Entry>, n: nat)
    requires Placed(c, w, es) && n <= |es|
    ensures PutBack(c, map[], es[..n]) == Originals(w, es[..n])
  {
    hide Placed, Back, Object, Returns, Original;
    if n > 0 {
      assert es[..n][..n - 1] == es[..n - 1] && es[..n][n - 1] == es[n - 1];
      PlacedPutBack(c, w, es, n - 1);
      PlacedBack(c, w, es, n - 1);
    }
  }

  lemma PlacedWaits(c: Choice, w: Way, es: seq<Entry>, i: nat, j: nat)
    requires Placed(c, w, es) && j < i <= |es|
    ensures Waits(c, map[], es[..i], j) <==> Stranded(w, es[..i], j)
  {
    hide Back, Returns, Placed;
    forall k | j <= k < i ensures Back(c, map[], es[..i][..k], es[..i][k]) <==> Returns(w, es[..i][..k], es[..i][k]) {
      assert es[..i][..k] == es[..k] && es[..i][k] == es[k];
      PlacedBack(c, w, es, k);
    }
  }

  lemma PlacedInherits(c: Choice, w: Way, es: seq<Entry>)
    requires Placed(c, w, es)
    ensures NoneInherits(c, map[], es) <==> NoneStranded(w, es)
  {
    hide Back, Returns, Waits, Stranded, Placed;
    forall i | 0 <= i < |es| ensures Back(c, map[], es[..i], es[i]) <==> Returns(w, es[..i], es[i]) {
      PlacedBack(c, w, es, i);
    }
    forall i, j | 0 <= j < i < |es| ensures Waits(c, map[], es[..i], j) <==> Stranded(w, es[..i], j) {
      PlacedWaits(c, w, es, i, j);
    }
  }

  // ---- what comes back, told by the entries ----

  /** The places of the entries that come back. */
  function Chosen(w: Way, es: seq<Entry>): (r: seq<nat>)
    ensures forall j :: 0 <= j < |r| ==> r[j] < |es|
  {
    if es == [] then [] else
      var n := |es| - 1;
      Chosen(w, es[..n]) + if Returns(w, es[..n], es[n]) then [n] else []
  }

  /** The places r below n, in order: just those of the entries that return. */
  ghost predicate Places(w: Way, es: seq<Entry>, n: nat, r: seq<nat>)
    requires n <= |es|
  {
    && (forall j :: 0 <= j < |r| ==> r[j] < n && Returns(w, es[..r[j]], es[r[j]]))
    && (forall j, k :: 0 <= j < k < |r| ==> r[j] < r[k])
    && (forall i :: 0 <= i < n && Returns(w, es[..i], es[i]) ==> i in r)
  }

  lemma OnePlace(w: Way, es: seq<Entry>, n: nat, r: seq<nat>)
    requires 0 < n <= |es| && Places(w, es, n - 1, r)
    ensures Places(w, es, n, r + if Returns(w, es[..n - 1], es[n - 1]) then [n - 1] else [])
  {
    hide Returns;
    var more := if Returns(w, es[..n - 1], es[n - 1]) then [n - 1] else [];
    var all := r + more;
    forall i | 0 <= i < n && Returns(w, es[..i], es[i]) ensures i in all {
      if i == n - 1 {
        assert all[|r|] == i;
      }
    }
  }

  /** Just the entries that return are chosen, each once and in order. */
  lemma {:induction false} ChosenIff(w: Way, es: seq<Entry>, n: nat)
    requires n <= |es|
    ensures Places(w, es, n, Chosen(w, es[..n]))
    decreases n
  {
    hide Returns, Places;
    if n > 0 {
      ChosenIff(w, es, n - 1);
      assert es[..n][..n - 1] == es[..n - 1] && es[..n][n - 1] == es[n - 1];
      OnePlace(w, es, n, Chosen(w, es[..n - 1]));
    } else {
      NoPlace(w, es);
    }
  }

  lemma NoPlace(w: Way, es: seq<Entry>)
    ensures Places(w, es, 0, Chosen(w, es[..0]))
  {
  }

  /**
   * m is entry i of the tree put back, whatever ACL it has: its path is the directory joined with the entry's name or
   * what is of it behind the root; it has the attributes of the entry and is of its kind, with its target or bytes, or
   * it is a link to the path of the first entry with its inode.
   */
  predicate IsCopy(w: Way, es: seq<Entry>, i: nat, m: Restored)
    requires i < |es|
  {
    var e := es[i];
    && Joins(m.path, w.dir, Part(w, e.name)) && TellsAttr(m.acls.attr, e.attr)
    && match e
       case Dir(_, _, _, _) => m.NewDir?
       case Sym(_, target, _, _, _, _) => m.NewSym? && m.target == target
       case File(_, data, nlink, ino, _, _) =>
         var k := FirstWith(es[..i], ino);
         if nlink > 1 && k < i then m.NewHard? && Joins(m.target, w.dir, Part(w, es[k].name))
         else m.NewFile? && m.data == data
  }

  lemma OriginalIsCopy(w: Way, es: seq<Entry>, i: nat)
    requires i < |es| && Returns(w, es[..i], es[i])
    ensures IsCopy(w, es, i, Original(w, es[..i], es[i]))
  {
    hide Joins, TellsAttr, Shown, CatPath, Part;
    var e := es[i];
    CatPathJoins(w.dir, Part(w, e.name));
    ShownTells(e.attr);
    if e.File? && e.nlink > 1 {
      var k := FirstWith(es[..i], e.ino);
      if k < i {
        CatPathJoins(w.dir, Part(w, es[k].name));
      }
    }
  }

  ghost predicate CopiesOf(w: Way, es: seq<Entry>, chosen: seq<nat>, made: seq<Restored>) {
    |made| == |chosen| && forall j :: 0 <= j < |made| ==> chosen[j] < |es| && IsCopy(w, es, chosen[j], made[j])
  }

  lemma CopiesMore(w: Way, es: seq<Entry>, chosen: seq<nat>, made: seq<Restored>, i: nat, m: Restored)
    requires CopiesOf(w, es, chosen, made) && i < |es| && IsCopy(w, es, i, m)
    ensures CopiesOf(w, es, chosen + [i], made + [m])
  {
    hide IsCopy;
  }

  lemma {:induction false} OriginalsAreCopies(w: Way, es: seq<Entry>, n: nat)
    requires n <= |es|
    ensures CopiesOf(w, es, Chosen(w, es[..n]), Originals(w, es[..n]))
    decreases n
  {
    hide Returns, Original, CopiesOf;
    if n > 0 {
      var before, e := es[..n - 1], es[n - 1];
      OriginalsAreCopies(w, es, n - 1);
      assert es[..n][..n - 1] == before && es[..n][n - 1] == e;
      if Returns(w, before, e) {
        OriginalIsCopy(w, es, n - 1);
        CopiesMore(w, es, Chosen(w, before), Originals(w, before), n - 1, Original(w, before, e));
      } else {
        assert Chosen(w, before) + [] == Chosen(w, before) && Originals(w, before) + [] == Originals(w, before);
      }
    } else {
      NoCopies(w, es);
    }
  }

  lemma NoCopies(w: Way, es: seq<Entry>)
    ensures CopiesOf(w, es, Chosen(w, es[..0]), Originals(w, es[..0]))
  {
  }

  lemma BareCopy(w: Way, es: seq<Entry>, i: nat, a: Restored, b: Restored)
    requires i < |es| && Bare(a) == Bare(b) && IsCopy(w, es, i, b)
    ensures IsCopy(w, es, i, a)
  {
    hide Joins, TellsAttr, Part, FirstWith;
    assert a.path == Bare(a).path == Bare(b).path && a.acls.attr == Bare(a).acls.attr == Bare(b).acls.attr;
  }

  /** What of a name decides its path: the part behind the root, or all of it, without leading slashes. */
  function Rest(w: Way, name: Str): Str {
    StripSlashes(Part(w, name))
  }

  lemma CopiesDiffer(w: Way, es: seq<Entry>, i: nat, k: nat, a: Restored, b: Restored)
    requires i < |es| && k < |es| && IsCopy(w, es, i, a) && IsCopy(w, es, k, b)
    requires Rest(w, es[i].name) != Rest(w, es[k].name)
    ensures a.path != b.path
  {
    hide Joins, TellsAttr, Part, FirstWith, StripSlashes;
    JoinsDiffer(a.path, b.path, w.dir, Part(w, es[i].name), Part(w, es[k].name));
  }

  /** The objects are the chosen entries one by one, and entries whose names differ lie at different paths. */
  ghost predicate AreCopies(w: Way, es: seq<Entry>, made: seq<Restored>) {
    && |made| == |Chosen(w, es)|
    && (forall j :: 0 <= j < |made| ==> IsCopy(w, es, Chosen(w, es)[j], made[j]))
    && (forall j, k :: 0 <= j < |made| && 0 <= k < |made| ==>
          Rest(w, es[Chosen(w, es)[j]].name) == Rest(w, es[Chosen(w, es)[k]].name) || made[j].path != made[k].path)
  }

  lemma BareAreCopies(w: Way, es: seq<Entry>, made: seq<Restored>)
    requires BareAll(made) == BareAll(Originals(w, es))
    ensures AreCopies(w, es, made)
  {
    hide IsCopy, Originals, Rest, Returns;
    assert es[..|es|] == es;
    OriginalsAreCopies(w, es, |es|);
    var chosen := Chosen(w, es);
    assert |made| == |BareAll(made)| == |Originals(w, es)|;
    forall j | 0 <= j < |made| ensures chosen[j] < |es| && IsCopy(w, es, chosen[j], made[j]) {
      assert Bare(made[j]) == BareAll(made)[j] == Bare(Originals(w, es)[j]);
      BareCopy(w, es, chosen[j], made[j], Originals(w, es)[j]);
    }
    forall j, k | 0 <= j < |made| && 0 <= k < |made| && Rest(w, es[chosen[j]].name) != Rest(w, es[chosen[k]].name)
      ensures made[j].path != made[k].path
    {
      CopiesDiffer(w, es, chosen[j], chosen[k], made[j], made[k]);
    }
  }

  /**
   * One tree restored: exactly the entries whose paths fit come back, in order, with kind, name,
   * link target, attributes and bytes; and with their own ACLs exactly when none is stranded in front of an entry
   * without one.
   */
  lemma FullRestore(c: Choice, w: Way, es: seq<Entry>, count: nat, s: seq<byte>, from: nat)
    requires Placed(c, w, es) && forall e :: e in es ==> Printable(e)
    requires var bs := ArchiveBlocks(es, Printer(count, {})); Laid(s, from, bs) && ZerosFrom(s, from + SpanOf(bs))
    ensures var made := Restore(c, map[], s, from).made;
      && AreCopies(w, es, made) && BareAll(made) == BareAll(Originals(w, es))
      && (made == Originals(w, es) <==> NoneStranded(w, es))
  {
    hide Laid, ArchiveBlocks, SpanOf, ZerosFrom, Restore, PutBack, NoneInherits, BareAll, Printable, Placed;
    hide Originals, NoneStranded, AreCopies;
    SelectedRestore(c, es, Printer(count, {}), map[], s, from);
    PlacedAll(c, w, es);
    BareAreCopies(w, es, Restore(c, map[], s, from).made);
  }

  lemma PlacedAll(c: Choice, w: Way, es: seq<Entry>)
    requires Placed(c, w, es)
    ensures PutBack(c, map[], es) == Originals(w, es) && (NoneInherits(c, map[], es) <==> NoneStranded(w, es))
  {
    hide PutBack, NoneInherits, NoneStranded, Originals, Placed;
    assert es[..|es|] == es;
    PlacedPutBack(c, w, es, |es|);
    PlacedInherits(c, w, es);
  }

  predicate AllFit(w: Way, es: seq<Entry>) {
    forall e :: e in es ==> Fits(w, e.name)
  }

  function LastOriginal(w: Way, es: seq<Entry>): seq<Restored>
    requires es != []
  {
    var before, e := es[..|es| - 1], es[|es| - 1];
    if Returns(w, before, e) then [Original(w, before, e)] else []
  }

  lemma OriginalsSnoc(w: Way, es: seq<Entry>)
    requires es != []
    ensures Originals(w, es) == Originals(w, es[..|es| - 1]) + LastOriginal(w, es)
    ensures |LastOriginal(w, es)| <= 1
    ensures AllFit(w, es) ==> Returns(w, es[..|es| - 1], es[|es| - 1])
    ensures AllFit(w, es) <==> AllFit(w, es[..|es| - 1]) && Fits(w, es[|es| - 1].name)
    ensures LastOriginal(w, es) != [] ==> Fits(w, es[|es| - 1].name)
  {
    hide Original, Fits;
    assert es == es[..|es| - 1] + [es[|es| - 1]];
  }

  /** Entry i of all is back as it was. */
  predicate IsOriginal(w: Way, es: seq<Entry>, all: seq<Restored>, i: nat)
    requires i < |es|
  {
    Returns(w, es[..i], es[i]) && i < |all| && all[i] == Original(w, es[..i], es[i])
  }

  lemma OriginalSnoc(w: Way, es: seq<Entry>, all: seq<Restored>, last: seq<Restored>, i: nat)
    requires es != [] && i < |es| && |all| == |es| - 1
    requires if i < |es| - 1 then IsOriginal(w, es[..|es| - 1], all, i)
             else Returns(w, es[..i], es[i]) && last == [Original(w, es[..i], es[i])]
    ensures IsOriginal(w, es, all + last, i)
  {
    hide Returns, Original;
    assert i < |es| - 1 ==> es[..|es| - 1][..i] == es[..i] && es[..|es| - 1][i] == es[i];
  }

  lemma {:induction false} AllReturn(w: Way, es: seq<Entry>)
    ensures |Originals(w, es)| <= |es|
    ensures |Originals(w, es)| == |es| <==> AllFit(w, es)
    ensures AllFit(w, es) ==> forall i :: 0 <= i < |es| ==> IsOriginal(w, es, Originals(w, es), i)
    decreases |es|
  {
    if es != [] {
      hide Original, Originals, Returns, AllFit, Fits, IsOriginal;
      var before, n := es[..|es| - 1], |es| - 1;
      OriginalsSnoc(w, es);
      AllReturn(w, before);
      if AllFit(w, es) {
        forall i | 0 <= i < |es| ensures IsOriginal(w, es, Originals(w, es), i) {
          OriginalSnoc(w, es, Originals(w, before), LastOriginal(w, es), i);
        }
      }
    }
  }

  /** Every entry comes back exactly when every path fits, and then none is without its own ACL. */
  lemma AllReturnIff(w: Way, es: seq<Entry>)
    ensures |Originals(w, es)| <= |es|
    ensures |Originals(w, es)| == |es| <==> AllFit(w, es)
    ensures AllFit(w, es) ==> NoneStranded(w, es) && forall i :: 0 <= i < |es| ==>
              Returns(w, es[..i], es[i]) && Originals(w, es)[i] == Original(w, es[..i], es[i])
  {
    hide Original, Originals, Returns, AllFit, Fits, NoneStranded;
    AllReturn(w, es);
    if AllFit(w, es) {
      NotStranded(w, es);
      forall i | 0 <= i < |es|
        ensures Returns(w, es[..i], es[i]) && Originals(w, es)[i] == Original(w, es[..i], es[i])
      {
        assert IsOriginal(w, es, Originals(w, es), i);
      }
    }
  }

  lemma NotStranded(w: Way, es: seq<Entry>)
    requires AllFit(w, es)
    ensures NoneStranded(w, es)
  {
    forall i, j | 0 <= j < i < |es| ensures !Stranded(w, es[..i], j) {
      assert Returns(w, es[..i][..j], es[..i][j]);
    }
  }

  lemma AllBack(c: Choice, w: Way, es: seq<Entry>)
    requires Placed(c, w, es) && AllFit(w, es)
    ensures |ExpectedAll(c, es, Carry(map[], None))| == |es|
  {
    PutBackIff(c, map[], es);
    PlacedAll(c, w, es);
    AllReturnIff(w, es);
  }

  /**
   * The longest path that can be backed up: with full paths it is not restored, whatever the directory; below the
   * root of its tree it is, exactly when the destination is no longer than that root.
   */
  lemma LongestPathIff(c: Choice, w: Way, e: Entry, count: nat, s: seq<byte>, from: nat)
    requires Placed(c, w, [e]) && Printable(e) && |e.name| == PATH_MAX - 1
    requires w.Below? ==> |StripSlashes(e.name)| == PATH_MAX - 2 && InTree(w.root, StripSlashes(e.name))
    requires var bs := ArchiveBlocks([e], Printer(count, {})); Laid(s, from, bs) && ZerosFrom(s, from + SpanOf(bs))
    ensures Restore(c, map[], s, from).made != [] <==> w.Below? && |w.dir| <= |w.root|
  {
    hide Laid, ArchiveBlocks, SpanOf, ZerosFrom, Restore, Printable, Placed, NoneStranded, StripSlashes;
    FullRestore(c, w, [e], count, s, from);
    OneReturns(w, e);
    assert |BareAll(Restore(c, map[], s, from).made)| == |BareAll(Originals(w, [e]))|;
  }

  lemma OneReturns(w: Way, e: Entry)
    ensures |Originals(w, [e])| == if Fits(w, e.name) then 1 else 0
  {
    hide Fits;
    assert [e][..0] == [] && Originals(w, []) == [];
    assert Originals(w, [e]) == Originals(w, []) + if Returns(w, [], e) then [Original(w, [], e)] else [];
  }
}
