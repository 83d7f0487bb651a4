/** The walk over a directory tree: a directory's own entries, then its subdirectories (traverse_level). */
module Traverse {
  import opened Bytes

  /** What readdir gives, in its order; a locked directory cannot be opened. */
  datatype Entry = Dot | DotDot | File(name: Str) | Dir(name: Str, entries: seq<Entry>) | Locked(name: Str)

  /** One callback: the path of the directory and the name in it. */
  datatype Call = Call(parent: Str, name: Str)

  function Trim(path: Str): (r: Str)
    ensures r <= path && (r == [] || r[|r| - 1] != SLASH)
  {
    if path != [] && path[|path| - 1] == SLASH then Trim(path[..|path| - 1]) else path
  }

  function Join(dir: Str, name: Str): Str {
    dir + [SLASH] + name
  }

  /** The callback an entry gets while its directory is read, if any. */
  function CallOf(path: Str, e: Entry): seq<Call> {
    match e
    case Dot => [Call(path, [DOT])]
    case File(name) => [Call(path, name)]
    case _ => []
  }

  /** How many entries are read: all, or up to the first callback that fails. */
  function Scanned(path: Str, es: seq<Entry>, ok: Call -> bool, stop: bool): (n: nat)
    ensures n <= |es|
  {
    if es == [] then 0
    else
      var c := CallOf(path, es[0]);
      if stop && c != [] && !ok(c[0]) then 1 else 1 + Scanned(path, es[1..], ok, stop)
  }

  /** The callbacks for the first n entries. */
  function Own(path: Str, es: seq<Entry>, n: nat): seq<Call>
    requires n <= |es|
  {
    if n == 0 then [] else Own(path, es, n - 1) + CallOf(path, es[n - 1])
  }

  /** All callbacks of the walk from a directory. */
  function Visit(path: Str, d: Entry, ok: Call -> bool, stop: bool): seq<Call>
    decreases d, 1, 0
  {
    if !d.Dir? then [] else
      var p := Trim(path);
      var n := Scanned(p, d.entries, ok, stop);
      Own(p, d.entries, n) + Subs(p, d, n, ok, stop)
  }

  /** Those of the subdirectories among the first n entries, the last one first. */
  function Subs(path: Str, d: Entry, n: nat, ok: Call -> bool, stop: bool): seq<Call>
    requires d.Dir? && n <= |d.entries|
    decreases d, 0, n
  {
    if n == 0 then [] else
      var e := d.entries[n - 1];
      (if e.Dir? then Visit(Join(path, e.name), e, ok, stop) else []) + Subs(path, d, n - 1, ok, stop)
  }

  class Walker {
    const ok: Call -> bool      // whether the callback succeeds
    const stop: bool            // stopOnError
    var calls: seq<Call>

    constructor (ok: Call -> bool, stop: bool)
      ensures this.ok == ok && this.stop == stop && calls == []
    {
      this.ok, this.stop, calls := ok, stop, [];
    }

    /** The callback on one entry; true when it failed. */
    method Callback(path: Str, e: Entry) returns (failed: bool)
      modifies this
      ensures calls == old(calls) + CallOf(path, e)
      ensures failed <==> CallOf(path, e) != [] && !ok(CallOf(path, e)[0])
    {
      failed := false;
      if e.Dot? || e.File? {
        var c := Call(path, if e.Dot? then [DOT] else e.name);
        calls := calls + [c];
        failed := !ok(c);
      }
    }

    /** The reading loop: callbacks for the entries, directories onto the stack. */
    method ReadEntries(p: Str, es: seq<Entry>) returns (stack: seq<Entry>)
      modifies this
      ensures var n := Scanned(p, es, ok, stop); calls == old(calls) + Own(p, es, n) && stack == Stacked(es, n)
    {
      hide Own, Scanned, Stacked;
      var error := false;
      stack := [];
      var i := 0;
      Start(p, es);
      assert calls + [] == calls && es[0..] == es;
      ghost var n := Scanned(p, es, ok, stop);
      while i < |es| && !(stop && error)
        invariant 0 <= i <= |es|
        invariant calls == old(calls) + Own(p, es, i) && stack == Stacked(es, i)
        invariant n == if stop && error then i else i + Scanned(p, es[i..], ok, stop)
      {
        var e := es[i];
        ReadStep(p, es, i, ok, stop);
        Associate(old(calls), Own(p, es, i), CallOf(p, e));
        if e.Dir? || e.Locked? {
          stack := stack + [e];
        } else if !e.DotDot? {
          var failed := Callback(p, e);
          if failed {
            error := true;
          }
        }
        assert calls == old(calls) + Own(p, es, i) + CallOf(p, e);
        i := i + 1;
      }
    }

    /** traverse_level. Whatever the callbacks return, an opened directory gives 0. */
    method TraverseLevel(path: Str, d: Entry) returns (rv: int)
      requires d.Dir? || d.Locked?
      modifies this
      ensures calls == old(calls) + Visit(path, d, ok, stop)
      ensures rv == if d.Locked? then -1 else 0
      decreases d
    {
      if d.Locked? {
        assert calls + [] == calls;
        return -1;
      }
      hide Subs, Own, Scanned, Stacked, Pops;
      var p := Trim(path);
      ghost var n := Scanned(p, d.entries, ok, stop);
      var stack := ReadEntries(p, d.entries);
      StackedDirs(d.entries, n);
      PopsAreSubs(p, d, n, ok, stop);
      ghost var all := calls + Pops(p, stack, ok, stop);
      Associate(old(calls), Own(p, d.entries, n), Subs(p, d, n, ok, stop));
      while stack != []
        invariant forall k :: 0 <= k < |stack| ==> stack[k] in d.entries && (stack[k].Dir? || stack[k].Locked?)
        invariant calls + Pops(p, stack, ok, stop) == all
        decreases |stack|
      {
        PopsStep(p, stack, ok, stop);
        var e := stack[|stack| - 1];
        stack := stack[..|stack| - 1];
        Associate(calls, Visit(Join(p, e.name), e, ok, stop), Pops(p, stack, ok, stop));
        var ignored := TraverseLevel(Join(p, e.name), e);
      }
      PopsStep(p, stack, ok, stop);
      assert calls + [] == calls;
      return 0;
    }
  }

  lemma Associate<T>(a: seq<T>, b: seq<T>, c: seq<T>)
    ensures a + (b + c) == a + b + c
  {
  }

  /** The directories among the first n entries. */
  function Stacked(es: seq<Entry>, n: nat): seq<Entry>
    requires n <= |es|
  {
    if n == 0 then [] else Stacked(es, n - 1) + if es[n - 1].Dir? || es[n - 1].Locked? then [es[n - 1]] else []
  }

  lemma Start(path: Str, es: seq<Entry>)
    ensures Own(path, es, 0) == [] && Stacked(es, 0) == []
  {
  }

  lemma ReadStep(path: Str, es: seq<Entry>, i: nat, ok: Call -> bool, stop: bool)
    requires i < |es|
    ensures var c := CallOf(path, es[i]);
      && Own(path, es, i + 1) == Own(path, es, i) + c
      && Stacked(es, i + 1) == Stacked(es, i) + (if es[i].Dir? || es[i].Locked? then [es[i]] else [])
      && Scanned(path, es[i..], ok, stop) ==
           if stop && c != [] && !ok(c[0]) then 1 else 1 + Scanned(path, es[i + 1..], ok, stop)
  {
    assert es[i..][1..] == es[i + 1..];
  }

  lemma {:induction false} StackedDirs(es: seq<Entry>, n: nat)
    requires n <= |es|
    ensures forall k :: 0 <= k < |Stacked(es, n)| ==> Stacked(es, n)[k] in es
    ensures forall k :: 0 <= k < |Stacked(es, n)| ==> Stacked(es, n)[k].Dir? || Stacked(es, n)[k].Locked?
  {
    if n > 0 {
      StackedDirs(es, n - 1);
    }
  }

  /** What popping the stack will call. */
  function Pops(path: Str, stack: seq<Entry>, ok: Call -> bool, stop: bool): seq<Call>
    decreases |stack|
  {
    if stack == [] then [] else
      var e := stack[|stack| - 1];
      (if e.Dir? || e.Locked? then Visit(Join(path, e.name), e, ok, stop) else []) +
          Pops(path, stack[..|stack| - 1], ok, stop)
  }

  lemma PopsStep(path: Str, stack: seq<Entry>, ok: Call -> bool, stop: bool)
    ensures stack == [] ==> Pops(path, stack, ok, stop) == []
    ensures stack != [] && (stack[|stack| - 1].Dir? || stack[|stack| - 1].Locked?) ==>
      var e := stack[|stack| - 1];
      Pops(path, stack, ok, stop) == Visit(Join(path, e.name), e, ok, stop) + Pops(path, stack[..|stack| - 1], ok, stop)
  {
  }

  /** Popping what the reading loop stacked visits the subdirectories, the last one first. */
  lemma {:induction false} PopsAreSubs(path: Str, d: Entry, n: nat, ok: Call -> bool, stop: bool)
    requires d.Dir? && n <= |d.entries|
    ensures Pops(path, Stacked(d.entries, n), ok, stop) == Subs(path, d, n, ok, stop)
  {
    if n > 0 {
      PopsAreSubs(path, d, n - 1, ok, stop);
      SubsStep(path, d, n, ok, stop);
      var e := d.entries[n - 1];
      var t := Stacked(d.entries, n - 1);
      if e.Dir? || e.Locked? {
        PopsStep(path, t + [e], ok, stop);
        assert (t + [e])[..|t|] == t;
      } else {
        assert t + [] == t;
      }
      hide Pops, Subs;
      assert [] + Subs(path, d, n - 1, ok, stop) == Subs(path, d, n - 1, ok, stop);
    }
  }

  /** The callbacks of one entry's subtree. */
  function Block(path: Str, e: Entry, ok: Call -> bool, stop: bool): seq<Call> {
    if e.Dir? then Visit(Join(path, e.name), e, ok, stop) else []
  }

  lemma SubsStep(path: Str, d: Entry, n: nat, ok: Call -> bool, stop: bool)
    requires d.Dir? && 0 < n <= |d.entries|
    ensures Subs(path, d, n, ok, stop) == Block(path, d.entries[n - 1], ok, stop) + Subs(path, d, n - 1, ok, stop)
  {
  }

  // ---- what a walk does on every tree ----

  /** Names as a file system has them: not empty, no slash, different within one directory. */
  predicate GoodNames(d: Entry)
    decreases d
  {
    d.Dir? ==>
      && (forall i :: 0 <= i < |d.entries| && Named(d.entries[i]) ==>
            d.entries[i].name != [] && SLASH !in d.entries[i].name)
      && (forall i, j :: 0 <= i < j < |d.entries| && Named(d.entries[i]) && Named(d.entries[j]) ==>
          d.entries[i].name != d.entries[j].name)
      && (forall i :: 0 <= i < |d.entries| ==> GoodNames(d.entries[i]))
  }

  lemma GoodChild(d: Entry, i: nat)
    requires GoodNames(d) && d.Dir? && i < |d.entries|
    ensures GoodNames(d.entries[i])
    ensures Named(d.entries[i]) ==> d.entries[i].name != [] && SLASH !in d.entries[i].name
    ensures forall j :: 0 <= j < |d.entries| && j != i && Named(d.entries[i]) && Named(d.entries[j]) ==>
        d.entries[i].name != d.entries[j].name
  {
  }

  predicate Named(e: Entry) {
    e.File? || e.Dir? || e.Locked?
  }

  /** A path at or below p. */
  predicate Under(p: Str, q: Str) {
    q == p || p + [SLASH] <= q
  }

  lemma UnderTrans(p: Str, q: Str, r: Str)
    requires Under(p, q) && Under(q, r)
    ensures Under(p, r)
  {
    if q != p && r != q {
      assert r[..|p| + 1] == q[..|p| + 1];
    }
  }

  /** The text up to the first slash. */
  function FirstPart(s: Str): Str {
    if s == [] || s[0] == SLASH then [] else [s[0]] + FirstPart(s[1..])
  }

  lemma {:induction false} FirstPartIs(a: Str, rest: Str)
    requires SLASH !in a && (rest == [] || rest[0] == SLASH)
    ensures FirstPart(a + rest) == a
  {
    if a == [] {
      assert a + rest == rest;
    } else {
      assert a[0] in a && (forall c :: c in a[1..] ==> c in a);
      FirstPartIs(a[1..], rest);
      assert (a + rest)[1..] == a[1..] + rest;
    }
  }

  lemma PartBelow(p: Str, a: Str, q: Str)
    requires SLASH !in a && Under(Join(p, a), q)
    ensures |q| > |p| && FirstPart(q[|p| + 1..]) == a
  {
    var x := Join(p, a);
    assert x <= q;
    assert q[|p| + 1..] == a + q[|x|..];
    FirstPartIs(a, q[|x|..]);
  }

  /** No path is at or below two different names of one directory, nor is the directory itself. */
  lemma Apart(p: Str, a: Str, b: Str, q: Str)
    requires a != b && SLASH !in a && SLASH !in b
    ensures Under(Join(p, a), q) ==> !Under(Join(p, b), q)
    ensures !Under(Join(p, a), p)
  {
    if Under(Join(p, a), q) {
      PartBelow(p, a, q);
      if Under(Join(p, b), q) {
        PartBelow(p, b, q);
      }
    }
  }

  lemma JoinTrimmed(p: Str, name: Str)
    requires name != [] && SLASH !in name
    ensures Trim(Join(p, name)) == Join(p, name)
  {
    assert Join(p, name)[|Join(p, name)| - 1] == name[|name| - 1];
    assert name[|name| - 1] in name;
  }

  predicate AllAt(calls: seq<Call>, p: Str) {
    forall i :: 0 <= i < |calls| ==> calls[i].parent == p
  }

  predicate AllUnder(calls: seq<Call>, p: Str) {
    forall i :: 0 <= i < |calls| ==> Under(p, calls[i].parent)
  }

  predicate NoneUnder(calls: seq<Call>, p: Str) {
    forall i :: 0 <= i < |calls| ==> !Under(p, calls[i].parent)
  }

  predicate NoneAt(calls: seq<Call>, p: Str) {
    forall i :: 0 <= i < |calls| ==> calls[i].parent != p
  }

  lemma {:induction false} OwnAt(path: Str, es: seq<Entry>, n: nat)
    requires n <= |es|
    ensures AllAt(Own(path, es, n), path)
  {
    if n > 0 {
      OwnAt(path, es, n - 1);
    }
  }

  lemma {:induction false} VisitUnder(path: Str, d: Entry, ok: Call -> bool, stop: bool)
    requires GoodNames(d)
    ensures AllUnder(Visit(path, d, ok, stop), Trim(path))
    decreases d, 1, 0
  {
    if d.Dir? {
      var p := Trim(path);
      var n := Scanned(p, d.entries, ok, stop);
      OwnAt(p, d.entries, n);
      SubsUnder(p, d, n, ok, stop);
      hide Own, Subs;
    }
  }

  lemma {:induction false} SubsUnder(p: Str, d: Entry, n: nat, ok: Call -> bool, stop: bool)
    requires d.Dir? && GoodNames(d) && n <= |d.entries|
    ensures AllUnder(Subs(p, d, n, ok, stop), p) && NoneAt(Subs(p, d, n, ok, stop), p)
    decreases d, 0, n
  {
    hide GoodNames;
    if n > 0 {
      GoodChild(d, n - 1);
      SubsUnder(p, d, n - 1, ok, stop);
      SubsStep(p, d, n, ok, stop);
      var e := d.entries[n - 1];
      hide Subs, Visit, AllUnder, NoneAt;
      if e.Dir? {
        VisitUnder(Join(p, e.name), e, ok, stop);
        JoinTrimmed(p, e.name);
        BelowIsUnder(Visit(Join(p, e.name), e, ok, stop), p, e.name);
      } else {
        NothingUnder(p);
      }
      BothUnder(Block(p, e, ok, stop), Subs(p, d, n - 1, ok, stop), p);
    } else {
      NothingUnder(p);
    }
  }

  lemma NothingUnder(p: Str)
    ensures AllUnder([], p) && NoneAt([], p)
  {
  }

  lemma BothUnder(a: seq<Call>, b: seq<Call>, p: Str)
    requires AllUnder(a, p) && NoneAt(a, p) && AllUnder(b, p) && NoneAt(b, p)
    ensures AllUnder(a + b, p) && NoneAt(a + b, p)
  {
    hide Under;
  }

  lemma BelowIsUnder(calls: seq<Call>, p: Str, name: Str)
    requires AllUnder(calls, Join(p, name))
    ensures AllUnder(calls, p) && NoneAt(calls, p)
  {
    forall i | 0 <= i < |calls| ensures Under(p, calls[i].parent) && calls[i].parent != p {
      assert Under(p, Join(p, name));
      UnderTrans(p, Join(p, name), calls[i].parent);
    }
  }

  /** On every tree, a directory's own callbacks all come before any callback for something below it. */
  lemma OwnEntriesFirst(path: Str, d: Entry, ok: Call -> bool, stop: bool)
    requires d.Dir? && GoodNames(d)
    ensures var p := Trim(path); var n := Scanned(p, d.entries, ok, stop); var all := Visit(path, d, ok, stop);
      && Own(p, d.entries, n) <= all && AllAt(Own(p, d.entries, n), p)
      && NoneAt(all[|Own(p, d.entries, n)|..], p) && AllUnder(all, p)
  {
    var p := Trim(path);
    var n := Scanned(p, d.entries, ok, stop);
    OwnAt(p, d.entries, n);
    SubsUnder(p, d, n, ok, stop);
    VisitUnder(path, d, ok, stop);
    assert Visit(path, d, ok, stop)[|Own(p, d.entries, n)|..] == Subs(p, d, n, ok, stop);
  }

  /** The directory d2 at path p2 lies in the tree of d at path p, k steps down. */
  ghost predicate Holds(p: Str, d: Entry, p2: Str, d2: Entry, k: nat)
    decreases k
  {
    if k == 0 then p2 == p && d2 == d
    else d.Dir? && exists i ::
      0 <= i < |d.entries| && d.entries[i].Dir? && Holds(Join(p, d.entries[i].name), d.entries[i], p2, d2, k - 1)
  }

  /** The callbacks of d2 stand together in those of the whole walk, and no others lie at or below its path. */
  ghost predicate Together(all: seq<Call>, part: seq<Call>, p2: Str) {
    exists a, b :: Around(all, a, part, b) && NoneUnder(a, p2) && NoneUnder(b, p2)
  }

  predicate Around(all: seq<Call>, a: seq<Call>, part: seq<Call>, b: seq<Call>) {
    all == a + part + b
  }

  lemma {:induction false} HoldsUnder(p: Str, d: Entry, p2: Str, d2: Entry, k: nat)
    requires Holds(p, d, p2, d2, k)
    ensures Under(p, p2)
    decreases k
  {
    if k > 0 {
      var i :| 0 <= i < |d.entries| && d.entries[i].Dir?
          && Holds(Join(p, d.entries[i].name), d.entries[i], p2, d2, k - 1);
      HoldsUnder(Join(p, d.entries[i].name), d.entries[i], p2, d2, k - 1);
      assert Under(p, Join(p, d.entries[i].name));
      UnderTrans(p, Join(p, d.entries[i].name), p2);
    }
  }

  lemma NoneDeeper(calls: seq<Call>, p: Str, p2: Str)
    requires NoneUnder(calls, p) && Under(p, p2)
    ensures NoneUnder(calls, p2)
  {
    forall i | 0 <= i < |calls| ensures !Under(p2, calls[i].parent) {
      if Under(p2, calls[i].parent) {
        UnderTrans(p, p2, calls[i].parent);
      }
    }
  }

  /** The subdirectories other than the one at place i stay clear of it. */
  lemma {:induction false} OthersClear(p: Str, d: Entry, n: nat, i: nat, ok: Call -> bool, stop: bool)
    requires d.Dir? && GoodNames(d) && n <= |d.entries| && i < |d.entries| && d.entries[i].Dir? && n <= i
    ensures NoneUnder(Subs(p, d, n, ok, stop), Join(p, d.entries[i].name))
  {
    hide GoodNames, Subs, Block, NoneUnder, Visit;
    var q := Join(p, d.entries[i].name);
    if n > 0 {
      OthersClear(p, d, n - 1, i, ok, stop);
      SubsStep(p, d, n, ok, stop);
      if d.entries[n - 1].Dir? {
        BlockClear(p, d, n - 1, i, ok, stop);
      }
      BlockIs(p, d.entries[n - 1], ok, stop);
      ClearJoin(Block(p, d.entries[n - 1], ok, stop), Subs(p, d, n - 1, ok, stop), q);
    } else {
      NoSubs(p, d, ok, stop);
      ClearJoin([], [], q);
    }
  }

  lemma NoSubs(p: Str, d: Entry, ok: Call -> bool, stop: bool)
    requires d.Dir?
    ensures Subs(p, d, 0, ok, stop) == []
  {
  }

  lemma BlockIs(p: Str, e: Entry, ok: Call -> bool, stop: bool)
    ensures Block(p, e, ok, stop) == if e.Dir? then Visit(Join(p, e.name), e, ok, stop) else []
  {
  }

  lemma ClearJoin(a: seq<Call>, b: seq<Call>, q: Str)
    ensures (a == [] || NoneUnder(a, q)) && NoneUnder(b, q) ==> NoneUnder(a + b, q)
    ensures NoneUnder([], q)
  {
    hide Under;
  }

  lemma BlockClear(p: Str, d: Entry, j: nat, i: nat, ok: Call -> bool, stop: bool)
    requires d.Dir? && GoodNames(d) && j < |d.entries| && i < |d.entries| && i != j
    requires d.entries[i].Dir? && d.entries[j].Dir?
    ensures NoneUnder(Visit(Join(p, d.entries[j].name), d.entries[j], ok, stop), Join(p, d.entries[i].name))
  {
    var a, b := d.entries[j].name, d.entries[i].name;
    GoodChild(d, j);
    GoodChild(d, i);
    hide GoodNames, Visit;
    VisitUnder(Join(p, a), d.entries[j], ok, stop);
    JoinTrimmed(p, a);
    var calls := Visit(Join(p, a), d.entries[j], ok, stop);
    forall k | 0 <= k < |calls| ensures !Under(Join(p, b), calls[k].parent) {
      Apart(p, a, b, calls[k].parent);
    }
  }

  /** The block of subdirectory i among those of the first n entries. */
  lemma {:induction false} SubTogether(p: Str, d: Entry, n: nat, i: nat, ok: Call -> bool, stop: bool)
    requires d.Dir? && GoodNames(d) && i < n <= |d.entries| && d.entries[i].Dir?
    ensures Together(Subs(p, d, n, ok, stop), Visit(Join(p, d.entries[i].name), d.entries[i], ok, stop),
        Join(p, d.entries[i].name))
  {
    hide Subs, Visit, GoodNames, Together, Block, Join, NoneUnder;
    var e, q := d.entries[n - 1], Join(p, d.entries[i].name);
    var part := Visit(q, d.entries[i], ok, stop);
    var rest := Subs(p, d, n - 1, ok, stop);
    SubsStep(p, d, n, ok, stop);
    BlockIs(p, e, ok, stop);
    ClearJoin([], [], q);
    if i == n - 1 {
      OthersClear(p, d, n - 1, i, ok, stop);
      Leads(part, rest, q);
    } else {
      SubTogether(p, d, n - 1, i, ok, stop);
      if e.Dir? {
        BlockClear(p, d, n - 1, i, ok, stop);
      }
      Prepend(Block(p, e, ok, stop), rest, part, q);
    }
  }

  lemma Leads(part: seq<Call>, rest: seq<Call>, q: Str)
    requires NoneUnder(rest, q)
    ensures Together(part + rest, part, q)
  {
    assert Around(part + rest, [], part, rest);
  }

  lemma Prepend(block: seq<Call>, rest: seq<Call>, part: seq<Call>, q: Str)
    requires NoneUnder(block, q) && Together(rest, part, q)
    ensures Together(block + rest, part, q)
  {
    var a, b :| Around(rest, a, part, b) && NoneUnder(a, q) && NoneUnder(b, q);
    Shift(block, a, part, b);
    assert Around(block + rest, block + a, part, b);
  }

  lemma Shift<T>(x: seq<T>, a: seq<T>, part: seq<T>, b: seq<T>)
    ensures x + (a + part + b) == (x + a) + part + b
  {
  }

  lemma Nested<T>(a: seq<T>, c: seq<T>, part: seq<T>, e: seq<T>, b: seq<T>)
    ensures a + (c + part + e) + b == (a + c) + part + (e + b)
  {
  }

  /** A directory that holds another one below holds it through one of its own. */
  lemma HoldsThrough(p: Str, d: Entry, p2: Str, d2: Entry, k: nat) returns (i: nat)
    requires GoodNames(d) && d.Dir? && Trim(p) == p && Holds(p, d, p2, d2, k) && k > 0
    ensures i < |d.entries| && d.entries[i].Dir? && GoodNames(d.entries[i])
    ensures var q := Join(p, d.entries[i].name); Trim(q) == q && Holds(q, d.entries[i], p2, d2, k - 1)
  {
    i :| 0 <= i < |d.entries| && d.entries[i].Dir?
         && Holds(Join(p, d.entries[i].name), d.entries[i], p2, d2, k - 1);
    hide Holds;
    JoinTrimmed(p, d.entries[i].name);
  }

  lemma WholeTogether(all: seq<Call>, p: Str)
    ensures Together(all, all, p)
  {
    assert Around(all, [], all, []);
  }

  /**
   * With callbacks that succeed, the walk from any directory below comes as one block within the whole walk, and
   * that directory and everything under it get no callback outside the block.
   */
  lemma {:induction false} SubtreesTogether(p: Str, d: Entry, p2: Str, d2: Entry, k: nat, ok: Call -> bool, stop: bool)
    requires GoodNames(d) && d.Dir? && Trim(p) == p && Holds(p, d, p2, d2, k) && (forall c :: ok(c))
    ensures Together(Visit(p, d, ok, stop), Visit(p2, d2, ok, stop), p2)
    decreases k
  {
    var all := Visit(p, d, ok, stop);
    if k == 0 {
      WholeTogether(all, p);
    } else {
      hide Visit, Together, GoodNames, Trim, Join;
      var i := HoldsThrough(p, d, p2, d2, k);
      hide Holds;
      var q, e := Join(p, d.entries[i].name), d.entries[i];
      SubtreesTogether(q, e, p2, d2, k - 1, ok, stop);
      HoldsUnder(q, e, p2, d2, k - 1);
      ChildTogether(p, d, i, ok, stop);
      Inner(all, Visit(q, e, ok, stop), q, Visit(p2, d2, ok, stop), p2);
    }
  }

  lemma ChildTogether(p: Str, d: Entry, i: nat, ok: Call -> bool, stop: bool)
    requires GoodNames(d) && d.Dir? && Trim(p) == p && i < |d.entries| && d.entries[i].Dir? && (forall c :: ok(c))
    ensures Together(Visit(p, d, ok, stop), Visit(Join(p, d.entries[i].name), d.entries[i], ok, stop),
        Join(p, d.entries[i].name))
  {
    AllRead(p, d.entries, ok, stop);
    SubTogether(p, d, |d.entries|, i, ok, stop);
    OwnClear(p, d, i);
    assert Visit(p, d, ok, stop) == Own(p, d.entries, |d.entries|) + Subs(p, d, |d.entries|, ok, stop);
    hide Own, Subs, Visit, GoodNames;
    var q := Join(p, d.entries[i].name);
    Prepend(Own(p, d.entries, |d.entries|), Subs(p, d, |d.entries|, ok, stop), Visit(q, d.entries[i], ok, stop), q);
  }

  /** A block within a block. */
  lemma Inner(all: seq<Call>, mid: seq<Call>, q: Str, part: seq<Call>, p2: Str)
    requires Together(all, mid, q) && Together(mid, part, p2) && Under(q, p2)
    ensures Together(all, part, p2)
  {
    var a, b :| Around(all, a, mid, b) && NoneUnder(a, q) && NoneUnder(b, q);
    var c, e :| Around(mid, c, part, e) && NoneUnder(c, p2) && NoneUnder(e, p2);
    NoneDeeper(a, q, p2);
    NoneDeeper(b, q, p2);
    Nested(a, c, part, e, b);
    assert Around(all, a + c, part, e + b);
  }

  lemma OwnClear(p: Str, d: Entry, i: nat)
    requires d.Dir? && GoodNames(d) && i < |d.entries| && d.entries[i].Dir?
    ensures NoneUnder(Own(p, d.entries, |d.entries|), Join(p, d.entries[i].name))
  {
    OwnAt(p, d.entries, |d.entries|);
    Apart(p, d.entries[i].name, [], p);
  }

  lemma {:induction false} AllRead(p: Str, es: seq<Entry>, ok: Call -> bool, stop: bool)
    requires forall c :: ok(c)
    ensures Scanned(p, es, ok, stop) == |es|
  {
    if es != [] {
      AllRead(p, es[1..], ok, stop);
    }
  }

  // ---- every object once ----

  /** How often a callback is made. */
  function Times(calls: seq<Call>, c: Call): nat {
    if calls == [] then 0 else Times(calls[..|calls| - 1], c) + if calls[|calls| - 1] == c then 1 else 0
  }

  lemma {:induction false} TimesJoin(a: seq<Call>, b: seq<Call>, c: Call)
    ensures Times(a + b, c) == Times(a, c) + Times(b, c)
  {
    if b == [] {
      assert a + b == a;
    } else {
      TimesJoin(a, b[..|b| - 1], c);
      assert (a + b)[..|a + b| - 1] == a + b[..|b| - 1];
    }
  }

  lemma {:induction false} TimesNone(calls: seq<Call>, c: Call)
    requires forall i :: 0 <= i < |calls| ==> calls[i].parent != c.parent
    ensures Times(calls, c) == 0
  {
    if calls != [] {
      TimesNone(calls[..|calls| - 1], c);
    }
  }

  /** The callback that an entry deserves: "." and a file one of their own name, a directory none in its parent. */
  predicate Deserves(path: Str, e: Entry, c: Call) {
    c.parent == path && ((e.Dot? && c.name == [DOT]) || (e.File? && c.name == e.name))
  }

  lemma CallDeserved(path: Str, e: Entry, c: Call)
    ensures CallOf(path, e) == [c] <==> Deserves(path, e, c)
  {
  }

  /** How many entries of a tree deserve that callback, wherever they are. */
  function Objects(path: Str, d: Entry, c: Call): nat
    decreases d, 1, 0
  {
    if d.Dir? then ObjectsTo(path, d, |d.entries|, c) else 0
  }

  function ObjectsTo(path: Str, d: Entry, n: nat, c: Call): nat
    requires d.Dir? && n <= |d.entries|
    decreases d, 0, n
  {
    if n == 0 then 0 else
      var e := d.entries[n - 1];
      ObjectsTo(path, d, n - 1, c) + (if Deserves(path, e, c) then 1 else 0) +
          if e.Dir? then Objects(Join(path, e.name), e, c) else 0
  }

  /** With callbacks that succeed, every object of the tree gets its callback, and nothing else does. */
  lemma {:induction false} EachObjectCalled(p: Str, d: Entry, ok: Call -> bool, stop: bool, c: Call)
    requires GoodNames(d) && Trim(p) == p && (forall x :: ok(x))
    ensures Times(Visit(p, d, ok, stop), c) == Objects(p, d, c)
    decreases d, 1, 0
  {
    if d.Dir? {
      AllRead(p, d.entries, ok, stop);
      EachObjectTo(p, d, |d.entries|, ok, stop, c);
      TimesJoin(Own(p, d.entries, |d.entries|), Subs(p, d, |d.entries|, ok, stop), c);
    }
  }

  lemma {:induction false} EachObjectTo(p: Str, d: Entry, n: nat, ok: Call -> bool, stop: bool, c: Call)
    requires d.Dir? && GoodNames(d) && n <= |d.entries| && Trim(p) == p && (forall x :: ok(x))
    ensures Times(Own(p, d.entries, n), c) + Times(Subs(p, d, n, ok, stop), c) == ObjectsTo(p, d, n, c)
    decreases d, 0, n
  {
    hide GoodNames, Subs, Visit, Own, CallOf, Deserves, Objects, ObjectsTo, Block, Times;
    if n == 0 {
      NothingYet(p, d, ok, stop, c);
    } else {
      var e := d.entries[n - 1];
      EachObjectTo(p, d, n - 1, ok, stop, c);
      GoodChild(d, n - 1);
      BlockObjects(p, e, ok, stop, c);
      if e.Dir? {
        JoinTrimmed(p, e.name);
        EachObjectCalled(Join(p, e.name), e, ok, stop, c);
      }
      OwnStep(p, d.entries, n);
      SubsStep(p, d, n, ok, stop);
      ObjectsStep(p, d, n, c);
      TimesOne(p, e, c);
      CallDeserved(p, e, c);
      EntryTimes(Own(p, d.entries, n - 1), CallOf(p, e), Block(p, e, ok, stop), Subs(p, d, n - 1, ok, stop), c);
    }
  }

  lemma NothingYet(p: Str, d: Entry, ok: Call -> bool, stop: bool, c: Call)
    requires d.Dir?
    ensures Times(Own(p, d.entries, 0), c) == Times(Subs(p, d, 0, ok, stop), c) == ObjectsTo(p, d, 0, c) == 0
  {
  }

  lemma EntryTimes(own: seq<Call>, call: seq<Call>, block: seq<Call>, subs: seq<Call>, c: Call)
    ensures Times(own + call, c) + Times(block + subs, c) == Times(own, c) + Times(call, c) + Times(block, c) +
        Times(subs, c)
  {
    TimesJoin(own, call, c);
    TimesJoin(block, subs, c);
  }

  lemma OwnStep(p: Str, es: seq<Entry>, n: nat)
    requires 0 < n <= |es|
    ensures Own(p, es, n) == Own(p, es, n - 1) + CallOf(p, es[n - 1])
  {
  }

  lemma BlockObjects(p: Str, e: Entry, ok: Call -> bool, stop: bool, c: Call)
    ensures Times(Block(p, e, ok, stop), c) == if e.Dir? then Times(Visit(Join(p, e.name), e, ok, stop), c) else 0
  {
  }

  lemma ObjectsStep(p: Str, d: Entry, n: nat, c: Call)
    requires d.Dir? && 0 < n <= |d.entries|
    ensures var e := d.entries[n - 1];
      ObjectsTo(p, d, n, c) == ObjectsTo(p, d, n - 1, c) + (if Deserves(p, e, c) then 1 else 0)
        + if e.Dir? then Objects(Join(p, e.name), e, c) else 0
  {
  }

  lemma TimesOne(p: Str, e: Entry, c: Call)
    ensures Times(CallOf(p, e), c) == if CallOf(p, e) == [c] then 1 else 0
  {
    assert |CallOf(p, e)| == 1 ==> CallOf(p, e)[..0] == [];
  }

  /** A directory as readdir gives it: "." at most once, and no other entry of that name. */
  predicate OneDot(d: Entry)
    decreases d
  {
    d.Dir? ==>
      && (forall i, j :: 0 <= i < j < |d.entries| ==> !(d.entries[i].Dot? && d.entries[j].Dot?))
      && (forall i :: 0 <= i < |d.entries| && d.entries[i].File? ==> d.entries[i].name != [DOT])
      && (forall i :: 0 <= i < |d.entries| ==> OneDot(d.entries[i]))
  }

  lemma OneDotChild(d: Entry, i: nat)
    requires OneDot(d) && d.Dir? && i < |d.entries|
    ensures OneDot(d.entries[i])
  {
  }

  lemma {:induction false} OwnOnce(p: Str, d: Entry, n: nat, c: Call)
    requires d.Dir? && GoodNames(d) && OneDot(d) && n <= |d.entries|
    ensures Times(Own(p, d.entries, n), c) <= 1
    ensures Times(Own(p, d.entries, n), c) == 1 ==> exists i :: 0 <= i < n && CallOf(p, d.entries[i]) == [c]
  {
    hide GoodNames, OneDot, CallOf;
    if n > 0 {
      OwnOnce(p, d, n - 1, c);
      OwnStep(p, d.entries, n);
      TimesJoin(Own(p, d.entries, n - 1), CallOf(p, d.entries[n - 1]), c);
      TimesOne(p, d.entries[n - 1], c);
      hide Own, Times;
      CallsDiffer(p, d, n - 1, c);
    }
  }

  lemma CallsDiffer(p: Str, d: Entry, k: nat, c: Call)
    requires d.Dir? && GoodNames(d) && OneDot(d) && k < |d.entries|
    ensures CallOf(p, d.entries[k]) == [c] ==> forall i :: 0 <= i < k ==> CallOf(p, d.entries[i]) != [c]
  {
    GoodChild(d, k);
    hide GoodNames;
  }

  /** On every tree and whatever the callbacks return, no callback is made twice. */
  lemma {:induction false} NeverTwice(p: Str, d: Entry, ok: Call -> bool, stop: bool, c: Call)
    requires GoodNames(d) && OneDot(d) && Trim(p) == p
    ensures Times(Visit(p, d, ok, stop), c) <= 1
    decreases d, 1, 0
  {
    if d.Dir? {
      var n := Scanned(p, d.entries, ok, stop);
      var own, subs := Own(p, d.entries, n), Subs(p, d, n, ok, stop);
      TimesJoin(own, subs, c);
      OwnAt(p, d.entries, n);
      SubsUnder(p, d, n, ok, stop);
      if c.parent == p {
        OwnOnce(p, d, n, c);
        TimesNone(subs, c);
      } else {
        TimesNone(own, c);
        SubsOnce(p, d, n, ok, stop, c);
      }
    }
  }

  lemma {:induction false} SubsOnce(p: Str, d: Entry, n: nat, ok: Call -> bool, stop: bool, c: Call)
    requires d.Dir? && GoodNames(d) && OneDot(d) && n <= |d.entries| && Trim(p) == p
    ensures Times(Subs(p, d, n, ok, stop), c) <= 1
    decreases d, 0, n
  {
    hide GoodNames, OneDot, Subs, Visit, Times, Block, NoneUnder, AllUnder;
    if n > 0 {
      GoodChild(d, n - 1);
      OneDotChild(d, n - 1);
      SubsOnce(p, d, n - 1, ok, stop, c);
      SubsStep(p, d, n, ok, stop);
      var e := d.entries[n - 1];
      var block, rest := Block(p, e, ok, stop), Subs(p, d, n - 1, ok, stop);
      BlockIs(p, e, ok, stop);
      if e.Dir? {
        var q := Join(p, e.name);
        JoinTrimmed(p, e.name);
        NeverTwice(q, e, ok, stop, c);
        VisitUnder(q, e, ok, stop);
        OthersClear(p, d, n - 1, n - 1, ok, stop);
        Exclusive(block, rest, q, c);
      } else {
        assert block + rest == rest;
      }
    } else {
      NothingYet(p, d, ok, stop, c);
    }
  }

  lemma Exclusive(block: seq<Call>, rest: seq<Call>, q: Str, c: Call)
    requires AllUnder(block, q) && NoneUnder(rest, q) && Times(block, c) <= 1 && Times(rest, c) <= 1
    ensures Times(block + rest, c) <= 1
  {
    TimesJoin(block, rest, c);
    if Under(q, c.parent) {
      TimesNone(rest, c);
    } else {
      TimesNone(block, c);
    }
  }

  // ---- failing callbacks ----

  /** With stopOnError no entry of a directory is read after the first failing callback, which is its last one. */
  lemma {:induction false} StopsAtFirstError(path: Str, es: seq<Entry>, ok: Call -> bool)
    ensures var n := Scanned(path, es, ok, true);
      && (forall i :: 0 <= i < n - 1 && CallOf(path, es[i]) != [] ==> ok(CallOf(path, es[i])[0]))
      && (n < |es| ==> n > 0 && CallOf(path, es[n - 1]) != [] && !ok(CallOf(path, es[n - 1])[0]))
  {
    if es != [] {
      StopsAtFirstError(path, es[1..], ok);
    }
  }
}
