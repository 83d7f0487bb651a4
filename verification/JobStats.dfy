/** The ring of job statistics: a circular doubly linked list of reference-counted links (tlm_info.c). */
module JobStats {
  import opened Bytes

  const MAX_BACKUP_JOB_NAME := 32

  /** A link as its users see it: a job name and how many parties are interested. */
  datatype Job = Job(name: Str, count: int)

  class Link {
    const name: Str     // js_job_name
    var count: int
    var next: Link
    var prev: Link

    constructor (name: Str)
      ensures this.name == name && count == 1 && next == this && prev == this
    {
      this.name, count := name, 1;
      next, prev := this, this;
    }
  }

  function StoredName(name: Str): Str {
    Cut(name, MAX_BACKUP_JOB_NAME - 1)
  }

  /** Links each pointing to the next one and back to the one before. */
  ghost predicate Chained(links: seq<Link>)
    reads links`next, links`prev
  {
    && (forall i {:trigger links[i].next} :: 0 <= i < |links| - 1 ==> links[i].next == links[i + 1])
    && (forall i {:trigger links[i].prev} :: 0 < i < |links| ==> links[i].prev == links[i - 1])
  }

  predicate Distinct(links: seq<Link>) {
    forall i, j :: 0 <= i < j < |links| ==> links[i] != links[j]
  }

  /** With link k left out, the rest of a cycle from behind it is chained. */
  lemma RestChained(links: seq<Link>, k: nat)
    requires k < |links| && Distinct(links) && Chained(links)
    requires links[|links| - 1].next == links[0] && links[0].prev == links[|links| - 1]
    ensures var now := links[k + 1..] + links[..k];
      && Chained(now) && Distinct(now) && links[k] !in now
      && (now != [] ==> links[k].next == now[0] && links[k].prev == now[|now| - 1])
  {
    var now, n := links[k + 1..] + links[..k], |links|;
    forall i | 0 <= i < n - 1 ensures now[i] == if i < n - 1 - k then links[k + 1 + i] else links[i - (n - 1 - k)] {
    }
  }

  class Ring {
    var top: Link?              // ti_job_stats
    var locked: bool            // jstat_mtx between two calls
    ghost var links: seq<Link>  // the links once round from top
    ghost var jobs: seq<Job>    // what they hold

    /** One cycle in which next and prev are inverse. */
    ghost predicate Cycle()
      reads `top, `links, links`next, links`prev
    {
      && top == (if links == [] then null else links[0])
      && Distinct(links) && Chained(links)
      && (links != [] ==> links[|links| - 1].next == links[0] && links[0].prev == links[|links| - 1])
    }

    /** A cycle whose links all have a count of at least 1; jobs is what they hold. */
    ghost predicate Valid()
      reads `top, `links, `jobs, links
    {
      && Cycle() && |jobs| == |links|
      && (forall i {:trigger links[i].count} {:trigger jobs[i]} ::
            0 <= i < |links| ==> jobs[i] == Job(links[i].name, links[i].count) && links[i].count >= 1)
    }

    constructor ()
      ensures Valid() && jobs == [] && !locked && links == []
    {
      top, locked, links, jobs := null, false, [], [];
    }

    /** A fresh link closes the cycle in front of the top and becomes the top. */
    method PutOnTop(link: Link)
      requires Cycle() && link !in links && link.next == link && link.prev == link
      modifies `top, `links, links`next, links`prev, link`next, link`prev
      ensures Cycle() && links == [link] + old(links)
    {
      ghost var n := |links|;
      if top != null {
        var next := top;
        var prev := next.prev;
        link.next := next;
        link.prev := prev;
        prev.next := link;
        next.prev := link;
      }
      top, links := link, [link] + links;
      assert links[n] == if n == 0 then link else old(links)[n - 1];
    }

    /** tlm_new_job_stats: the new link goes in front of the top and becomes the top. */
    method New(name: Str)
      requires Valid() && !locked
      modifies this, links
      ensures Valid() && !locked && jobs == [Job(StoredName(name), 1)] + old(jobs)
      ensures forall l :: l in links ==> l in old(links) || fresh(l)
    {
      var link := new Link(StoredName(name));
      PutOnTop(link);
      jobs := [Job(link.name, 1)] + jobs;
    }

    /** The walk round the ring: the first link of that name from top. */
    method Search(name: Str) returns (link: Link?, ghost k: nat)
      requires Valid() && top != null
      ensures k == Find(jobs, name)
      ensures link == if Find(jobs, name) < |links| then links[Find(jobs, name)] else null
    {
      link, k := top, 0;
      while true
        invariant 0 <= k < |links| && link == links[k]
        invariant Find(jobs, name) == k + Find(jobs[k..], name)
        decreases |links| - k
      {
        if link.name == name {
          return;
        }
        link := link.next;
        k := k + 1;
        if link == top {
          link := null;
          return;
        }
      }
    }

    /** tlm_ref_job_stats: the first link of that name counts one more; without one the caller gets a fake. */
    method Ref(name: Str) returns (found: bool)
      requires Valid() && !locked
      modifies `jobs, links`count
      ensures Valid() && !locked
      ensures jobs == Reffed(old(jobs), name)
      ensures found == (Find(old(jobs), name) < |old(jobs)|)
    {
      if top == null {
        return false;
      }
      var link, k := Search(name);
      if link == null {
        return false;
      }
      link.count := link.count + 1;
      jobs := jobs[k := Job(link.name, link.count)];
      return true;
    }

    /** The link is taken out of the cycle; the one behind it becomes the top. */
    method Unlink(link: Link, ghost k: nat)
      requires Cycle() && k < |links| && link == links[k]
      modifies `top, `links, links`next, links`prev
      ensures Cycle() && links == old(links)[k + 1..] + old(links)[..k]
    {
      ghost var now := links[k + 1..] + links[..k];
      RestChained(links, k);
      var newTop: Link? := if link.next == link.prev && link.next == link then null else link.next;
      var next, prev := link.next, link.prev;
      prev.next := next;
      next.prev := prev;
      top, links := newTop, now;
    }

    /** tlm_un_ref: one party less; the last one takes the link out. */
    method UnRefLink(link: Link, ghost k: nat)
      requires Valid() && k < |links| && link == links[k]
      modifies `top, `links, `jobs, links
      ensures Valid() && jobs == Dropped(old(jobs), k)
      ensures forall l :: l in links ==> l in old(links)
    {
      link.count := link.count - 1;
      if link.count > 0 {
        jobs := jobs[k := Job(link.name, link.count)];
        return;
      }
      TakeOut(link, k);
    }

    /** The link is looked for from the top on, and leaves the ring. */
    method TakeOut(link: Link, ghost k: nat)
      requires Cycle() && |jobs| == |links| && k < |links| && link == links[k]
      requires forall i {:trigger links[i].count} {:trigger jobs[i]} ::
                 0 <= i < |links| && i != k ==> jobs[i] == Job(links[i].name, links[i].count) && links[i].count >= 1
      modifies `top, `links, `jobs, links`next, links`prev
      ensures Valid() && jobs == old(jobs)[k + 1..] + old(jobs)[..k]
      ensures links == old(links)[k + 1..] + old(links)[..k]
    {
      var chain: Link := top;
      ghost var i := 0;
      while chain != link
        invariant 0 <= i <= k && chain == links[i]
        decreases k - i
      {
        chain := chain.next;
        i := i + 1;
      }
      Unlink(link, k);
      jobs := jobs[k + 1..] + jobs[..k];
    }

    /** tlm_un_ref_job_stats. On an empty ring it returns without giving the lock back. */
    method UnRef(name: Str)
      requires Valid() && !locked
      modifies this, links
      ensures Valid() && jobs == UnReffed(old(jobs), name)
      ensures locked == (old(jobs) == [])
      ensures forall l :: l in links ==> l in old(links)
    {
      locked := true;
      if top == null {
        return;
      }
      var link, k := Search(name);
      hide Dropped, Find;
      if link != null {
        UnRefLink(link, k);
      }
      locked := false;
    }
  }

  /** The first job of that name, or the number of jobs. */
  function Find(jobs: seq<Job>, name: Str): (k: nat)
    ensures k <= |jobs| && (k < |jobs| ==> jobs[k].name == name)
    ensures forall i :: 0 <= i < k ==> jobs[i].name != name
  {
    if jobs == [] || jobs[0].name == name then 0 else 1 + Find(jobs[1..], name)
  }

  function Reffed(jobs: seq<Job>, name: Str): seq<Job> {
    var k := Find(jobs, name);
    if k == |jobs| then jobs else jobs[k := jobs[k].(count := jobs[k].count + 1)]
  }

  function Dropped(jobs: seq<Job>, k: nat): seq<Job>
    requires k < |jobs|
  {
    if jobs[k].count > 1 then jobs[k := jobs[k].(count := jobs[k].count - 1)] else jobs[k + 1..] + jobs[..k]
  }

  function UnReffed(jobs: seq<Job>, name: Str): seq<Job> {
    var k := Find(jobs, name);
    if k == |jobs| then jobs else Dropped(jobs, k)
  }

  // ---- whole runs ----

  datatype Op = New(name: Str) | Ref(name: Str) | UnRef(name: Str)

  function After(jobs: seq<Job>, op: Op): seq<Job> {
    match op
    case New(name) => [Job(StoredName(name), 1)] + jobs
    case Ref(name) => Reffed(jobs, name)
    case UnRef(name) => UnReffed(jobs, name)
  }

  /** The list and its lock between two calls. */
  datatype Lists = Lists(jobs: seq<Job>, locked: bool)

  /** One call; it comes back only if the lock is free. */
  function Call(l: Lists, op: Op): Option<Lists> {
    if l.locked then None else Some(Lists(After(l.jobs, op), op.UnRef? && l.jobs == []))
  }

  /** The calls one after the other, or None when one of them waits for a lock that nobody gives back. */
  function Run(ops: seq<Op>): Option<Lists> {
    if ops == [] then Some(Lists([], false))
    else match Run(ops[..|ops| - 1]) case None => None case Some(l) => Call(l, ops[|ops| - 1])
  }

  predicate Counted(jobs: seq<Job>) {
    forall j :: j in jobs ==> j.count >= 1
  }

  function One(j: Job, name: Str): int {
    if j.name == name then j.count else 0
  }

  /** The parties interested in a name: the counts of all links of that name. */
  function Interest(jobs: seq<Job>, name: Str): int {
    if jobs == [] then 0 else One(jobs[0], name) + Interest(jobs[1..], name)
  }

  /** What a call means for the parties interested in a name. */
  function Parties(n: int, op: Op, name: Str): int {
    match op
    case New(job) => if StoredName(job) == name then n + 1 else n
    case Ref(job) => if job == name && n > 0 then n + 1 else n
    case UnRef(job) => if job == name && n > 0 then n - 1 else n
  }

  function PartiesOf(ops: seq<Op>, name: Str): int {
    if ops == [] then 0 else Parties(PartiesOf(ops[..|ops| - 1], name), ops[|ops| - 1], name)
  }

  lemma {:induction false} InterestJoin(a: seq<Job>, b: seq<Job>, name: Str)
    ensures Interest(a + b, name) == Interest(a, name) + Interest(b, name)
  {
    if a == [] {
      assert a + b == b;
    } else {
      InterestJoin(a[1..], b, name);
      assert (a + b)[1..] == a[1..] + b;
    }
  }

  lemma InterestAt(jobs: seq<Job>, k: nat, name: Str)
    requires k < |jobs|
    ensures Interest(jobs, name) == Interest(jobs[..k], name) + One(jobs[k], name) + Interest(jobs[k + 1..], name)
  {
    InterestJoin(jobs[..k], jobs[k..], name);
    assert jobs == jobs[..k] + jobs[k..] && jobs[k..][1..] == jobs[k + 1..];
  }

  /** A name has a link exactly when somebody is interested in it. */
  lemma {:induction false} InRing(jobs: seq<Job>, name: Str)
    requires Counted(jobs)
    ensures Interest(jobs, name) >= 0
    ensures Interest(jobs, name) > 0 <==> Find(jobs, name) < |jobs|
  {
    if jobs != [] {
      InRing(jobs[1..], name);
    }
  }

  /** A link with another count. */
  lemma Recounted(jobs: seq<Job>, k: nat, count: int, name: Str)
    requires Counted(jobs) && k < |jobs| && count >= 1
    ensures var now := jobs[k := jobs[k].(count := count)];
      && Counted(now)
      && Interest(now, name) == Interest(jobs, name) + if jobs[k].name == name then count - jobs[k].count else 0
  {
    var now := jobs[k := jobs[k].(count := count)];
    InterestAt(jobs, k, name);
    InterestAt(now, k, name);
    assert now[..k] == jobs[..k] && now[k + 1..] == jobs[k + 1..];
  }

  lemma NewParties(jobs: seq<Job>, job: Str, name: Str)
    requires Counted(jobs)
    ensures var now := After(jobs, New(job));
      Counted(now) && Interest(now, name) == Parties(Interest(jobs, name), New(job), name)
  {
    assert ([Job(StoredName(job), 1)] + jobs)[1..] == jobs;
  }

  lemma RefParties(jobs: seq<Job>, job: Str, name: Str)
    requires Counted(jobs)
    ensures var now := Reffed(jobs, job);
      Counted(now) && Interest(now, name) == Parties(Interest(jobs, name), Ref(job), name)
  {
    var k := Find(jobs, job);
    InRing(jobs, job);
    hide Interest, Find;
    if k < |jobs| {
      Recounted(jobs, k, jobs[k].count + 1, name);
    }
  }

  lemma UnRefParties(jobs: seq<Job>, job: Str, name: Str)
    requires Counted(jobs)
    ensures var now := UnReffed(jobs, job);
      Counted(now) && Interest(now, name) == Parties(Interest(jobs, name), UnRef(job), name)
  {
    var k := Find(jobs, job);
    InRing(jobs, job);
    hide Interest, Find;
    if k < |jobs| && jobs[k].count > 1 {
      Recounted(jobs, k, jobs[k].count - 1, name);
    } else if k < |jobs| {
      InterestAt(jobs, k, name);
      InterestJoin(jobs[k + 1..], jobs[..k], name);
    }
  }

  lemma AfterParties(jobs: seq<Job>, op: Op, name: Str)
    requires Counted(jobs)
    ensures Counted(After(jobs, op)) && Interest(After(jobs, op), name) == Parties(Interest(jobs, name), op, name)
  {
    hide Reffed, UnReffed, Interest;
    match op
    case New(job) => NewParties(jobs, job, name);
    case Ref(job) => RefParties(jobs, job, name);
    case UnRef(job) => UnRefParties(jobs, job, name);
  }

  /**
   * Every run of the three calls: the counts are the interested parties, so a link is there exactly as long as its
   * name has one, and every count is at least 1.
   */
  lemma {:induction false} RingCountsParties(ops: seq<Op>, name: Str)
    requires Run(ops).Some?
    ensures var jobs := Run(ops).value.jobs;
      && Counted(jobs) && Interest(jobs, name) == PartiesOf(ops, name)
      && (Find(jobs, name) < |jobs| <==> PartiesOf(ops, name) > 0)
  {
    if ops != [] {
      RingCountsParties(ops[..|ops| - 1], name);
      AfterParties(Run(ops[..|ops| - 1]).value.jobs, ops[|ops| - 1], name);
    }
    InRing(Run(ops).value.jobs, name);
  }

  /** Call i releases a job when nobody is interested in any. */
  ghost predicate NothingToRelease(ops: seq<Op>, i: nat)
    requires i < |ops|
  {
    ops[i].UnRef? && forall name :: PartiesOf(ops[..i], name) == 0
  }

  lemma EmptyIff(ops: seq<Op>)
    requires Run(ops).Some?
    ensures Run(ops).value.jobs == [] <==> forall name :: PartiesOf(ops, name) == 0
  {
    var jobs := Run(ops).value.jobs;
    forall name ensures Interest(jobs, name) == PartiesOf(ops, name) {
      RingCountsParties(ops, name);
    }
    if jobs != [] {
      RingCountsParties(ops, jobs[0].name);
      InRing(jobs, jobs[0].name);
    }
  }

  /** A call hangs exactly when an earlier one has released a job while nobody was interested in any. */
  lemma {:induction false} HangsIff(ops: seq<Op>)
    ensures Run(ops) == None <==> exists i :: 0 <= i < |ops| - 1 && NothingToRelease(ops, i)
  {
    hide After, PartiesOf;
    if |ops| >= 2 {
      var was, n := ops[..|ops| - 1], |ops| - 2;
      HangsIff(was);
      assert forall i :: 0 <= i < |was| ==> was[..i] == ops[..i];
      assert forall i :: 0 <= i < |was| ==> NothingToRelease(ops, i) == NothingToRelease(was, i);
      if Run(was).Some? {
        assert was[..|was| - 1] == ops[..n];
        EmptyIff(ops[..n]);
        assert Run(was) == Call(Run(ops[..n]).value, ops[n]);
        assert Run(ops) == Call(Run(was).value, ops[n + 1]);
        assert forall i :: 0 <= i < n ==> !NothingToRelease(was, i);
        assert (forall name :: PartiesOf(ops[..n], name) == 0) <==> Run(ops[..n]).value.jobs == [];
        assert NothingToRelease(ops, n) <==> ops[n].UnRef? && forall name :: PartiesOf(ops[..n], name) == 0;
      }
    }
  }

  predicate Rotated(a: seq<Job>, b: seq<Job>) {
    exists i :: 0 <= i <= |a| && b == a[i..] + a[..i]
  }

  /** A link leaves exactly when its count was 1, and the others keep their counts and their order round the ring. */
  lemma OthersStay(jobs: seq<Job>, name: Str)
    requires Counted(jobs) && Find(jobs, name) < |jobs|
    ensures var k := Find(jobs, name); var now := UnReffed(jobs, name);
      if jobs[k].count == 1 then Rotated(jobs[..k] + jobs[k + 1..], now)
      else |now| == |jobs| && now[k].count == jobs[k].count - 1 && now[..k] + now[k + 1..] == jobs[..k] + jobs[k + 1..]
  {
    var k := Find(jobs, name);
    var rest := jobs[..k] + jobs[k + 1..];
    assert rest[k..] + rest[..k] == jobs[k + 1..] + jobs[..k];
  }

  /** A new job is found by the name it was made with exactly when that name fits with its terminator. */
  lemma NewIsFoundIff(jobs: seq<Job>, name: Str)
    ensures var now := After(jobs, New(name));
      && (Find(now, name) == 0 <==> |name| < MAX_BACKUP_JOB_NAME)
      && (Find(jobs, name) == |jobs| ==> (Find(now, name) < |now| <==> |name| < MAX_BACKUP_JOB_NAME))
  {
    assert ([Job(StoredName(name), 1)] + jobs)[1..] == jobs;
  }
}
