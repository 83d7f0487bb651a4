/** The queue of inodes whose data has been written (backup) or read (restore): a singly linked list. */
module HardlinkQueue {
  import opened Bytes

  /** What a queue node remembers about its inode. */
  datatype Link = Link(path: Option<Str>, offset: nat, isTmp: bool)

  class Node {
    const inode: int
    const link: Link
    var next: Node?

    constructor (inode: int, link: Link, next: Node?)
      ensures this.inode == inode && this.link == link && this.next == next
    {
      this.inode, this.link, this.next := inode, link, next;
    }
  }

  ghost function LinksOf(ns: seq<Node>): map<int, Link> {
    if ns == [] then map[] else LinksOf(ns[1..])[ns[0].inode := ns[0].link]
  }

  class Queue {
    var first: Node?
    ghost var nodes: seq<Node>

    /** The list from first is exactly nodes. */
    ghost predicate Valid()
      reads this, nodes
    {
      && first == (if nodes == [] then null else nodes[0])
      && (forall i {:trigger nodes[i].next} ::
            0 <= i < |nodes| ==> nodes[i].next == if i + 1 < |nodes| then nodes[i + 1] else null)
    }

    /** The queue as a map from inode to link. */
    ghost function Links(): map<int, Link>
      reads this
    {
      LinksOf(nodes)
    }

    constructor ()
      ensures Valid() && Links() == map[] && nodes == []
    {
      first, nodes := null, [];
    }

    /** hardlink_q_get. */
    method Get(inode: int) returns (link: Option<Link>)
      requires Valid()
      ensures link.Some? <==> inode in Links()
      ensures link.Some? ==> link.value == Links()[inode]
    {
      var hl := first;
      ghost var k := 0;
      while hl != null
        invariant 0 <= k <= |nodes|
        invariant hl == if k < |nodes| then nodes[k] else null
        invariant inode in Links() <==> inode in LinksOf(nodes[k..])
        invariant inode in Links() ==> Links()[inode] == LinksOf(nodes[k..])[inode]
        decreases |nodes| - k
      {
        if hl.inode == inode {
          return Some(hl.link);
        }
        hl := hl.next;
        k := k + 1;
      }
      return None;
    }

    /** hardlink_q_add: a duplicated inode is rejected and the first link stays. */
    method Add(inode: int, link: Link) returns (ok: bool)
      requires Valid()
      modifies this
      ensures Valid() && ok == (inode !in old(Links()))
      ensures Links() == if ok then old(Links())[inode := link] else old(Links())
      ensures forall n :: n in nodes ==> n in old(nodes) || fresh(n)
    {
      var there := Get(inode);
      if there.Some? {
        return false;
      }
      var hl := new Node(inode, link, first);
      first, nodes := hl, [hl] + nodes;
      assert nodes[1..] == old(nodes);
      return true;
    }
  }
}
