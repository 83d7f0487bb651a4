/** File-history batching: entries are collected in fixed arrays and sent in messages (ndmpd_fhistory.c). */
module FileHistory {
  import opened Bytes

  const N_FILE_ENTRIES := 1000
  const N_DIR_ENTRIES := 1000
  const N_NODE_ENTRIES := 1000
  const PATH_NAMEBUF_SIZE := 32000
  const DIR_NAMEBUF_SIZE := 16000

  datatype FileEnt = FileEnt(name: Str, node: int, info: int)
  datatype DirEnt = DirEnt(name: Str, node: int, parent: int)
  datatype NodeEnt = NodeEnt(node: int, info: int)

  /** The messages to the client. */
  datatype Msg = AddFile(files: seq<FileEnt>) | AddDir(dirs: seq<DirEnt>) | AddNode(nodes: seq<NodeEnt>)

  /** The messages sent and the entries waiting, in order. */
  datatype Log = Log(sent: seq<Msg>, files: seq<FileEnt>, dirs: seq<DirEnt>, nodes: seq<NodeEnt>)

  /** The part of the name buffer that the waiting file names take. */
  function FileSpace(files: seq<FileEnt>): nat {
    if files == [] then 0 else FileSpace(files[..|files| - 1]) + |files[|files| - 1].name| + 1
  }

  /** The part of the name buffer that a waiting directory name is charged for. */
  function DirSpace(dirs: seq<DirEnt>): nat {
    PATH_NAMEBUF_SIZE * |dirs|
  }

  predicate GoodName(name: Str) {
    NulFree(name) && |name| < PATH_MAX
  }

  // ---- one call each; ok says whether a message that it sends gets through ----

  function FlushFiles(l: Log, ok: bool): Log {
    if l.files == [] || !ok then l else l.(sent := l.sent + [AddFile(l.files)], files := [])
  }

  function FlushDirs(l: Log, ok: bool): Log {
    if l.dirs == [] || !ok then l else l.(sent := l.sent + [AddDir(l.dirs)], dirs := [])
  }

  /** The waiting directories go out first, and the nodes whether or not that worked. */
  function FlushNodes(l: Log, dirOk: bool, ok: bool): Log {
    if l.nodes == [] then l else
      var d := FlushDirs(l, dirOk);
      if ok then d.(sent := d.sent + [AddNode(l.nodes)], nodes := []) else d
  }

  predicate FilesFull(l: Log, f: FileEnt) {
    |l.files| == N_FILE_ENTRIES || FileSpace(l.files) + |f.name| + 1 > PATH_NAMEBUF_SIZE
  }

  predicate DirsFull(l: Log, d: DirEnt) {
    |l.dirs| == N_DIR_ENTRIES || DirSpace(l.dirs) + |d.name| + 1 > DIR_NAMEBUF_SIZE
  }

  predicate NodesFull(l: Log) {
    |l.nodes| == N_NODE_ENTRIES
  }

  function AfterFile(l: Log, f: FileEnt, ok: bool): Log {
    var r := if FilesFull(l, f) then FlushFiles(l, ok) else l;
    if FilesFull(l, f) && !ok then r else r.(files := r.files + [f])
  }

  function AfterDir(l: Log, d: DirEnt, ok: bool): Log {
    var r := if DirsFull(l, d) then FlushDirs(l, ok) else l;
    if DirsFull(l, d) && !ok then r else r.(dirs := r.dirs + [d])
  }

  function AfterNode(l: Log, n: NodeEnt, dirOk: bool, ok: bool): Log {
    var r := if NodesFull(l) then FlushNodes(l, dirOk, ok) else l;
    if NodesFull(l) && !ok then r else r.(nodes := r.nodes + [n])
  }

  /** Whether each message of the clean-up gets through; the directories may be tried twice. */
  datatype Sends = Sends(files: bool, dirs: bool, dirsAgain: bool, nodes: bool)

  function AfterCleanup(l: Log, send: bool, ok: Sends): Log {
    var r := if send then FlushNodes(FlushDirs(FlushFiles(l, ok.files), ok.dirs), ok.dirsAgain, ok.nodes) else l;
    Log(r.sent, [], [], [])
  }

  /** A file entry and a directory entry as they lie in their arrays: the name is a place in the name buffer. */
  datatype FileSlot = FileSlot(name: nat, node: int, info: int)
  datatype DirSlot = DirSlot(name: nat, node: int, parent: int)

  /** A waiting file entry, its name in place in the used part of the name buffer and closed by a NUL. */
  predicate FileThere(s: FileSlot, f: FileEnt, names: seq<byte>) {
    && s.node == f.node && s.info == f.info && NulFree(f.name)
    && s.name + |f.name| < |names| && names[s.name..s.name + |f.name|] == f.name && names[s.name + |f.name|] == 0
  }

  lemma FileStays(s: FileSlot, f: FileEnt, names: seq<byte>, more: seq<byte>)
    requires FileThere(s, f, names)
    ensures FileThere(s, f, names + more)
  {
    assert (names + more)[s.name..s.name + |f.name|] == names[s.name..s.name + |f.name|];
  }

  lemma SpaceSnoc(files: seq<FileEnt>, f: FileEnt)
    ensures FileSpace(files + [f]) == FileSpace(files) + |f.name| + 1
  {
    assert (files + [f])[..|files|] == files;
  }

  lemma FilePut(f: FileEnt, names: seq<byte>)
    requires NulFree(f.name)
    ensures FileThere(FileSlot(|names|, f.node, f.info), f, names + (f.name + [0]))
  {
    var all := names + (f.name + [0]);
    assert all[|names|..|names| + |f.name|] == f.name;
  }

  class History {
    const files: array<FileSlot>
    const fileNames: array<byte>
    var fileIndex: nat
    var fileNameIndex: nat
    const dirs: array<DirSlot>
    const dirNames: array<byte>
    var dirIndex: nat
    var dirNameIndex: nat
    const nodes: array<NodeEnt>
    var nodeIndex: nat
    ghost var sent: seq<Msg>            // messages sent
    ghost var waitingFiles: seq<FileEnt>  // what the arrays hold
    ghost var waitingDirs: seq<DirEnt>
    ghost var waitingNodes: seq<NodeEnt>

    ghost function Now(): Log
      reads `sent, `waitingFiles, `waitingDirs, `waitingNodes
    {
      Log(sent, waitingFiles, waitingDirs, waitingNodes)
    }

    ghost predicate FilesValid()
      reads `fileIndex, `fileNameIndex, `waitingFiles, files, fileNames
    {
      && files.Length == N_FILE_ENTRIES && fileNames.Length == PATH_NAMEBUF_SIZE
      && fileIndex <= files.Length && fileIndex == |waitingFiles|
      && fileNameIndex == FileSpace(waitingFiles) <= fileNames.Length
      && forall i :: 0 <= i < fileIndex ==> FileThere(files[i], waitingFiles[i], fileNames[..fileNameIndex])
    }

    ghost predicate DirsValid()
      reads `dirIndex, `dirNameIndex, `waitingDirs, dirs, dirNames
    {
      && dirs.Length == N_DIR_ENTRIES && dirNames.Length == DIR_NAMEBUF_SIZE
      && dirIndex <= 1 && dirIndex == |waitingDirs| && dirNameIndex == DirSpace(waitingDirs)
      && (dirIndex == 1 ==>
            var s, d := dirs[0], waitingDirs[0];
            && s.node == d.node && s.parent == d.parent && s.name == 0 && GoodName(d.name)
            && dirNames[..|d.name|] == d.name && dirNames[|d.name|] == 0)
    }

    ghost predicate NodesValid()
      reads `nodeIndex, `waitingNodes, nodes
    {
      nodes.Length == N_NODE_ENTRIES && nodeIndex <= nodes.Length && nodes[..nodeIndex] == waitingNodes
    }

    ghost predicate Valid()
      reads this, files, fileNames, dirs, dirNames, nodes
    {
      fileNames != dirNames && FilesValid() && DirsValid() && NodesValid()
    }

    constructor ()
      ensures Valid() && Now() == Log([], [], [], [])
      ensures fresh(files) && fresh(fileNames) && fresh(dirs) && fresh(dirNames) && fresh(nodes)
    {
      files := new FileSlot[N_FILE_ENTRIES](_ => FileSlot(0, 0, 0));
      fileNames := new byte[PATH_NAMEBUF_SIZE](_ => 0);
      dirs := new DirSlot[N_DIR_ENTRIES](_ => DirSlot(0, 0, 0));
      dirNames := new byte[DIR_NAMEBUF_SIZE](_ => 0);
      nodes := new NodeEnt[N_NODE_ENTRIES](_ => NodeEnt(0, 0));
      fileIndex, fileNameIndex, dirIndex, dirNameIndex, nodeIndex := 0, 0, 0, 0, 0;
      sent, waitingFiles, waitingDirs, waitingNodes := [], [], [], [];
    }

    /** What the file message carries: the names are read where the entries point. */
    method FileBatch() returns (batch: seq<FileEnt>)
      requires FilesValid()
      ensures batch == waitingFiles
    {
      batch := [];
      for i := 0 to fileIndex
        invariant batch == waitingFiles[..i]
      {
        assert FileThere(files[i], waitingFiles[i], fileNames[..fileNameIndex]);
        CStrUnique(fileNames[files[i].name..], waitingFiles[i].name);
        batch := batch + [FileEnt(CStr(fileNames[files[i].name..]), files[i].node, files[i].info)];
      }
    }

    method DirBatch() returns (batch: seq<DirEnt>)
      requires DirsValid()
      ensures batch == waitingDirs
    {
      batch := [];
      for i := 0 to dirIndex
        invariant batch == waitingDirs[..i]
      {
        CStrUnique(dirNames[dirs[i].name..], waitingDirs[i].name);
        batch := batch + [DirEnt(CStr(dirNames[dirs[i].name..]), dirs[i].node, dirs[i].parent)];
      }
    }

    /** ndmpd_api_file_history_file_v3 without a name: what waits is sent. A failed send leaves it waiting. */
    method SendFiles(sendOk: bool) returns (ok: bool)
      requires Valid()
      modifies `fileIndex, `fileNameIndex, `sent, `waitingFiles
      ensures Valid() && ok == (sendOk || old(Now()).files == [])
      ensures Now() == FlushFiles(old(Now()), sendOk)
    {
      if fileIndex == 0 {
        return true;
      }
      var batch := FileBatch();
      if !sendOk {
        return false;
      }
      sent, waitingFiles := sent + [AddFile(batch)], [];
      fileIndex, fileNameIndex := 0, 0;
      return true;
    }

    /** ndmpd_api_file_history_file_v3 with a name. */
    method AddFileEntry(f: FileEnt, sendOk: bool) returns (ok: bool)
      requires Valid() && GoodName(f.name)
      modifies `fileIndex, `fileNameIndex, `sent, `waitingFiles, files, fileNames
      ensures Valid() && Now() == AfterFile(old(Now()), f, sendOk)
      ensures ok == (sendOk || !FilesFull(old(Now()), f)) && (!ok ==> Now() == old(Now()))
    {
      if fileIndex == N_FILE_ENTRIES || fileNameIndex + |f.name| + 1 > PATH_NAMEBUF_SIZE {
        ok := SendFiles(sendOk);
        if !ok {
          return;
        }
      }
      PutFile(f);
      return true;
    }

    method PutName(name: Str)
      requires fileNameIndex + |name| + 1 <= fileNames.Length
      modifies fileNames
      ensures fileNames[..fileNameIndex + |name| + 1] == old(fileNames[..fileNameIndex]) + (name + [0])
    {
      forall i | 0 <= i < |name| { fileNames[fileNameIndex + i] := name[i]; }
      fileNames[fileNameIndex + |name|] := 0;
    }

    /** The entry and its name go behind those that wait. */
    method PutFile(f: FileEnt)
      requires Valid() && GoodName(f.name)
      requires fileIndex < N_FILE_ENTRIES && fileNameIndex + |f.name| + 1 <= PATH_NAMEBUF_SIZE
      modifies `fileIndex, `fileNameIndex, `waitingFiles, files, fileNames
      ensures Valid() && Now() == old(Now()).(files := old(Now()).files + [f])
    {
      hide FileThere, FileSpace;
      SpaceSnoc(waitingFiles, f);
      ghost var names := fileNames[..fileNameIndex];
      var n := |f.name|;
      PutName(f.name);
      files[fileIndex] := FileSlot(fileNameIndex, f.node, f.info);
      forall i | 0 <= i < fileIndex ensures FileThere(files[i], waitingFiles[i], names + (f.name + [0])) {
        FileStays(files[i], waitingFiles[i], names, f.name + [0]);
      }
      FilePut(f, names);
      fileNameIndex, fileIndex := fileNameIndex + n + 1, fileIndex + 1;
      waitingFiles := waitingFiles + [f];
    }

    /** ndmpd_api_file_history_dir_v3 without a name. */
    method SendDirs(sendOk: bool) returns (ok: bool)
      requires Valid()
      modifies `dirIndex, `dirNameIndex, `sent, `waitingDirs
      ensures Valid() && ok == (sendOk || old(Now()).dirs == [])
      ensures Now() == FlushDirs(old(Now()), sendOk)
    {
      if dirIndex == 0 {
        return true;
      }
      var batch := DirBatch();
      if !sendOk {
        return false;
      }
      sent, waitingDirs := sent + [AddDir(batch)], [];
      dirIndex, dirNameIndex := 0, 0;
      return true;
    }

    /** ndmpd_api_file_history_dir_v3 with a name: the index moves on by the size of the other buffer. */
    method AddDirEntry(d: DirEnt, sendOk: bool) returns (ok: bool)
      requires Valid() && GoodName(d.name)
      modifies `dirIndex, `dirNameIndex, `sent, `waitingDirs, dirs, dirNames
      ensures Valid() && Now() == AfterDir(old(Now()), d, sendOk)
      ensures ok == (sendOk || !DirsFull(old(Now()), d)) && (!ok ==> Now() == old(Now()))
    {
      if dirIndex == N_DIR_ENTRIES || dirNameIndex + |d.name| + 1 > DIR_NAMEBUF_SIZE {
        ok := SendDirs(sendOk);
        if !ok {
          return;
        }
      }
      PutDir(d);
      return true;
    }

    method PutDir(d: DirEnt)
      requires Valid() && GoodName(d.name) && dirIndex == 0
      modifies `dirIndex, `dirNameIndex, `waitingDirs, dirs, dirNames
      ensures Valid() && Now() == old(Now()).(dirs := old(Now()).dirs + [d])
    {
      ghost var n := |d.name|;
      dirs[dirIndex] := DirSlot(dirNameIndex, d.node, d.parent);
      forall i | 0 <= i < |d.name| { dirNames[dirNameIndex + i] := d.name[i]; }
      dirNames[dirNameIndex + |d.name|] := 0;
      assert dirNames[..n] == d.name;
      dirNameIndex, dirIndex := dirNameIndex + PATH_NAMEBUF_SIZE, dirIndex + 1;
      waitingDirs := waitingDirs + [d];
    }

    /** ndmpd_api_file_history_node_v3 without a status: the directories go out first, whether or not that works. */
    method SendNodes(dirOk: bool, sendOk: bool) returns (ok: bool)
      requires Valid()
      modifies `dirIndex, `dirNameIndex, `nodeIndex, `sent, `waitingDirs, `waitingNodes
      ensures Valid() && ok == (sendOk || old(Now()).nodes == [])
      ensures Now() == FlushNodes(old(Now()), dirOk, sendOk)
    {
      if nodeIndex == 0 {
        return true;
      }
      var ignored := SendDirs(dirOk);
      if !sendOk {
        return false;
      }
      sent, waitingNodes := sent + [AddNode(nodes[..nodeIndex])], [];
      nodeIndex := 0;
      return true;
    }

    /** ndmpd_api_file_history_node_v3 with a status. */
    method AddNodeEntry(n: NodeEnt, dirOk: bool, sendOk: bool) returns (ok: bool)
      requires Valid()
      modifies `dirIndex, `dirNameIndex, `nodeIndex, `sent, `waitingDirs, `waitingNodes, nodes
      ensures Valid() && Now() == AfterNode(old(Now()), n, dirOk, sendOk)
      ensures ok == (sendOk || !NodesFull(old(Now()))) && (!ok ==> Now() == FlushDirs(old(Now()), dirOk))
    {
      if nodeIndex == N_NODE_ENTRIES {
        ok := SendNodes(dirOk, sendOk);
        if !ok {
          return;
        }
      }
      nodes[nodeIndex] := n;
      nodeIndex := nodeIndex + 1;
      waitingNodes := waitingNodes + [n];
      return true;
    }

    /** ndmpd_file_history_cleanup_v3: everything is sent, as far as it gets through, or dropped. */
    method Cleanup(send: bool, sends: Sends)
      requires Valid()
      modifies this
      ensures Valid() && Now() == AfterCleanup(old(Now()), send, sends)
    {
      if send {
        var _ := SendFiles(sends.files);
        var _ := SendDirs(sends.dirs);
        var _ := SendNodes(sends.dirsAgain, sends.nodes);
      }
      fileIndex, dirIndex, nodeIndex, fileNameIndex, dirNameIndex := 0, 0, 0, 0, 0;
      waitingFiles, waitingDirs, waitingNodes := [], [], [];
    }
  }

  // ---- whole runs ----

  /** A call and whether the messages that it sends get through. */
  datatype Op =
    | OpFile(f: FileEnt, ok: bool)
    | OpDir(d: DirEnt, ok: bool)
    | OpNode(n: NodeEnt, dirOk: bool, ok: bool)
    | OpSendFiles(ok: bool)
    | OpSendDirs(ok: bool)
    | OpSendNodes(dirOk: bool, ok: bool)

  function After(l: Log, op: Op): Log {
    match op
    case OpFile(f, ok) => AfterFile(l, f, ok)
    case OpDir(d, ok) => AfterDir(l, d, ok)
    case OpNode(n, dirOk, ok) => AfterNode(l, n, dirOk, ok)
    case OpSendFiles(ok) => FlushFiles(l, ok)
    case OpSendDirs(ok) => FlushDirs(l, ok)
    case OpSendNodes(dirOk, ok) => FlushNodes(l, dirOk, ok)
  }

  function Run(ops: seq<Op>): Log {
    if ops == [] then Log([], [], [], []) else After(Run(ops[..|ops| - 1]), ops[|ops| - 1])
  }

  /** The entry that a call takes, as it tells its caller: none when the batch is full and cannot be sent. */
  function FileTaken(l: Log, op: Op): seq<FileEnt> {
    if op.OpFile? && (op.ok || !FilesFull(l, op.f)) then [op.f] else []
  }

  function DirTaken(l: Log, op: Op): seq<DirEnt> {
    if op.OpDir? && (op.ok || !DirsFull(l, op.d)) then [op.d] else []
  }

  function NodeTaken(l: Log, op: Op): seq<NodeEnt> {
    if op.OpNode? && (op.ok || !NodesFull(l)) then [op.n] else []
  }

  function FilesIn(sent: seq<Msg>): seq<FileEnt> {
    if sent == [] then [] else
      FilesIn(sent[..|sent| - 1]) + if sent[|sent| - 1].AddFile? then sent[|sent| - 1].files else []
  }

  function DirsIn(sent: seq<Msg>): seq<DirEnt> {
    if sent == [] then [] else
      DirsIn(sent[..|sent| - 1]) + if sent[|sent| - 1].AddDir? then sent[|sent| - 1].dirs else []
  }

  function NodesIn(sent: seq<Msg>): seq<NodeEnt> {
    if sent == [] then [] else
      NodesIn(sent[..|sent| - 1]) + if sent[|sent| - 1].AddNode? then sent[|sent| - 1].nodes else []
  }

  function FilesAdded(ops: seq<Op>): seq<FileEnt> {
    if ops == [] then [] else
      var was := ops[..|ops| - 1];
      FilesAdded(was) + FileTaken(Run(was), ops[|ops| - 1])
  }

  function DirsAdded(ops: seq<Op>): seq<DirEnt> {
    if ops == [] then [] else
      var was := ops[..|ops| - 1];
      DirsAdded(was) + DirTaken(Run(was), ops[|ops| - 1])
  }

  function NodesAdded(ops: seq<Op>): seq<NodeEnt> {
    if ops == [] then [] else
      var was := ops[..|ops| - 1];
      NodesAdded(was) + NodeTaken(Run(was), ops[|ops| - 1])
  }

  /** What a log stands for: the entries sent and then the entries waiting. */
  function AllFiles(l: Log): seq<FileEnt> {
    FilesIn(l.sent) + l.files
  }

  function AllDirs(l: Log): seq<DirEnt> {
    DirsIn(l.sent) + l.dirs
  }

  function AllNodes(l: Log): seq<NodeEnt> {
    NodesIn(l.sent) + l.nodes
  }

  lemma SentOne(sent: seq<Msg>, m: Msg)
    ensures FilesIn(sent + [m]) == FilesIn(sent) + if m.AddFile? then m.files else []
    ensures DirsIn(sent + [m]) == DirsIn(sent) + if m.AddDir? then m.dirs else []
    ensures NodesIn(sent + [m]) == NodesIn(sent) + if m.AddNode? then m.nodes else []
  {
    assert (sent + [m])[..|sent|] == sent;
  }

  predicate SameEntries(l: Log, r: Log) {
    AllFiles(l) == AllFiles(r) && AllDirs(l) == AllDirs(r) && AllNodes(l) == AllNodes(r)
  }

  lemma FilesKept(l: Log, ok: bool)
    ensures SameEntries(FlushFiles(l, ok), l)
  {
    SentOne(l.sent, AddFile(l.files));
  }

  lemma DirsKept(l: Log, ok: bool)
    ensures SameEntries(FlushDirs(l, ok), l)
  {
    SentOne(l.sent, AddDir(l.dirs));
  }

  lemma NodesKept(l: Log, dirOk: bool, ok: bool)
    ensures SameEntries(FlushNodes(l, dirOk, ok), l)
  {
    var d := FlushDirs(l, dirOk);
    DirsKept(l, dirOk);
    SentOne(d.sent, AddNode(l.nodes));
  }

  lemma AddedLast<T>(a: seq<T>, b: seq<T>, t: T)
    ensures a + (b + [t]) == a + b + [t] && a + b + [] == a + b
  {
  }

  /** One call adds the entry it takes at the end and changes nothing else about the entries. */
  lemma AfterAdds(l: Log, op: Op)
    ensures var r := After(l, op);
      && AllFiles(r) == AllFiles(l) + FileTaken(l, op)
      && AllDirs(r) == AllDirs(l) + DirTaken(l, op)
      && AllNodes(r) == AllNodes(l) + NodeTaken(l, op)
  {
    hide FlushFiles, FlushDirs, FlushNodes, FilesIn, DirsIn, NodesIn, FilesFull, DirsFull, NodesFull;
    match op
    case OpFile(f, ok) =>
      FilesKept(l, ok);
      AddedLast(FilesIn(l.sent), l.files, f);
      AddedLast(FilesIn(FlushFiles(l, ok).sent), FlushFiles(l, ok).files, f);
    case OpDir(d, ok) =>
      DirsKept(l, ok);
      AddedLast(DirsIn(l.sent), l.dirs, d);
      AddedLast(DirsIn(FlushDirs(l, ok).sent), FlushDirs(l, ok).dirs, d);
    case OpNode(n, dirOk, ok) =>
      NodesKept(l, dirOk, ok);
      AddedLast(NodesIn(l.sent), l.nodes, n);
      AddedLast(NodesIn(FlushNodes(l, dirOk, ok).sent), FlushNodes(l, dirOk, ok).nodes, n);
    case OpSendFiles(ok) => FilesKept(l, ok);
    case OpSendDirs(ok) => DirsKept(l, ok);
    case OpSendNodes(dirOk, ok) => NodesKept(l, dirOk, ok);
  }

  /** Every run, whichever sends fail: what was sent and what waits are the entries taken, in order. */
  lemma {:induction false} BatchesConserve(ops: seq<Op>)
    ensures var l := Run(ops);
      && FilesIn(l.sent) + l.files == FilesAdded(ops)
      && DirsIn(l.sent) + l.dirs == DirsAdded(ops)
      && NodesIn(l.sent) + l.nodes == NodesAdded(ops)
  {
    if ops != [] {
      BatchesConserve(ops[..|ops| - 1]);
      AfterAdds(Run(ops[..|ops| - 1]), ops[|ops| - 1]);
    }
  }

  lemma CleanupLeaves(l: Log, ok: Sends)
    ensures var r := FlushNodes(FlushDirs(FlushFiles(l, ok.files), ok.dirs), ok.dirsAgain, ok.nodes);
      && SameEntries(r, l)
      && (r.files == [] <==> l.files == [] || ok.files)
      && (r.dirs == [] <==> l.dirs == [] || ok.dirs || (l.nodes != [] && ok.dirsAgain))
      && (r.nodes == [] <==> l.nodes == [] || ok.nodes)
  {
    var f := FlushFiles(l, ok.files);
    FilesKept(l, ok.files);
    DirsKept(f, ok.dirs);
    NodesKept(FlushDirs(f, ok.dirs), ok.dirsAgain, ok.nodes);
    hide FilesIn, DirsIn, NodesIn;
  }

  lemma PrefixAll<T>(sent: seq<T>, waiting: seq<T>, all: seq<T>)
    requires sent + waiting == all
    ensures sent == all <==> waiting == []
  {
    assert waiting == [] ==> sent + [] == sent;
  }

  /** After the final clean-up everything taken has been sent, exactly as far as its own messages got through. */
  lemma CleanupSendsAll(ops: seq<Op>, send: bool, ok: Sends)
    ensures var was := Run(ops); var l := AfterCleanup(was, send, ok);
      && (FilesIn(l.sent) == FilesAdded(ops) <==> was.files == [] || (send && ok.files))
      && (DirsIn(l.sent) == DirsAdded(ops) <==>
            was.dirs == [] || (send && (ok.dirs || (was.nodes != [] && ok.dirsAgain))))
      && (NodesIn(l.sent) == NodesAdded(ops) <==> was.nodes == [] || (send && ok.nodes))
  {
    var was := Run(ops);
    BatchesConserve(ops);
    CleanupLeaves(was, ok);
    var r := FlushNodes(FlushDirs(FlushFiles(was, ok.files), ok.dirs), ok.dirsAgain, ok.nodes);
    hide FilesIn, DirsIn, NodesIn, FlushFiles, FlushDirs, FlushNodes, Run, FilesAdded, DirsAdded, NodesAdded;
    var l := if send then r else was;
    PrefixAll(FilesIn(l.sent), l.files, FilesAdded(ops));
    PrefixAll(DirsIn(l.sent), l.dirs, DirsAdded(ops));
    PrefixAll(NodesIn(l.sent), l.nodes, NodesAdded(ops));
  }

  /** Every directory message carries one entry: a waiting name is charged with more than the whole name buffer. */
  predicate OneDirEach(l: Log) {
    |l.dirs| <= 1 && forall i :: 0 <= i < |l.sent| && l.sent[i].AddDir? ==> |l.sent[i].dirs| == 1
  }

  lemma {:induction false} DirBatchesOfOne(ops: seq<Op>)
    ensures OneDirEach(Run(ops))
  {
    if ops != [] {
      DirBatchesOfOne(ops[..|ops| - 1]);
      hide FileSpace;
    }
  }

  /** A call that only adds an entry sends nothing until that entry would not fit: by its count or by its name. */
  lemma SentOnlyWhenFull(ops: seq<Op>, op: Op)
    ensures var l := Run(ops); var sent := After(l, op).sent;
      && (op.OpFile? && sent != l.sent ==> |l.files| == 1000 || FileSpace(l.files) + |op.f.name| + 1 > 32000)
      && (op.OpDir? && sent != l.sent ==> l.dirs != [])
      && (op.OpNode? && sent != l.sent ==> |l.nodes| == 1000)
  {
    hide FileSpace, Run;
  }

  /** Every message has an entry, and no more than the arrays and the name buffer hold. */
  predicate Fits(m: Msg) {
    match m
    case AddFile(files) => 0 < |files| <= 1000 && FileSpace(files) <= 32000
    case AddDir(dirs) => |dirs| == 1
    case AddNode(nodes) => 0 < |nodes| <= 1000
  }

  predicate AllFit(l: Log) {
    && (forall i :: 0 <= i < |l.sent| ==> Fits(l.sent[i]))
    && |l.files| <= 1000 && FileSpace(l.files) <= 32000 && |l.dirs| <= 1 && |l.nodes| <= 1000
  }

  lemma {:induction false} BatchesFit(ops: seq<Op>)
    requires forall i :: 0 <= i < |ops| && ops[i].OpFile? ==> GoodName(ops[i].f.name)
    ensures AllFit(Run(ops))
  {
    if ops != [] {
      BatchesFit(ops[..|ops| - 1]);
      StepFits(Run(ops[..|ops| - 1]), ops[|ops| - 1]);
    }
  }

  lemma StepFits(l: Log, op: Op)
    requires AllFit(l) && (op.OpFile? ==> GoodName(op.f.name))
    ensures AllFit(After(l, op))
  {
    if op.OpFile? {
      SpaceSnoc(l.files, op.f);
      SpaceSnoc([], op.f);
      assert [] + [op.f] == [op.f];
    }
    hide FileSpace, NulFree;
  }

  /**
   * Message k of a run was sent at a moment m: if it is a node message, its nodes and those before it had been added
   * by then, and every directory added by then is in an earlier message.
   */
  ghost predicate NodesAfterDirs(ops: seq<Op>, sent: seq<Msg>, k: nat)
    requires k < |sent|
  {
    sent[k].AddNode? ==> exists m :: 0 <= m <= |ops| && MomentOf(ops, sent, k, m)
  }

  ghost predicate MomentOf(ops: seq<Op>, sent: seq<Msg>, k: nat, m: nat)
    requires k < |sent| && m <= |ops|
  {
    NodesIn(sent[..k + 1]) <= NodesAdded(ops[..m]) && DirsIn(sent[..k]) == DirsAdded(ops[..m])
  }

  /** Of a node message that gets through: the waiting directories are ahead of it exactly if their message was. */
  lemma NodesOvertakeIff(l: Log, dirOk: bool)
    requires l.nodes != []
    ensures var r := FlushNodes(l, dirOk, true); var k := |r.sent| - 1;
      && r.sent[k] == AddNode(l.nodes) && r.sent[..k] == FlushDirs(l, dirOk).sent
      && NodesIn(r.sent) == AllNodes(l) && (DirsIn(r.sent[..k]) == AllDirs(l) <==> l.dirs == [] || dirOk)
  {
    NodesKept(l, dirOk, true);
    DirsKept(l, dirOk);
    var r, d := FlushNodes(l, dirOk, true), FlushDirs(l, dirOk);
    assert r.nodes == [] && (d.dirs == [] <==> l.dirs == [] || dirOk);
    assert r.sent[..|r.sent| - 1] == d.sent;
    hide FilesIn, DirsIn, NodesIn;
    PrefixAll(NodesIn(r.sent), [], AllNodes(l));
    PrefixAll(DirsIn(d.sent), d.dirs, AllDirs(l));
  }

  /** The directory message in front of the nodes of this call gets through. */
  predicate DirsGetThrough(op: Op) {
    op.OpNode? || op.OpSendNodes? ==> op.dirOk
  }

  /** Every node message goes out after all the directories added before its nodes, if their messages get through. */
  lemma {:induction false} NodesFollowDirs(ops: seq<Op>, k: nat)
    requires k < |Run(ops).sent| && forall i :: 0 <= i < |ops| ==> DirsGetThrough(ops[i])
    ensures NodesAfterDirs(ops, Run(ops).sent, k)
  {
    var was, op := ops[..|ops| - 1], ops[|ops| - 1];
    var l := Run(was);
    SentGrows(l, op);
    if k < |l.sent| {
      NodesFollowDirs(was, k);
      StillAfter(ops, l.sent, Run(ops).sent, k);
    } else if Run(ops).sent[k].AddNode? {
      NewNodeMessage(l, op, k);
      BatchesConserve(was);
      assert MomentOf(ops, Run(ops).sent, k, |was|);
    }
  }

  lemma SentGrows(l: Log, op: Op)
    ensures l.sent <= After(l, op).sent
  {
    hide FilesFull, DirsFull;
  }

  /** A node message sent by a call is its last message and follows all that the log held. */
  lemma NewNodeMessage(l: Log, op: Op, k: nat)
    requires |l.sent| <= k < |After(l, op).sent| && After(l, op).sent[k].AddNode? && DirsGetThrough(op)
    ensures var sent := After(l, op).sent;
      k == |sent| - 1 && NodesIn(sent[..k + 1]) == AllNodes(l) && DirsIn(sent[..k]) == AllDirs(l)
  {
    hide FilesFull, DirsFull, NodesIn, DirsIn;
    if l.nodes != [] {
      NodesOvertakeIff(l, true);
      var sent := FlushNodes(l, true, true).sent;
      assert sent[..|sent|] == sent;
    }
  }

  lemma StillAfter(ops: seq<Op>, sent: seq<Msg>, more: seq<Msg>, k: nat)
    requires ops != [] && k < |sent| && sent <= more && NodesAfterDirs(ops[..|ops| - 1], sent, k)
    ensures NodesAfterDirs(ops, more, k)
  {
    var was := ops[..|ops| - 1];
    if more[k].AddNode? {
      var m :| 0 <= m <= |was| && MomentOf(was, sent, k, m);
      assert was[..m] == ops[..m] && sent[..k] == more[..k] && sent[..k + 1] == more[..k + 1];
      assert MomentOf(ops, more, k, m);
    }
  }
}
