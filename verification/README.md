# ndmpd: a verified model of the backup and restore engine

ndmpd backs a directory tree up by printing it as a tar-like stream of 512-byte records, and restores it with a
hand-written parser of that stream. Two threads on each side share a ring of buffers. Around them the daemon keeps the
data-server state of the NDMP session, the dumpdates file, file-history batches and job statistics. The files here model
that engine in Dafny and prove what it keeps over every input and every run.

How the pieces fit together:

- `Bytes`, `Octal`, `TarHeader` hold the record: C strings, octal fields, the header layout and its checksum.
- `Buffers` is one side's view of the shared buffer: pieces of whole records are handed out, full buffers are sent and
  empty ones filled. `BackupPipeline` and `RestorePipeline` are the two-thread protocols, as state machines over every
  interleaving and for a ring of any number of buffers (the repository sets one).
- `TarFormat` says which blocks an entry is printed as. `TarPrinter` is the printer at work on the write buffer, proved
  to emit exactly those blocks. `TarRestore` is what the parser's loop does with any stream of bytes, in functions that
  are total; `TarRestorer` is the parser at work on the read buffer, proved to do exactly that. `TarRoundTrip` connects
  the two. On it stand `TarSelected` (which entries come back, where, and with which ACL), `TarResults` (huge files,
  framing, the two hard-link queues) and `TarTail` (what is made of the bytes behind the end of a stream). `RestorePath`
  is the name maker of a session's restore, which says where a wanted name goes. `TarAbove`, `TarStack` and `TarDamage`
  hold what the parser keeps on every stream, and what it makes of records that do not pass their checksum. `EndToEnd`
  runs the two classes one after the other, magic record and last buffer included; `Threads` puts the two-thread
  protocols in between.
- `Wildcard` and `Selection` decide which names a restore wants. `HardlinkQueue`, `JobStats`, `FileHistory` and
  `DataServer` are classes over the fields the C code updates; `DumpdatesText` and `Dumpdates` are the text store;
  `Traverse` and `Base64` are the tree walk and the base64 codec.

A stream is described by `Laid(s, pos, blocks)`: each block's bytes are in place and what fills the padding behind them
is arbitrary. So every stream theorem holds for whatever the buffers held before.

## Where the code does not keep what one would expect

Each of these is a lemma about the code as it is.

- Wildcards: `match` misses strings exactly when the pattern ends in two stars (`Wildcard.MatchCompleteIff`).
- Restore paths: every restore of the daemon names its files with mknewname. With restore-fullpath, which is off by
  default (src/ndmpd_prop.c:78), a name comes back exactly when restore path, name and a slash stay below PATH_MAX.
  Without it mkrsp keeps what lies behind the selection: the first selection that is the name, or stands above or below
  it, decides; the name comes back exactly when the destination, the part behind the selection and a slash stay below
  PATH_MAX, and not at all when it only stands above that selection, unless the selection goes on with slashes only
  (`RestorePath.TargetIs`, `RestorePath.ParentPath`). So with one tree selected an entry comes back exactly when its
  path fits in this sense, and a later hard link only if the first link's path does too (`TarSelected.FullRestore`,
  `TarSelected.AllReturnIff`). The longest path that can be backed up, of PATH_MAX - 1 bytes, is never restored with
  full paths, and below its tree exactly when the destination is no longer than the root of that tree
  (`TarSelected.LongestPathIff`).
- ACLs: the ACL of an entry that a restore skips waits for the next entry put back. An entry carries its own ACL exactly
  when it has an ACL record or none is waiting (`TarSelected.AclIsOwnIff`); a whole restore is right about ACLs exactly
  when no entry without a record is put back while one waits (`TarSelected.SelectedRestore`, `TarSelected.AclLeaks`).
- Hard links: the parser finds the next record after a link header exactly when its queue and the printer's agree on
  that inode (`TarResults.LinkFraming`). The queue belongs to the session (src/ndmpd.c:337-348), so a second operation of
  one session starts with a queue that is not empty on one side only. Of a hard-linked file of several sections, the
  first link is lost: its first section queues the inode, and the header of the second is taken for a later link
  (`TarResults.LinkedSectionsLost`). A later link to such a file leaves the file's name and size to the entries behind
  it (`TarResults.LaterLinkHaunts`), so the next regular file does not come back either
  (`TarResults.NextFileSwallowed`).
- Symbolic links: a link with several names is printed as a hard link without data but with a size, and a link whose
  text could not be read as a plain file without data but with a size. The parser loses its place after either, unless
  the size is 0 or the queue happens to hold the inode of the first kind (`TarResults.SymlinkFraming`).
- End of the stream: write_tar_eof sends the last buffer whole without clearing what lies behind the end. Something more
  comes back exactly when a round of the parser behind the end makes an object, never when the stream fits one buffer
  (`TarTail.EndOfStream`, `EndToEnd.BackupThenRestore`). It does happen: directories of one record each that fill more
  than one buffer come back with the last ones doubled (`EndToEnd.DirectoriesTwice`). The mover address is only ever
  set to local (src/ndmpd_data.c:1368), so a piece is 64512 bytes and the backup buffer 516096, and 1008 directories
  with short names are enough.
- Retried buffer calls: a call that gave up waiting and is retried after the buffer was drained marks the drained buffer
  full again; with one buffer, of any size, the backup then hangs for good (`BackupPipeline.RetryKeepsIff`,
  `BackupPipeline.UntimelyRetryHangs`, `BackupPipeline.UntimelyRetryReachable`).
- Restore stop: some run loses bytes exactly when the ring has more than one buffer (`RestorePipeline.LosesIff`); the
  repository has one (include/tlm.h:60).
- Job statistics: releasing a job when the list is empty returns with the lock held, and a call hangs exactly when an
  earlier one did that (`JobStats.HangsIff`). A new job is found by its name exactly when that has fewer than 32 bytes,
  as all names of the daemon have (`JobStats.NewIsFoundIff`).
- Dumpdates: a record comes back exactly when its path is not empty, has no '#' at the start of any of its lines and no
  backslash at its end, and its line fits the buffer (`DumpdatesText.RecordReadsIff`). A record that does not fit hides
  itself and every record behind it (`DumpdatesText.TooLongLosesRest`); one with '#' behind a newline of its path takes
  the next record with it (`DumpdatesText.InnerHashSwallowsNext`). A path too long for a record's name is
  appended anew by every put (`Dumpdates.LongPathPilesUp`). The comment in front of the lookup says "older date",
  the code asks for a later one (src/ndmpd_dtime.c:885); the model follows the code.
- Data server: a start-backup request whose thread cannot be created, or whose reply cannot be sent, leaves the session
  ACTIVE with no worker; of all requests only a (refused) start-recover gets it out (`DataServer.BackupCanTrap`,
  `DataServer.TrappedStays`). Every refused start-backup, in any state, closes the sockets the session has
  (`DataServer.RefusedBackupCloses`): LISTEN and CONNECTED stay without one, no connection is accepted any more, and
  only a halt and a stop lead back (`DataServer.SocketlessStays`, `DataServer.ListenerLost`, `DataServer.WayBack`).
- File history: the directory name index moves on by the size of the file name buffer, so every directory message holds
  exactly one entry (`FileHistory.DirBatchesOfOne`). The nodes go out whether or not the directories in front of them
  got through (`FileHistory.NodesOvertakeIff`).
- Traversal: a failing callback ends the reading of its directory, but the subdirectories already stacked are still
  walked, and the return value is 0 (`Traverse.Walker.TraverseLevel`).

## Model

| member | source | states |
|---|---|---|
| `TarRoundTrip.ArchiveRoundTrip` | tlm/tlm_restore_writer.c:366-880 | on any stream in which the printed blocks lie from some position on, followed by zeros, for any selection and for any two queues that agree on the inodes of its entries, the parser puts back exactly the expected objects, in order, from directories, symlinks, files, hard links and huge files |
| `TarSelected.FullRestore` | src/ndmpd_tar_v3.c:424-526 | one tree restored, with full paths or below a destination: just the entries whose paths fit come back, in order, each of its kind, with its target or bytes, its mode, time, owner and group, at the directory joined with its name or what is of it behind the root, and names that differ there at different paths; with their own ACLs if and only if none is stranded in front of an entry without one |
| `TarSelected.ChosenIff` | tlm/tlm_lib.c:634-660 | the entries that come back are just those whose path fits and, for a later link, that of the first link too, each once and in order |
| `TarSelected.AllReturnIff` | src/ndmpd_tar_v3.c:424-526 | every entry comes back if and only if every path fits, and then each with its own ACL |
| `TarSelected.TreePlaced` | src/ndmpd_tar_v3.c:2731-2781 | the hypothesis of these: a session whose one selection is the tree, or everything, sends every entry of it where this says, with either setting of restore-fullpath |
| `RestorePath.TargetIs` | src/ndmpd_tar_v3.c:424-526 | for every name list, every name and both settings of restore-fullpath, the path a name gets or that it gets none, told by the first selection that matches it, without following the two strings |
| `RestorePath.TreePlace` | src/ndmpd_tar_v3.c:479-526 | a name of the one tree selected is wanted, does not only stand above it, and goes to the destination and what is behind the root |
| `RestorePath.ParentPath` | src/ndmpd_tar_v3.c:424-466 | a name that only stands above its selection gets no path, unless the selection goes on with slashes only |
| `RestorePath.TreePath` | src/ndmpd_tar_v3.c:424-466 | the path written out: the destination, one slash and what is below the root; without a destination a slash and what is below the root |
| `RestorePath.MakeRestorePath` | src/ndmpd_tar_v3.c:424-466 | the loop over both strings computes the path or its refusal, the boundary rule and its exception included |
| `TarAbove.NoneFromAbove` | tlm/tlm_restore_writer.c:787-822 | on every stream, with plain selections, each directory made has the path of a name that does not stand strictly above every selection |
| `TarAbove.AboveNeverMade` | tlm/tlm_restore_writer.c:787-822 | a directory strictly above every selection is never made: with full paths nothing is made at its place, else it has no place |
| `TarSelected.LongestPathIff` | tlm/tlm_lib.c:634-660 | the longest path that can be backed up comes back if and only if it is restored below the root of its tree, to a destination no longer than that root |
| `Threads.TreeCrosses` | src/ndmpd_tar_v3.c:1976-2152 | under every interleaving of both sides' threads, the entries printed are the first that the restore side's parser puts back |
| `Threads.PrintedIsReleased` | src/ndmpd_tar_v3.c:2106-2275 | what a printer leaves in its stream is what some finished run of the backup threads releases, from every initial state of the one-buffer ring |
| `Threads.StreamCrosses` | src/ndmpd_tar_v3.c:1976-2152 | a graceful backup and a drained restore: the parser has been handed the printed stream whole and in order |
| `Threads.NothingInvented` | src/ndmpd_tar_v3.c:1976-2152 | at every moment, and for any ring, what has been handed out is the front of what was sent |
| `EndToEnd.BackupThenRestore` | tlm/tlm_restore_writer.c:242-901 | the printer on its buffer, the whole last buffer sent, then the parser on its own buffer, for any placing of the tree: the entries whose paths fit come back first, in order; nothing else does if and only if no round behind the end of the stream makes an object, so when no record there verifies, and whenever the stream fits one buffer |
| `EndToEnd.DirectoriesTwice` | tlm/tlm_backup_reader.c:860-886 | short-named directories that fill more than one buffer: all come back, and those whose records the last buffer still held come back a second time |
| `EndToEnd.BackupStream` | src/ndmpd_tar_v3.c:2180-2275 | what a backup sends is the magic record, the printed blocks, and what the round before left in the rest of the last buffer, or zeros in the first round |
| `EndToEnd.CheckUtf8Magic` | src/ndmpd_util.c:1880-1918 | one record is consumed whatever it holds, and the answer is whether it starts with the magic |
| `EndToEnd.RestoreStream` | tlm/tlm_restore_writer.c:242-901 | a restore does what the specification does on all whole buffers of the connection, behind the first record |
| `TarTail.EndOfStream` | tlm/tlm_backup_reader.c:860-886 | with any bytes behind a printed archive: what was printed comes back first, and more if and only if a round the parser makes there puts an object on disk |
| `TarTail.RunMakesIff` | tlm/tlm_restore_writer.c:366-880 | a run keeps the objects made, and adds to them if and only if one of its rounds does |
| `TarTail.StepMakesOne` | tlm/tlm_restore_writer.c:479-876 | the guards under which one round makes an object, for every link flag: then exactly one, else none |
| `TarTail.FirstBufferSilent` | tlm/tlm_backup_reader.c:860-886 | behind a stream that fits its first buffer there is no record that verifies |
| `TarTail.StaleDirectories` | tlm/tlm_backup_reader.c:860-886 | which directories come back twice: those printed one buffer before each place of the tail |
| `TarTail.StaleEntryComesBack` | tlm/tlm_backup_reader.c:860-886 | any entry left behind the end as it would be printed next is restored again |
| `TarDamage.JunkBetween` | tlm/tlm_restore_writer.c:425-436 | an archive in two parts with any number of records between them that do not pass their checksum: both parts come back as if nothing lay between |
| `TarDamage.DamagedDirectory` | tlm/tlm_restore_writer.c:425-436 | one byte of a directory's header changed, anywhere beside the checksum: that directory does not come back, and every other entry does as if it had never been there |
| `TarRoundTrip.EntryRun` | tlm/tlm_backup_reader.c:524-796 | after any one printed entry the parser stands at the next one, in a clean state, with the entry restored and the queues in step |
| `TarRoundTrip.PrintedTells` | tlm/tlm_backup_reader.c:305-318 | every header record printed for an entry reads back its mode, time and names, and its owner and group: the id if it has at most seven octal digits and a name is known for it, else that of nobody |
| `TarRoundTrip.SectionsRun` | tlm/tlm_restore_writer.c:716-750 | the sections of a huge file come back as one file, closed once, at its last section |
| `TarRoundTrip.ZerosRun` | tlm/tlm_restore_writer.c:425-436 | zero records change nothing |
| `TarResults.HugeSections` | tlm/tlm_backup_reader.c:636-745 | section sizes are between 1 and 2^31-8, read back from their size fields, and sum to the file size |
| `TarResults.HugeCountdown` | tlm/tlm_restore_writer.c:716-750 | huge_size is 0 after the last section and not before |
| `TarResults.LinkFraming` | tlm/tlm_restore_writer.c:483-563 | for names of any length: after a hard-link header the parser is at the next record if and only if both queues agree on the inode |
| `TarResults.LinkedSectionsLost` | tlm/tlm_backup_reader.c:636-745 | the first link to a file of several sections: behind the second section's header the parser goes on in the middle of its data |
| `TarResults.LaterLinkHaunts` | tlm/tlm_restore_writer.c:500-563 | a later link to such a file: it is linked under the name of a section, the parser is in step, and the file's name and size stay behind with an otherwise clean state |
| `TarResults.NextFileSwallowed` | tlm/tlm_restore_writer.c:567-751 | in that state the next regular file, whatever its name, makes no object: its bytes go into the huge file's path, if that is wanted, and that file is left open |
| `TarResults.OldHugeReads` | tlm/tlm_restore_writer.c:1466-1518 | a huge-file record of size 0, the old form: name and size are read from one whole record |
| `TarResults.AclPieces` | tlm/tlm_restore_writer.c:1662-1718 | an ACL in two pieces without a header between them is the two together |
| `TarResults.NoInodeIsFile` | tlm/tlm_restore_writer.c:483-563 | a hard-link header without an inode is read as a file, whatever is queued |
| `TarResults.SymlinkFraming` | tlm/tlm_backup_reader.c:440-515 | for names and targets of any length, an unread target included: a symlink leaves the stream in step if and only if its size is 0, or it has several names and its inode is queued, or one name and a target |
| `TarResults.FramingIndependent` | tlm/tlm_restore_writer.c:604-661 | on every stream, the position and everything that decides it are the same under any two selections |
| `TarSelected.SelectedRestore` | tlm/tlm_restore_writer.c:1297-1413 | under any selection the chosen entries come back, in order, hard links among them; with their own ACLs if and only if no entry without an ACL record is put back while the ACL of a skipped one waits |
| `TarSelected.AclIsOwnIff` | tlm/tlm_restore_writer.c:1662-1718 | an entry put back carries its own ACL if and only if it has a record or no ACL of an entry skipped since the last one put back is waiting |
| `TarSelected.ChosenWhen` | tlm/tlm_restore_writer.c:787-822 | a single-link entry is put back, whatever came before it, exactly when its name is wanted and its name gets a path, and it is no directory above the selection |
| `TarSelected.AclLeaks` | tlm/tlm_restore_writer.c:762-786 | the ACL of any skipped entry lands on the next entry put back that has none |
| `TarRestore.EveryDirectoryPopped` | tlm/tlm_restore_writer.c:889-894 | on every stream and selection each directory made gets its attributes exactly once |
| `TarRestore.StepAdvances` | tlm/tlm_restore_writer.c:366-471 | every round moves on in the stream, or is the one that follows a volume change |
| `TarStack.PopToMeans` | tlm/tlm_restore_writer.c:687-697 | from a nested stack just the directories that do not occur in the new path are popped, the top one first |
| `TarStack.EveryRoundKept` | tlm/tlm_restore_writer.c:366-894 | after any number of rounds on any stream each directory's path occurs in those above it on the stack, and no text collected for a name or link is longer than TLM_MAX_PATH_NAME bytes, its NUL not counted |
| `TarRestore.FileNameIsAbsolute` | tlm/tlm_restore_writer.c:567-603 | a file without a long name goes by an absolute path, its header's name with a slash in front if it has none |
| `TarRestorer.RestoreWriter.GetDir` | tlm/tlm_restore_writer.c:242-901 | the parser on the shared read buffer does on any connection what the specification does on its whole buffers |
| `TarRestorer.RestoreWriter.OneRound` | tlm/tlm_restore_writer.c:366-480 | one round of the loop is one specification step, or the connection has ended inside it |
| `TarRestorer.RestoreWriter.ProcessRecord` | tlm/tlm_restore_writer.c:479-876 | the switch on the link flag takes the specified branch for every flag |
| `TarRestorer.RestoreWriter.RestoreRegular` | tlm/tlm_restore_writer.c:567-751 | names, data, queue entry, directory pops and huge-file state after a regular file or a first hard link |
| `TarRestorer.RestoreWriter.RestoreLink` | tlm/tlm_restore_writer.c:500-563 | a queued inode is linked to the path it was restored under, and no data is read |
| `TarRestorer.RestoreWriter.RestoreData` | tlm/tlm_restore_writer.c:1066-1228 | the data is written or skipped, and the file closed when no section is left |
| `TarRestorer.RestoreWriter.CopyData` | tlm/tlm_restore_writer.c:1166-1211 | exactly the data, rounded up to records, leaves the stream; the open file gets it when it is wanted |
| `TarRestorer.RestoreWriter.InputMem` | tlm/tlm_restore_writer.c:1421-1461 | for any buffer size the payload is returned and its length rounded up to 512 is consumed |
| `TarRestorer.RestoreWriter.LoadLongName` | tlm/tlm_restore_writer.c:1523-1553 | the long name is spliced in at its end, as far as the buffer has room |
| `TarRestorer.RestoreWriter.LoadLongLink` | tlm/tlm_restore_writer.c:843-849 | the same for a long link target |
| `TarRestorer.RestoreWriter.LoadAclInfo` | tlm/tlm_restore_writer.c:1662-1718 | the ACL payload is kept and the attributes read so far are dropped |
| `TarRestorer.RestoreWriter.LoadHumongus` | tlm/tlm_restore_writer.c:1466-1518 | name and size of a huge file, an old record of size 0 included, the size as atoll reads it |
| `TarRestorer.RestoreWriter.RestoreSym` | tlm/tlm_restore_writer.c:762-786 | a symlink is restored from the header or the long link, and the names are cleared |
| `TarRestorer.RestoreWriter.RestoreDir` | tlm/tlm_restore_writer.c:787-822 | a wanted directory is made and stacked after the directories it is not inside are popped |
| `TarRestorer.RestoreWriter.PopDirs` | tlm/tlm_restore_writer.c:692-697 | directories the new path is not inside get their attributes, top first |
| `TarRestorer.ParseWord` | tlm/tlm_util.c:333-350 | the first word and what follows its blanks |
| `TarPrinter.BackupReader.OutputAll` | tlm/tlm_backup_reader.c:524-796 | a run of callbacks prints exactly the blocks of its entries, and the queue and file count move as specified |
| `TarPrinter.BackupReader.OutputFile` | tlm/tlm_backup_reader.c:524-796 | symlink, first link, later link, empty, plain and huge file each print their blocks |
| `TarPrinter.BackupReader.OutputSections` | tlm/tlm_backup_reader.c:676-745 | sections of at most 2^31-8 bytes, each behind its header, until the file is out |
| `TarPrinter.BackupReader.OutputDir` | tlm/tlm_backup_reader.c:112-133 | the blocks of a directory |
| `TarPrinter.BackupReader.OutputFileHeader` | tlm/tlm_backup_reader.c:274-484 | long-name and long-link records when needed, then the header, and the file count |
| `TarFormat.SectionNameIs` | tlm/tlm_backup_reader.c:300-303 | a section is named after the file, a dot, and at least three digits that are its number |
| `TarFormat.TagsDiffer` | tlm/tlm_backup_reader.c:322-345 | the stand-ins for long names are not cut, and two are the same only for the same count and kind |
| `TarFormat.CountStays` | tlm/tlm_backup_reader.c:476-484 | the file count stays within eight digits and moves on by two for each long text until it starts over |
| `TarPrinter.BackupReader.OutputHumongusHeader` | tlm/tlm_backup_reader.c:215-258 | the huge-file record with size and name, which fit its buffer for every 64-bit size |
| `TarPrinter.BackupReader.WriteMagic` | src/ndmpd_tar_v3.c:2180-2205 | one record with the magic joins the stream |
| `TarPrinter.BackupReader.OutputAclHeader` | tlm/tlm_backup_reader.c:155-206 | the ACL record and its payload |
| `TarPrinter.BackupReader.OutputMem` | tlm/tlm_backup_reader.c:86-105 | for any buffer size the payload is emitted in the length rounded up to 512 |
| `TarPrinter.BackupReader.FillRecord` | tlm/tlm_backup_reader.c:440-475 | a whole zeroed record with its fields and its checksum joins the stream |
| `TarHeader.StampVerifies` | tlm/tlm_lib.c:362-417 | every 512-byte record verifies after its checksum is built, and only the checksum field changes |
| `TarHeader.VerifyIff` | tlm/tlm_lib.c:379-417 | a record passes if and only if it is not all zero and its checksum field reads as the sum of the bytes on both sides with eight blanks between |
| `TarHeader.DamageRefused` | tlm/tlm_lib.c:379-417 | a stamped record with any one byte beside its checksum changed is refused |
| `TarHeader.ChangeRefused` | tlm/tlm_lib.c:379-417 | the same of every record that passes, as long as its checksum field reads alike |
| `TarHeader.VerifyZero` | tlm/tlm_lib.c:379-417 | the verification returns 0 exactly for the all-zero record |
| `TarHeader.BuildHeaderChecksum` | tlm/tlm_lib.c:362-374 | the checksum is written into the buffer in place |
| `TarHeader.VfyTarChecksum` | tlm/tlm_lib.c:379-417 | the two summing loops compute the verification that these lemmas describe |
| `TarHeader.RecordReads` | tlm/tlm_backup_reader.c:440-475 | flag, name and link of a printed header read back |
| `TarHeader.RecordNumbers` | tlm/tlm_backup_reader.c:455-472 | mode, ids and time read back through the truncated octal fields |
| `TarHeader.RecordSize` | tlm/tlm_backup_reader.c:455-472 | every size up to 2^31-1 reads back |
| `TarHeader.RecordInode` | tlm/tlm_backup_reader.c:455-472 | every inode up to 2^31-1 reads back |
| `Octal.OctAtoiLoop` | tlm/tlm_util.c:357-372 | the loop computes the 32-bit value of the octal text |
| `Octal.OctFieldReads` | tlm/tlm_util.c:357-372 | octal text undoes the printed and truncated field whatever ends the digits |
| `Octal.AtollReads` | tlm/tlm_restore_writer.c:1504-1505 | a decimal number behind white space, with or without a sign, reads back whatever ends its digits, or as the nearest number of 64 bits |
| `Buffers.WriteBuffers.GetWriteBuffer` | tlm/tlm_lib.c:144-228 | whole records, never fewer than one; the stream so far is unchanged, a full buffer is sent first |
| `Buffers.WriteBuffers.SendLast` | tlm/tlm_backup_reader.c:860-886 | the last buffer goes out whole: behind the stream are the bytes sent one buffer earlier, or zeros |
| `Buffers.ReadBuffers.GetReadBuffer` | tlm/tlm_lib.c:235-306 | the next bytes of the connection in order, whole records, none skipped or repeated; nothing only at the end |
| `BackupPipeline.BackupConserves` | tlm/tlm_lib.c:144-228 | every reachable state: bytes sent, the full buffers in order and the filling one are the bytes produced; tbs_offset is their length |
| `BackupPipeline.HeldIsNeverSent` | src/ndmpd_tar_v3.c:2106-2152 | what is sent never runs ahead of what the producer has finished writing |
| `BackupPipeline.GracefulExit` | src/ndmpd_tar_v3.c:2106-2152 | the writer leaves only when told to stop with nothing full; after write_tar_eof everything produced has been sent |
| `BackupPipeline.AnyStreamReleased` | src/ndmpd_tar_v3.c:2106-2152 | every stream of whole records is what some clean run releases before its graceful exit, from every initial state of a one-buffer ring |
| `BackupPipeline.WriterNeverStuck` | src/ndmpd_tar_v3.c:2106-2163 | while the producer waits the writer can send, and a single full buffer is always sendable |
| `BackupPipeline.StepInv` | tlm/tlm_lib.c:144-228 | every step of either thread keeps the ring in order, an untimely retry excepted |
| `BackupPipeline.RetryKeepsIff` | tlm/tlm_lib.c:193-211 | a retried call keeps it if and only if the buffer is still full |
| `BackupPipeline.UntimelyRetryHangs` | tlm/tlm_backup_reader.c:828-847 | with one buffer an untimely retry means nothing is ever sent again |
| `BackupPipeline.UntimelyRetryReachable` | tlm/tlm_backup_reader.c:828-847 | from every initial state of a one-buffer ring, of any size, a clean run leads to such a retry |
| `RestorePipeline.RestoreConserves` | tlm/tlm_lib.c:235-306 | every reachable state: bytes handed out, then the unread tails of the full buffers, are the bytes read, in order |
| `RestorePipeline.NoEarlyRefill` | src/ndmpd_tar_v3.c:1976-2035 | only a buffer whose last byte has been handed out and whose flag is set is filled, and the slice in use never changes |
| `RestorePipeline.ReaderNeverStuck` | src/ndmpd_tar_v3.c:1976-2035 | while the consumer waits with nothing full the reader can read |
| `RestorePipeline.StopLosesNothing` | src/ndmpd_tar_v3.c:1984-2016 | with one buffer a failed read comes only when all bytes have been handed out |
| `RestorePipeline.LosesIff` | tlm/tlm_restore_writer.c:1842-1869 | some run ends with bytes read and not handed out if and only if the ring has more than one buffer |
| `RestorePipeline.MoreBuffersLose` | tlm/tlm_restore_writer.c:1842-1869 | a shortest such run |
| `RestorePipeline.StepInv` | src/ndmpd_tar_v3.c:1976-2053 | every step of either thread keeps the ring in order |
| `HardlinkQueue.Queue.Get` | tlm/tlm_hardlink.c:122-153 | finds the inode exactly when it is queued, with its link |
| `HardlinkQueue.Queue.Add` | tlm/tlm_hardlink.c:160-200 | queues a new inode and rejects one that is there |
| `Selection.IsFileWanted` | tlm/tlm_restore_writer.c:1297-1413 | the first selection that matches decides, then the exclusions |
| `Selection.KindOfSelection` | tlm/tlm_restore_writer.c:1340-1405 | exact, child, parent or none, in the order of the four tries |
| `Selection.IsParentOf` | tlm/tlm_restore_writer.c:1259-1283 | whether one name is above another |
| `Selection.ExactFind` | tlm/tlm_restore_writer.c:1236-1254 | whether a name is in a list of patterns |
| `Selection.PlainSelection` | tlm/tlm_restore_writer.c:1297-1413 | without wildcards a selection means itself, what lies below it, and the directories above it |
| `Selection.PlainWanted` | tlm/tlm_restore_writer.c:1297-1413 | without wildcards: a name is wanted just if some selection is it, or stands above or below it, and no exclusion matches; the first such selection decides, and the kind reported is exact, child or parent just as the two stand |
| `Selection.ExcludedName` | tlm/tlm_restore_writer.c:1407-1413 | an excluded name is not wanted, whatever is selected |
| `Selection.SlashedSelection` | tlm/tlm_restore_writer.c:1340-1405 | a selection that ends in a slash means the same as without it |
| `Selection.WildSelection` | tlm/tlm_restore_writer.c:1340-1405 | what each of the four tries asks of a selection with wildcards |
| `Selection.CaseBlind` | tlm/tlm_restore_writer.c:1335-1341 | where case is ignored, names that differ only in it get the same answer |
| `Selection.CatPathJoins` | tlm/tlm_lib.c:634-660 | there is a joined path just when the lengths stay below PATH_MAX; it is the directory, slashes only, and the name without its leading slashes, with one slash at least unless a part is empty |
| `Selection.JoinsDiffer` | tlm/tlm_lib.c:634-660 | names that differ behind their leading slashes are joined to different paths |
| `Wildcard.Match` | tlm/tlm_util.c:207-246 | the loop terminates and decides the meaning of the pattern with its closing stars normalised |
| `Wildcard.MatchSound` | tlm/tlm_util.c:199-246 | whatever matches is matched in the declarative sense |
| `Wildcard.MatchCompleteIff` | tlm/tlm_util.c:199-246 | it decides the declarative sense on all strings if and only if the pattern does not end in two stars |
| `JobStats.Ring.New` | tlm/tlm_info.c:75-112 | the new link closes the cycle in front of the top, with count 1 |
| `JobStats.Ring.Ref` | tlm/tlm_info.c:117-148 | the first link of that name from the top counts one more |
| `JobStats.Ring.UnRefLink` | tlm/tlm_info.c:182-244 | at count 0 the link leaves the cycle and the top moves to the one behind it |
| `JobStats.Ring.Unlink` | tlm/tlm_info.c:205-236 | next and prev stay inverse round the remaining links |
| `JobStats.Ring.UnRef` | tlm/tlm_info.c:153-177 | the first link of that name is released; the lock stays held exactly when the ring was empty |
| `JobStats.RingCountsParties` | tlm/tlm_info.c:75-177 | over every run that does not hang counts are at least 1 and add up to the interested parties, so a link lives exactly as long as its name has one |
| `JobStats.HangsIff` | tlm/tlm_info.c:153-177 | a call waits for ever if and only if an earlier one released a job while nobody was interested in any |
| `JobStats.OthersStay` | tlm/tlm_info.c:182-244 | a link leaves exactly when its count was 1, and the others keep their counts and cyclic order |
| `JobStats.NewIsFoundIff` | tlm/tlm_info.c:75-148 | a new job is found by the name it was made with if and only if that has fewer than 32 bytes |
| `DumpdatesText.PutDdname` | src/ndmpd_dtime.c:435-451 | blanks, tabs and newlines are escaped |
| `DumpdatesText.LineReads` | src/ndmpd_dtime.c:282-322 | an escaped line comes back as one, with the rest of the file next, exactly when it fits the buffer |
| `DumpdatesText.NameReadsIff` | src/ndmpd_dtime.c:332-363 | the path comes back with the level next if and only if it is not empty and does not end in a backslash |
| `DumpdatesText.RecordReadsIff` | src/ndmpd_dtime.c:282-363 | a written record is the next one read, with the rest of the file next, if and only if its path is not empty, has no comment sign at a line's start and no backslash at its end, and its line fits the buffer |
| `DumpdatesText.InnerHashSwallowsNext` | src/ndmpd_dtime.c:282-322 | a path with a newline and a comment sign: the next record is read under a path with the first part glued in front |
| `DumpdatesText.TooLongLosesRest` | src/ndmpd_dtime.c:595-622 | a record too long for the buffer hides every record from there on |
| `DumpdatesText.HashIsComment` | src/ndmpd_dtime.c:296-298 | a path that starts with the comment sign is passed over |
| `DumpdatesText.SmallLetterReads` | src/ndmpd_dtime.c:374-404 | a backup type in a small letter reads as its capital |
| `Dumpdates.GetLine` | src/ndmpd_dtime.c:282-322 | pieces are joined in the line buffer, which never overflows |
| `Dumpdates.GetDdname` | src/ndmpd_dtime.c:332-363 | the name is unescaped in place and the next field is untouched |
| `Dumpdates.GetRecord` | src/ndmpd_dtime.c:558-584 | the next record, empty lines passed over |
| `Dumpdates.ReadDumpTimes` | src/ndmpd_dtime.c:595-622 | all records up to the first that cannot be read |
| `Dumpdates.FindDate` | src/ndmpd_dtime.c:881-890 | the first record of that path and level with a later date |
| `Dumpdates.Store.PutDumpTime` | src/ndmpd_dtime.c:715-808 | the file is rewritten with every matching record updated, or one appended |
| `Dumpdates.Store.GetDumpTime` | src/ndmpd_dtime.c:899-969 | the search downwards from the level, with the empty file and the backup-type levels |
| `Dumpdates.FileIsMap` | src/ndmpd_dtime.c:715-808 | after any run of puts the file holds one record per path and level with the last date put |
| `Dumpdates.PutIsUpdate` | src/ndmpd_dtime.c:768-803 | a put is a map update |
| `Dumpdates.LongPathPilesUp` | src/ndmpd_dtime.c:768-803 | a path that does not fit a record's name is never found again: each put of it appends one more record |
| `Dumpdates.DumpTimeAfterPuts` | src/ndmpd_dtime.c:899-969 | on such a file: the greatest lower level with a later date and that date, else level 0 and date 0 |
| `DataServer.DataServerSafe` | src/ndmpd_data.c:838-1020 | every run: what each socket, handler, operation and halt reason says about the state; no descriptor leaks; one notification per entry to HALTED |
| `DataServer.SocketlessStays` | src/ndmpd_data.c:156-465 | a session past IDLE without sockets opens none again before a stop, whatever comes; one that was listening is never connected |
| `DataServer.TrappedStays` | src/ndmpd_data.c:156-317 | from there no request but start-recover changes the state or notifies |
| `DataServer.ListenerLost` | src/ndmpd_data.c:156-392 | from a fresh session: a TCP listen, any start-backup, and no connection is accepted |
| `DataServer.Server.ServeAll` | src/ndmpd_data.c:156-956 | a run of requests and events on the session's fields is the run of the specification, up to the first that cannot come, safe throughout and with one notice per halt |
| `DataServer.Server.Serve` | src/ndmpd_data.c:156-956 | the handlers on the session's fields do one step of the specification, keep it safe and notify exactly when they halt |
| `DataServer.HaltTells` | src/ndmpd_callbacks.c:85-106 | everything that can halt a session and the reason the client is told: of a worker or a refused backup by its error number, of an abort Aborted, of a failed accept or an unsent reply ConnectError, of a refused start-recover InternalError |
| `DataServer.SuccessIsEarned` | src/ndmpd_callbacks.c:85-106 | over every run success is told just as often as a worker of a session at work ended without an error |
| `DataServer.NoFalseSuccess` | src/ndmpd_callbacks.c:85-106 | from a fresh session success is told only if some worker ended without an error |
| `DataServer.StepSafe` | src/ndmpd_data.c:240-465 | every request and event keeps this and notifies exactly when it halts |
| `DataServer.WayBack` | src/ndmpd_data.c:195-317 | an abort, or in ACTIVE a refused start-recover, and then a stop lead back to IDLE |
| `DataServer.BackupCanTrap` | src/ndmpd_data.c:1037-1170 | a backup start leaves ACTIVE without a worker exactly when the reply or the thread fails |
| `DataServer.AbortNeedsWorker` | src/ndmpd_data.c:240-278 | an abort takes the socket from a backup just when its worker has begun |
| `DataServer.OperationIs` | src/ndmpd_data.c:1037-1344 | a session that becomes active has the operation asked for, and only a start or a stop changes it |
| `DataServer.RefusalTells` | src/ndmpd_data.c:156-465 | the error that every refused request is answered with |
| `DataServer.RefusedBackupCloses` | src/ndmpd_data.c:156-181 | for every safe state and request: when start-backup is refused, and that a refused one closes every socket, keeps the descriptors only if there were none, notifies nobody and leaves the state, ACTIVE if only its thread failed |
| `DataServer.StateDiagram` | src/ndmpd_data.c:156-956 | the state changes only along the NDMP state diagram, each arrow by its own requests and events |
| `DataServer.ErrorHalts` | src/ndmpd_data.c:838-893 | halting closes every socket and notifies once; an idle or halted session is left alone |
| `DataServer.ListenGranted` | src/ndmpd_data.c:332-392 | when a listen is granted, with a listener exactly over TCP; a refused one changes nothing |
| `DataServer.ConnectGranted` | src/ndmpd_data.c:407-465 | when a connect is granted, with its socket the one descriptor; a refused one changes nothing |
| `DataServer.RefusedRecoverHalts` | src/ndmpd_data.c:195-223 | when start-recover is refused, and that a refused one halts every state but IDLE and closes every socket |
| `DataServer.AbortMeans` | src/ndmpd_data.c:240-278 | an abort halts at once except in ACTIVE, where it closes the socket only of a backup whose worker has begun, and leaves the worker |
| `DataServer.StopRenews` | src/ndmpd_data.c:293-317 | exactly a halted session is stopped, and is then as good as new but for notices, workers and abort function |
| `DataServer.AcceptMeans` | src/ndmpd_data.c:911-956 | the listener goes either way; then the connection is the one descriptor, or the session halts |
| `DataServer.CleanupSafe` | src/ndmpd_data.c:1401-1423 | a clean-up keeps the session safe and closes every socket |
| `FileHistory.History.AddFileEntry` | src/ndmpd_fhistory.c:119-229 | the entry joins the batch, which is sent first when it is full; a failed send changes nothing |
| `FileHistory.History.FileBatch` | src/ndmpd_fhistory.c:139-160 | the names in a message are the names added |
| `FileHistory.History.AddDirEntry` | src/ndmpd_fhistory.c:251-338 | the same for directory entries |
| `FileHistory.History.AddNodeEntry` | src/ndmpd_fhistory.c:361-452 | the entry joins its batch, sent first when full; after a failed send at most the directories have gone out |
| `FileHistory.History.SendNodes` | src/ndmpd_fhistory.c:380-408 | waiting directories are sent before the nodes, and the nodes whether or not that worked |
| `FileHistory.History.Cleanup` | src/ndmpd_fhistory.c:821-872 | everything waiting is sent as far as its messages get through, and dropped |
| `FileHistory.BatchesConserve` | src/ndmpd_fhistory.c:119-452 | every run, whichever sends fail: entries sent and then entries waiting are the entries taken, in order |
| `FileHistory.CleanupSendsAll` | src/ndmpd_fhistory.c:821-872 | after the final clean-up everything taken has been sent, of each kind if and only if its own messages got through |
| `FileHistory.NodesFollowDirs` | src/ndmpd_fhistory.c:380-408 | every node message comes after all directory entries added before its nodes, if the directory messages in front get through |
| `FileHistory.NodesOvertakeIff` | src/ndmpd_fhistory.c:380-408 | a node message is behind the waiting directories if and only if there were none or their message got through |
| `FileHistory.DirBatchesOfOne` | src/ndmpd_fhistory.c:326-328 | every directory message holds exactly one entry |
| `FileHistory.SentOnlyWhenFull` | src/ndmpd_fhistory.c:119-452 | a call that adds an entry sends nothing until that entry would not fit, by its count or by its name |
| `FileHistory.BatchesFit` | src/ndmpd_fhistory.c:119-452 | every message of every run has an entry, and no more than the arrays and the name buffer hold |
| `Traverse.Walker.TraverseLevel` | tlm/tlm_util.c:645-787 | the loops with their stack make exactly the callbacks of the specification |
| `Traverse.EachObjectCalled` | tlm/tlm_util.c:693-763 | with callbacks that succeed, each "." and each file of any tree gets its callback as often as it is there |
| `Traverse.NeverTwice` | tlm/tlm_util.c:693-763 | on every tree and whatever the callbacks return, no callback is made twice |
| `Traverse.OwnEntriesFirst` | tlm/tlm_util.c:645-787 | a directory's own callbacks come before any for something below it |
| `Traverse.SubtreesTogether` | tlm/tlm_util.c:645-787 | the callbacks of every subtree stand together, and none of them stands elsewhere |
| `Traverse.StopsAtFirstError` | tlm/tlm_util.c:693-763 | the reading of a directory ends at its first failing callback |
| `Base64.Encode` | src/ndmpd_base64.c:67-116 | the result is the encoding of section 4 of RFC 4648 |
| `Base64.Decode` | src/ndmpd_base64.c:118-181 | the loops compute the decoding of the leading letters |
| `Base64.LetterIs` | src/ndmpd_base64.c:55-56 | the letters are those of table 1 of RFC 4648 |
| `Base64.RoundTrip` | src/ndmpd_base64.c:67-181 | decoding an encoding gives the original |
| `Base64.DecodingIsDefinite` | src/ndmpd_base64.c:152-177 | the result does not depend on what is looked up for missing letters |

## Left out

- TarRoundTrip.ArchiveRoundTrip: does not cover what the code does not bring through: hard-linked files larger than one section (`TarResults.LinkedSectionsLost`) and symbolic links with several names or with a text that could not be read (`TarResults.SymlinkFraming`); nor negative times, or huge files whose section names overflow the long-name buffer.
- TarRestorer.RestoreWriter.GetDir: when the connection ends inside a payload the model stops there; what the code does with the missing bytes before it leaves its loop is not modelled.
- EndToEnd.RestoreStream: the same.
- EndToEnd.BackupThenRestore: the two buffer sizes are a multiple one of the other, as the daemon computes them (src/ndmpd_tar_v3.c:1131-1141, 1208).
- TarRestorer.RestoreWriter.RestoreData: the disk is a list of objects, so a file that exists already (it is opened without truncation), a failed open or write, and the update and overwrite flags are not modelled.
- Dumpdates.Store.PutDumpTime: the conversion between dates and text is a parameter with an assumed inverse per date; the list in memory is a sequence and not linked nodes; file errors and the backup file are not modelled.
- DumpdatesText.RecordReadsIff: a date that does not parse leaves a record as it was allocated, which is zeroed (src/ndmpd_func.c:117), so records with an empty path and date 0 are excluded; the C library's date text is taken to hold no '#'.
- Dumpdates.GetRecord: NUL bytes in the file are not modelled, and levels are not cut to a char.
- BackupPipeline.StepInv: lock and condition-variable details, timeouts and flag reads inside a segment are not modelled; a step is one stretch of a buffer call between waits; failed writes to the connection end the model.
- BackupPipeline.GracefulExit: says nothing of the bytes behind the first tbs_offset ones, which `EndToEnd.BackupThenRestore` and `TarTail` do for one thread at a time.
- Threads.TreeCrosses: that the producer's calls are those of the printer is a hypothesis, which `Threads.PrintedIsReleased` shows can be met for every tree, and not a step-by-step refinement of the printer's calls; the restore run is one that has read all that was sent; what it makes of the tail is left to `TarTail.EndOfStream`.
- RestorePipeline.RestoreConserves: aborts beyond a failed read are not modelled.
- HardlinkQueue.Queue.Add: the stream offset kept with a link is taken as 0 on the restore side, as its caller passes it.
- JobStats.Ring.New: allocation failures and the other fields of the statistics are not modelled.
- DataServer.RefusedBackupCloses: the environment, the module parameters and the file-history flush on halting are not modelled; descriptors and the answers of the system are parameters; the mover and tape requests are stubs in the daemon.
- FileHistory.History.AddFileEntry: the status fields of an entry stand for one number, allocation failures are not modelled, and names are shorter than PATH_MAX.
- Traverse.Walker.TraverseLevel: the forced stop from another thread, and paths longer than the path buffer, are not modelled.
- Base64.Decode: the sizes of the result buffers are not modelled.
- Selection.IsFileWanted: the static buffer that keeps an earlier retry name when the new one is too long is taken as empty.
- Selection.KindOfSelection: the same of its second try.
- RestorePath.TargetIs: the byte in front of the name that mkrsp may look at is a parameter (no name that a selection matches depends on it); wildcard and case flags, which the daemon never sets, and the joining of selections to the backup path before the restore are not modelled.
- TarSelected.FullRestore: a restore of several selections is not told as one list; `TarSelected.SelectedRestore` with `RestorePath.TargetIs` says what it makes.
- DAR restores: every caller passes a zero DAR argument to tar_getdir (src/ndmpd_tar_v3.c:2779-2781), so its branches are not modelled; the same for temporary hard-link files, whose directory is never set.
- ACL text, owners, modes and times on disk: an ACL record is an opaque payload and attributes are recorded, not applied.
- The timing of directory attributes relative to children: directories are printed with a trailing "/.", so the test in front of a pop does not defer as its comment says; only that each directory is popped once is proved.
- XDR stubs, sockets, dispatch tables, configuration, MD5, snapshots, SCSI and tape code, logging.
