# vitacompanion, verified

A Dafny 4.11 model of the parts of vitacompanion where an ordering, a loop or a byte layout
has to be right, with proofs for all inputs, all fragmentations and all interleavings.
`dafny verify dfyconfig.toml` checks the whole project.

## What is modelled

**The FTP admission protocol** (`Interlock*.dfy`, from `libftpvita/ftpvita.c`). Client
threads, the accept thread, reboot and abort callers and teardown share the flags
`transfer_active` and `reboot_quiesce_requested`, a counter, a mutex and the client list.
`Interlock` is the interleaving transition system: any number of client threads and callers,
one program counter value per atomic read, compare-and-swap, lock and unlock, sequential
consistency. `InterlockInvariant` splits what holds into an invariant of the flags alone
and one of the list, the mutex and the life of every thread object. `InterlockProof` shows
that each of the steps keeps both and `InterlockSafety` concludes for every run.
`InterlockDrain` and `InterlockExact` are about what the clearing of `transfer_active` in
teardown can lead to, in both directions; `InterlockRuns` puts runs together and
`InterlockWitness` holds concrete ones. `InterlockAlone` says what each operation comes to when
nothing else moves: when a reboot call is granted, a transfer admitted, a connection listed.

**The client list and the data connection** (`ClientList.dfy`, `Session.dfy`). The
intrusive doubly linked list on the heap, and the per-client data sockets with the commands
that open and close them, against a kernel that logs what it created and closed. What a session
creates is stated by the places of its commands: which earlier command settles how a transfer
gets its data connection, and which one its restart offset.

**Transfers** (`Transfer.dfy`, from `ftpvita_retr.h` and `ftpvita_store.h`). The nested
partial-I/O loops against callbacks that may return any integers, and what they come to when
every callback makes progress inside its contract, in pieces of any size.

**SHA-1** (`BlockStream.dfy`, `Sha1*.dfy`). `Sha1Spec` transcribes FIPS 180-4; `Sha1` is the
buffered in-place code of `src/sha1.c`, proved to compute it. `Sha1KnownAnswer` works out the
digest of "abc" from the transcription, round by round.

**Packages** (`src/package_installer.c`). `Zip` says as a function of the archive's bytes
what the reader visits and which error it reports. `Extractor` is the code that does it in
place, with partial reads and writes, a running checksum, the loop around `inflate` and
clean-up, on the directory tree of `StageTree` and `StageDisk`, in which a name can be in
another's way; `Inflate` is the stream that loop talks to. `ZipSoundness` is about everything
the reader accepts; `ZipLayout` and `ZipRoundTrip` are the writer of the APPNOTE, for entries
whose records say anything, what the reader makes of every such archive, and the round trip
for stored and deflated entries; `ZipDirectory` is about which end record is taken;
`PackageRoundTrip` goes from a list of files to the tree; `ZipNulName` is about names with a
NUL. `ArchivePath` is the path check. `Sfo` and `SfoRoundTrip` are the PARAM.SFO
lookup and `HeadBin` the sealing of head.bin.

**Commands and paths** (`src/cmd.c`, `src/parser.c`, `ftpvita_parse.h` and CWD/CDUP in
`ftpvita.c`). `Tokens` and `Command` cover receiving and tokenising a command in place;
`FtpGrammar`, `FtpPort` and `FtpParse` the FTP argument parsers; `Directory` the current
directory.

`Bytes`, `Layout`, `CStrings`, `ListSpec`, `Options`, `InstallErrors` and `Crc32` are shared
vocabulary. Kernel, socket, disk and memory calls are scripts of arbitrary results that are
part of the input. A result that depends on calls succeeding says so of the scripts: `Flows`
in `Transfer` and `Command`, `Succeeds` and `Whole` for packages.

Several lemmas take a function as a parameter (a compression function, a tag, a record
writer, a parser of numbers, the placing of an operation). They hold for any such function,
and `Sha1.HashChunks`, `HeadBin.MakeHeadBin`, `ZipRoundTrip.ReadInvertsArchive`,
`FtpParse.ParsePortTuple` and `Extractor.ExtractVpk` apply them to the real one. The lemmas of
`InterlockAlone` are about any run of one thread alone; `RunningAlone` shows that the runs of
`Interlock` are such runs, and `RebootRuns` puts the two together for a reboot call.

## Where code and expectation part

- Teardown clears `transfer_active` while detached transfers drain, so a reboot call that was
  in flight when teardown began can return 1 while a transfer still runs
  (`GrantedWhileDraining`). The exact condition is read off the state in which the flag is
  about to be cleared (`InterlockDrain.Risk`). It needs the flag's owner and a call between
  its first check and its count: the owner is transferring and a call is before its
  compare-and-swap or before its lock; or the owner is about to re-check and a call is before
  its compare-and-swap; or the owner is about to give up, such a call is there, and another
  client is still in its loop. `RiskIsExact` shows that the bad state can be reached from
  there iff there is this risk, and `GrantedMeansNoTransfer` that every run without it is
  safe. The application ends its command thread before it calls `ftpvita_fini`.
- The same clearing breaks single flight iff some thread owns the flag at that moment
  (`SingleFlightInDrain`).
- `ftpvita_fini` does not wait for a client that took itself off the list before the detach:
  that thread may still have its record and its thread object to give back when it returns
  (`LeftAfterFini`, `RunningAfterFini`).
- An archive entry counts as a directory by the last byte of its raw name, while all other
  checks see the C string. A NUL inside the raw name therefore makes the directory path lose
  a character that was checked; `AcceptedStaysBeneath` gives the exact condition under which
  the directory still lies beneath the stage, `DirectoryArchivePlace` states it for the archive
  of any such entry, and `NulBeforeTheSlash` for one whose directory leaves the stage.
- CDUP undoes CWD exactly from the canonical paths (`UpUndoesDownExactly`); a path with a
  slash at its end below the device, which a full-path CWD leaves (`TrailingSlashReached`), is
  not come back to.
- An accepted archive still fails to extract iff one of its files is where another entry needs
  a directory, or a NUL in a file's name leaves a path that ends in a slash (`FillStage`).
- `ftpvita_abort_clients` does not look at `ftp_initialized`: begun during `ftpvita_fini`, it
  can lock the mutex after its deletion (`AbortAfterDelete`).
- `ensure_directory` makes the parents of a path only from its first colon on; a path without
  a colon has its last directory made and no other (`NoDeviceDirectory`).
- STOR and APPE clear the restart offset only when the stream has run; RETR always does.

## Model

| member | source | states |
|---|---|---|
| InterlockSafety.StepKeepsGuard | libftpvita/ftpvita.c:195-212 | every atomic step of every thread keeps the ownership invariant of the two flags |
| InterlockSafety.StepKeepsLife | libftpvita/ftpvita.c:1095-1199 | every step keeps the invariant of list, counter, mutex, thread objects and records |
| InterlockSafety.RunKeepsGuard | libftpvita/ftpvita.c:195-212 | the flag invariant holds along every run, without looking at the list or the mutex |
| InterlockSafety.Reach | libftpvita/ftpvita.c:1653-1688 | both invariants hold in every state reachable from the initialised server |
| InterlockSafety.GrantedMeansNoClients | libftpvita/ftpvita.c:1653-1688 | from a reboot call's return of 1 until cancel or the end of teardown: guard set and owned by that call, client list empty, no client about to be inserted |
| InterlockDrain.GrantedMeansNoTransfer | libftpvita/ftpvita.c:1653-1688 | over the same span no thread holds an admitted transfer, except in a drain that began with a reboot call in flight and whose clearing of the flag was at a risk |
| InterlockExact.RiskIsExact | libftpvita/ftpvita.c:1189-1191 | in every run, when teardown clears the flag: a state in which a call has returned 1 beside an admitted transfer can still be reached iff there is a risk at that moment |
| InterlockExact.RiskGoesBad | libftpvita/ftpvita.c:1189-1198 | from every state at risk such a state is reached |
| InterlockExact.NoRiskNoBad | libftpvita/ftpvita.c:1189-1198 | after a clearing without a risk no run leads to such a state |
| InterlockExact.SingleFlightInDrain | libftpvita/ftpvita.c:1189-1198 | single flight holds from the clearing on, through the drain and after it, iff no thread owned the flag that was cleared |
| InterlockWitness.GrantedWhileDraining | libftpvita/ftpvita.c:1189-1198 | that exception is a reachable state |
| InterlockSafety.DoubleCheckAlone | libftpvita/ftpvita.c:195-207 | the re-check after the compare-and-swap rules out an admitted transfer by itself once a reboot call saw none, from any state with the flag invariant |
| InterlockSafety.GuardBelongsToSomeone | libftpvita/ftpvita.c:1658-1688 | a set guard belongs to a call that has neither returned 0 nor been cancelled: a refused call leaves none of its own |
| InterlockSafety.SingleFlight | libftpvita/ftpvita.c:195-212 | outside the drain transfer_active is set iff one thread owns it, at most one does, and the owner is on the client list, or was just taken off it by a teardown that has not cleared the flag yet |
| InterlockSafety.NoClientsNoTransfer | libftpvita/ftpvita.c:1257-1263 | a client count of zero implies no transfer, before teardown detaches and after it has joined |
| InterlockSafety.NothingTwice | libftpvita/ftpvita.c:1257-1275 | no thread object is deleted twice and no record freed twice; a listed record is not freed; a thread object goes only after its thread |
| InterlockSafety.EachDeletedOnce | libftpvita/ftpvita.c:1195-1198 | a client that is gone was freed once and its thread deleted exactly once, by itself, the accept thread or teardown |
| InterlockSafety.DetachTakesEveryClient | libftpvita/ftpvita.c:1166-1190 | the fixed array of teardown takes every listed client and leaves none marked |
| InterlockSafety.LeftAfterFini | libftpvita/ftpvita.c:1257-1275 | once fini has returned every client is gone, or took itself off the list before the detach and has only its own record and thread object left to give back |
| InterlockWitness.RunningAfterFini | libftpvita/ftpvita.c:1580-1590 | such a client still running after fini is reachable |
| InterlockSafety.MutexOutlivesItsUsers | libftpvita/ftpvita.c:1570-1585 | no client thread, nor the accept thread, nor teardown touches the mutex after its deletion; only a reboot call in flight when teardown began, or an abort call, can |
| InterlockSafety.AbortWalksLiveList | libftpvita/ftpvita.c:1629-1651 | while an abort call walks the list it is alone in the mutex, or the list is empty for good, and no listed record has been freed |
| InterlockWitness.AbortAfterDelete | libftpvita/ftpvita.c:1636-1639 | an abort call that locks the mutex after its deletion, with no reboot call in flight, is reachable |
| InterlockAlone.RebootAlone | libftpvita/ftpvita.c:1653-1683 | a reboot call alone on an initialised server with the mutex free and no guard set returns 1 iff there is no client and no transfer, with the guard set and its own; otherwise it returns 0 and everything is as it was |
| InterlockAlone.RebootRuns | libftpvita/ftpvita.c:1653-1683 | as a run of the transition system: nine actions of the caller, and nothing else, end in exactly that state |
| InterlockAlone.RefusedAtOnce | libftpvita/ftpvita.c:1658-1666 | it is refused at its check, its mutex check or its compare-and-swap without an initialised server, a mutex, or an unset guard, and changes nothing |
| InterlockAlone.CancelAlone | libftpvita/ftpvita.c:1685-1688 | cancelling gives back the guard and changes nothing else |
| InterlockAlone.AbortAlone | libftpvita/ftpvita.c:1629-1651 | with the mutex free an abort call gets to walk the list and leaves the state as it was |
| InterlockAlone.TransferAlone | libftpvita/ftpvita.c:195-212 | a client alone is admitted iff neither flag is set and then owns transfer_active; refused, or after its transfer, everything is as it was |
| InterlockAlone.AcceptAlone | libftpvita/ftpvita.c:1095-1120 | an accepted connection is listed in front and served iff no reboot is requested and fewer than 8 clients are listed, any number of times; otherwise its thread object and record are given back once |
| InterlockAlone.StartFails | libftpvita/ftpvita.c:1126-1153 | a client whose thread does not start leaves the list and is given back once |
| InterlockAlone.LeaveAlone | libftpvita/ftpvita.c:1257-1275 | a client that ends leaves the list and gives back its record and thread object; one that was detached leaves its thread object to be joined |
| InterlockAlone.FiniDetaches | libftpvita/ftpvita.c:1157-1191 | teardown takes every client off the list, clears the transfer flag and goes on to join exactly those clients |
| InterlockAlone.FiniJoins | libftpvita/ftpvita.c:1195-1198 | a client is joined iff its thread has ended, and its thread object then deleted |
| InterlockAlone.FiniEnds | libftpvita/ftpvita.c:1580-1588 | with nobody left to join teardown deletes the mutex and resets list, counter and both flags |
| ClientList.ClientList.constructor | libftpvita/ftpvita.c:1586-1587 | the empty list satisfies the heap invariant |
| ClientList.ClientList.Allocate | libftpvita/ftpvita.c:1350-1385 | a new record is known and off the list |
| ClientList.ClientList.Free | libftpvita/ftpvita.c:1267-1267 | freeing an unlisted record keeps the invariant and leaves no link to it |
| ClientList.ClientList.Add | libftpvita/ftpvita.c:1095-1120 | added at the front iff no reboot is requested and fewer than 8 are listed; next and prev stay one acyclic list of exactly the marked records, whose length is the counter; a refused record is untouched |
| ClientList.Bypass | libftpvita/ftpvita.c:1135-1143 | relinking the neighbours leaves a linked list without the record, from any position |
| ClientList.ClientList.Delete | libftpvita/ftpvita.c:1126-1153 | removes exactly the record from any position, and reports false when it was already off |
| ClientList.ClientList.DetachAll | libftpvita/ftpvita.c:1166-1191 | the array receives the threads of all clients in list order, and every record ends unmarked |
| Session.Client.BeginTransfer | libftpvita/ftpvita.c:195-207 | with the answer of the flag protocol as its input: a transfer is held iff admitted, and counted once |
| Session.Client.EndTransfer | libftpvita/ftpvita.c:209-212 | the held transfer is given up once |
| Session.Client.CloseData | libftpvita/ftpvita.c:415-420 | both data sockets are closed, each only if open |
| Session.Client.OpenData | libftpvita/ftpvita.c:385-413 | fails on an unusable connection without touching a socket; a passive one opens the accepted socket |
| Session.Client.DoPasv | libftpvita/ftpvita.c:240-323 | replaces any earlier connection; passive on its socket iff socket, bind, listen and getsockname succeed, and fully closed otherwise |
| Session.Client.DoPort | libftpvita/ftpvita.c:325-383 | a malformed argument changes nothing; otherwise active on its socket, or fully closed when there is none |
| Session.Client.SendList | libftpvita/ftpvita.c:451-533 | every exit leaves both sockets closed and the transfer ended exactly once if admitted |
| Session.Client.SendFile | libftpvita/ftpvita.c:677-761 | likewise, and the restart offset is consumed on every path |
| Session.Client.ReceiveFile | libftpvita/ftpvita.c:815-887 | every exit leaves both sockets closed and the transfer ended once if admitted; the restart offset is consumed exactly when the stream ran |
| Session.Client.Dispatch | libftpvita/ftpvita.c:1233-1238 | between commands pasv_sockfd is closed, data_sockfd is open iff the type is not NONE, and no transfer is held; each command leaves the connection, the restart offset and the created sockets that it should |
| Session.RunSession | libftpvita/ftpvita.c:1201-1263 | over any list of commands each data socket is created as often as there are commands that create it by the places of the commands before them, each is closed exactly once, and as many transfers are ended as were admitted |
| Session.LineByPlaces | libftpvita/ftpvita.c:240-413 | a transfer accepts iff the last command before it other than REST, a malformed PORT and commands without transfers is a PASV whose four calls succeeded, on that socket; it connects iff that is a PORT with a socket; its restart offset is that of the last REST since the offset was last consumed, or the mark of an APPE that did not run |
| Session.AllSocketsByPlaces | libftpvita/ftpvita.c:385-413 | the commands' own definition of what they create agrees with those places, for every descriptor |
| Transfer.RetrExtent | libftpvita/ftpvita_retr.h:23-62 | an exact prefix of the extent goes out; each stage with its counters, and with the answer and errno of the callback that caused it; when every callback makes progress, complete iff the file is long enough |
| Transfer.MoveChunk | libftpvita/ftpvita_retr.h:36-61 | one round extends what has been read and sent by adjoining pieces of the file, and stops only on an answer outside the contract or the end of the file |
| Transfer.SendChunk | libftpvita/ftpvita_retr.h:47-60 | the inner loop sends a prefix of the chunk, all of it unless a send answers outside 1..pending |
| Transfer.StoreStream | libftpvita/ftpvita_store.h:34-61 | the file grows by a prefix of what was received; everything received is written before each receive; complete only when a receive answers 0; each failure with its answer and errno; when every callback makes progress the whole stream arrives |
| Transfer.WriteChunk | libftpvita/ftpvita_store.h:49-60 | the inner loop writes a prefix of the chunk, all of it unless a write answers outside 1..pending |
| Transfer.UploadThenDownload | libftpvita/ftpvita_store.h:34-61 | an upload and a download from any restart offset return the uploaded bytes, under any fragmentations, whenever every callback makes progress inside its contract |
| Sha1.HashChunks | src/sha1.c:78-149 | init, updates over any split of the message, and final yield the FIPS 180-4 digest of the whole |
| Sha1.HashMessage | src/sha1.c:78-149 | the same for one update |
| Sha1KnownAnswer.DigestOfAbc | src/sha1.c:15-149 | the digest of "abc" is a9993e36 4706816a ba3e2571 7850c26c 9cd0d89d |
| Sha1.Run | src/sha1.c:78-149 | the same in terms of padding and hashing with any compression function |
| Sha1.Sha1Context.Init | src/sha1.c:78-91 | the context of the empty message |
| Sha1.Sha1Context.Update | src/sha1.c:93-105 | the buffered-block invariant for the message extended by the bytes |
| Sha1.Sha1Context.Feed | src/sha1.c:97-104 | the same for one byte, hashing the block when it is full |
| Sha1.Sha1Context.Transform | src/sha1.c:21-76 | one block is the section 6.1.2 recurrence |
| Sha1.Sha1Context.Load | src/sha1.c:25-26 | the first 16 words are the words of the block |
| Sha1.Sha1Context.Expand | src/sha1.c:27-30 | the other 64 words are the message schedule |
| Sha1.Sha1Context.Run | src/sha1.c:32-69 | the four loops are the 80 rounds |
| Sha1.Sha1Context.PadBuffer | src/sha1.c:112-126 | both padding branches leave all of the padded message but its last eight bytes |
| Sha1.Sha1Context.PutLength | src/sha1.c:129-137 | the eight shifted bytes are the 64-bit length |
| Sha1.Sha1Context.Final | src/sha1.c:108-149 | the digest of the message fed since init |
| Sha1.Sha1Context.Output | src/sha1.c:142-148 | the column-wise loop writes the words most significant byte first |
| Sha1.SumIsConcatenation | src/sha1.c:26-26 | adding the shifted bytes of a word is putting them side by side |
| Sha1.RoundCh | src/sha1.c:38-45 | a round of the first loop is the standard's round for t below 20 |
| Sha1.RoundParity | src/sha1.c:46-53 | likewise for the second and fourth loops |
| Sha1.RoundMaj | src/sha1.c:54-61 | likewise for the third loop |
| Sha1.EightBytes | src/sha1.c:130-137 | base-256 digits of the length are its shifted bytes |
| BlockStream.StreamByte | src/sha1.c:97-99 | a byte in the buffer keeps the streaming invariant, for any compression function |
| BlockStream.StreamBlock | src/sha1.c:100-104 | so does hashing a full buffer |
| BlockStream.PadShort | src/sha1.c:115-119 | below 56 buffered bytes padding makes one more block |
| BlockStream.PadLong | src/sha1.c:120-126 | from 56 on it makes two |
| Crc32.CrcInTwo | src/package_installer.c:254-254 | the checksum of a whole is that of its pieces in turn |
| Crc32.KnownAnswer | src/package_installer.c:239-239 | the checksum of "123456789" is cbf43926 |
| ArchivePath.IsSafeArchivePath | src/package_installer.c:145-164 | accepts exactly the names without ':' and '\\' whose '/'-components (one trailing '/' allowed) are non-empty and neither "." nor ".." |
| ArchivePath.Scan | src/package_installer.c:151-163 | the pointer scan decides any property that is decided component by component |
| ArchivePath.SafeNameStaysBeneath | src/package_installer.c:421-430 | resolving stage + "/" + name pops nothing and ends as many levels beneath the stage as the name has components |
| ArchivePath.SafeNameIsExact | src/package_installer.c:145-164 | a name is accepted iff it has neither ':' nor '\\' and every component goes down one level |
| Zip.ScanBack | src/package_installer.c:332-351 | the last place at or before its start with the signature, or that there is none |
| ZipSoundness.AcceptedIsSound | src/package_installer.c:356-454 | for every accepted archive: cursors strictly increase inside the file, declared sizes sum to at most 4 GiB, every payload lies inside the file, stored files equal their payload, checksums match |
| ZipSoundness.EntrySound | src/package_installer.c:373-451 | the same for one accepted entry |
| ZipSoundness.UnpackSound | src/package_installer.c:242-261 | accepted data has the declared size and checksum |
| ZipSoundness.AcceptedStaysBeneath | src/package_installer.c:409-430 | files always go beneath the stage; a directory does iff its C string short of the last character leads there, and always when the name has no NUL |
| ZipNulName.NulBeforeTheSlash | src/package_installer.c:410-429 | the archive of one entry with the raw name "..a", NUL, "/" is accepted, and the directory it makes is not beneath the stage |
| ZipNulName.DirectoryArchivePlace | src/package_installer.c:409-430 | the archive of any directory entry with a safe C string is accepted, and its directory lies beneath the stage iff that string short of one character leads there |
| ZipLayout.CentralDecodes | src/package_installer.c:380-390 | the reader decodes from an APPNOTE 4.3.12 header the fields that went in |
| ZipLayout.LocalDecodes | src/package_installer.c:432-440 | likewise for the local header of section 4.3.7 |
| ZipLayout.EndRecordFields | src/package_installer.c:333-339 | likewise for the end record of section 4.3.16 |
| ZipLayout.Signatures | src/package_installer.c:341-437 | the three records start with PK and 3 4, 1 2 and 5 6 |
| ZipDirectory.DirectoryIsExact | src/package_installer.c:319-354 | a directory is found iff the last signature within 65,558 bytes of the end starts a record with both disks zero, equal entry counts short of 65,535 and a directory inside the file; it is that directory |
| ZipRoundTrip.DirectoryFound | src/package_installer.c:319-354 | the scan finds the end record behind any comment that holds no later signature |
| ZipRoundTrip.EntryReads | src/package_installer.c:373-451 | for every entry, whatever its records say and wherever they stand: one round takes or refuses it by the stated checks in their order, each with its code, stored and deflated alike |
| ZipRoundTrip.WalkReads | src/package_installer.c:371-451 | the loop does what the entries say in order, or reports the code of the first that is refused |
| ZipRoundTrip.ReadOfArchive | src/package_installer.c:356-454 | for every archive of any entries: reading it is exactly that, so a deflated entry is taken iff its payload inflates to data of the stated size and checksum |
| ZipRoundTrip.ReadInvertsArchive | src/package_installer.c:356-454 | reading a serialised list of stored and deflated entries succeeds and yields exactly those files, contents and directories, in order |
| Extractor.ReadAt | src/package_installer.c:185-197 | all of the range whatever the pieces; as long as every call moves something it fails iff the range is not in the file |
| Extractor.WriteAll | src/package_installer.c:199-209 | the file grows by all of the buffer, or a call failed, which it does not while every call moves something |
| Extractor.CopyChunk | src/package_installer.c:247-259 | one chunk extends file, checksum and 32-bit count together |
| Extractor.CopyStored | src/package_installer.c:246-260 | the file becomes the payload and the checksum its CRC |
| Inflate.Stream.Inflate | src/package_installer.c:282-296 | one call: what the stream gives, in front of what it still has to give, is what it had to give before; each return code with what it says about the rest |
| Extractor.InflateLoop | src/package_installer.c:267-302 | for any decoder, any chunks and any read-ahead: a success leaves the decoded payload in the file, with its CRC and 32-bit count; without failing calls a failure means that the payload does not decode |
| Extractor.ExtractData | src/package_installer.c:211-317 | success stores the unpacked data at its place in the tree; failure takes away that file at most and adds nothing but directories; without failing calls the error is the reader's unless something is in the way |
| Extractor.ScanTail | src/package_installer.c:331-351 | the loop finds the record that the reader's definition finds |
| Extractor.FindCentral | src/package_installer.c:319-354 | find_central_directory against the reader |
| Extractor.ExtractFile | src/package_installer.c:431-449 | a file entry against the reader |
| Extractor.ExtractNamed | src/package_installer.c:400-449 | name, type, size and path checks against the reader |
| Extractor.ExtractEntry | src/package_installer.c:373-450 | one round against the reader; the size check never underflows |
| Extractor.ExtractEntries | src/package_installer.c:371-451 | the loop: the tree is that of the rounds made, less one file at most and with directories added after an error |
| Extractor.ExtractVpk | src/package_installer.c:356-454 | as long as every call succeeds: success iff the reader accepts and nothing in the tree is in an entry's way; the tree is then what the reader's operations make of it, and without an obstacle every error is the reader's |
| PackageRoundTrip.FillStage | src/package_installer.c:702-705 | making the stage and extracting any archive into it: as long as every call succeeds it does so iff the way to the stage is free, the reader accepts, no file is where another entry needs a directory and no file's path ends in a slash; the stage then holds the entries and nothing else, elsewhere nothing has changed |
| PackageRoundTrip.AcceptedPlaces | src/package_installer.c:421-449 | for every accepted archive and every disk with an empty stage: the operations of the code succeed one after another iff no file is where another entry needs a directory and no file's path ends in a slash; near the stage the tree then holds the entries and nothing else, elsewhere nothing has changed |
| PackageRoundTrip.PackThenExtract | src/package_installer.c:356-454 | packing files, stored or deflated, and extracting them into a new stage on any disk: as long as every call succeeds it does so iff no name leads through another file; the stage then holds exactly the packed files and directories, and nothing else on the disk has changed |
| PackageRoundTrip.HeldContent | src/package_installer.c:421-449 | with distinct places each packed file is in the stage with its own content |
| StageTree.EnsureMakes | src/package_installer.c:95-129 | making all prefixes succeeds iff no file is in the way, and makes just the missing directories |
| StageTree.PlaceAllIsExact | src/package_installer.c:95-143 | placing entries in order succeeds iff nothing is placed at or below a file (the same file may be written again), and the tree is then exactly theirs |
| StageTree.PlaceOntoIsExact | src/package_installer.c:95-143 | the same for entries below an empty stage on any disk, which stays as it is elsewhere |
| StageTree.MakeStage | src/package_installer.c:703-703 | making a stage that is not there leaves it empty, unless a file is on the way to it |
| StageDisk.EnsureDirectory | src/package_installer.c:95-129 | for every path: the loop over the characters makes the directories at its cuts, in order, and fails only where one cannot be made or a call fails, which it does not while the script answers with success |
| StageDisk.DeviceDirectory | src/package_installer.c:103-118 | on a device the cuts are every prefix of the path's components; the slash of "ux0:/x" is not one, and a last component "", "." or ".." adds none |
| StageDisk.NoDeviceDirectory | src/package_installer.c:103-129 | without a colon only the last directory is made |
| PackageRoundTrip.FilePlaces | src/package_installer.c:131-143 | ensure_parent_directory and the open store a file at its place in the tree, or fail when the path ends in a slash |
| Sfo.SfoString | src/package_installer.c:491-525 | succeeds iff the lookup finds a value, which is copied, cut to the destination and terminated; nothing else is written |
| Sfo.FindEntry | src/package_installer.c:503-524 | the loop is the search |
| Sfo.CheckEntry | src/package_installer.c:504-515 | an entry is bad iff a string or its space leaves the file |
| Sfo.EqualAt | src/package_installer.c:514-514 | the comparison looks at nothing after the terminator |
| Sfo.FindIsFirst | src/package_installer.c:503-524 | a value is found iff it is that of the first entry with the key, it and all before it being good |
| Sfo.SlotIsExact | src/package_installer.c:504-523 | an entry is good, with this key and value, iff the key and a NUL stand at the key offset and the value and a NUL within its space, all inside the file |
| Sfo.HeaderIsExact | src/package_installer.c:494-500 | a header is accepted iff it starts with NUL, P, S, F and there is room for its entries |
| SfoRoundTrip.FindInvertsBuild | src/package_installer.c:41-56 | looking up a key in a file built from pairs gives the value of its first pair |
| SfoRoundTrip.FindMissesOthers | src/package_installer.c:491-525 | a key that no pair has is not found |
| HeadBin.FpkgHmac | src/package_installer.c:539-560 | the first 16 bytes of the SHA-1 of the rearranged SHA-1 |
| HeadBin.RearrangedBytes | src/package_installer.c:547-555 | the block of the second hash byte by byte |
| HeadBin.SealHead | src/package_installer.c:594-628 | the in-place writes are the three steps of the seal, with the guards on the header fields |
| HeadBin.SealPrefixIs | src/package_installer.c:603-609 | a prefix is refused iff its tag would leave the head; otherwise its tag follows it and no other byte has changed |
| HeadBin.SealRangeIs | src/package_installer.c:611-621 | the second range is refused iff it is shorter than 64 bytes, or it or its tag would leave the head; otherwise the tag is of the range less its last 64 bytes |
| HeadBin.SealedTagsAreValid | src/package_installer.c:602-628 | for the template's fields the seal succeeds, all three tags are valid for the final bytes, and only the content id and the tags have changed |
| HeadBin.SealIsIdempotent | src/package_installer.c:602-628 | sealing again with the same content id changes nothing |
| HeadBin.FindTitle | src/package_installer.c:577-587 | the title id, or the error that stands for none or a malformed one |
| HeadBin.MakeHeadBin | src/package_installer.c:569-648 | on the template it succeeds iff there is a title id of nine capital letters and digits and every call answers; head.bin then has at 0x30 the package's own content id, cut to 47 bytes, if that is not empty, and else the default around the title id, padded with zeros; all tags are those of fpkg_hmac; the rest is the template; each failure has its code |
| Tokens.LineOfPrefix | src/cmd.c:67-68 | once a newline has arrived, what follows it changes nothing |
| Tokens.ParseInvertsSpelling | src/parser.c:10-44 | any words spelt with any blanks, tabs and returns between them, up to a newline, a NUL or the end, are read back as those words |
| Tokens.ParseIsExact | src/parser.c:10-44 | every text is such a spelling: the words read are exactly those that it spells |
| Tokens.ParseWord | src/parser.c:29-40 | one round of the scan takes one word of the line |
| Command.ParseCmd | src/parser.c:10-44 | too many iff there are more words than room; otherwise each start begins its word in place, with a NUL behind it |
| Command.TakeArgument | src/parser.c:29-40 | one word is cut off in place |
| Command.ReceiveCommand | src/cmd.c:53-75 | the buffer holds a prefix of the stream and a NUL; too long iff 256 bytes arrived without a newline; a negative result is the error of a receive, and none occurs while every call delivers something |
| Command.CmdHandle | src/cmd.c:77-109 | the outcome is that of the words of the buffer |
| Command.RespondIsExact | src/cmd.c:77-109 | for every stream that is short enough: too many iff it spells more than 20 words, empty iff none, unknown iff no definition has the first word's name, executed with exactly those words iff the first definition with that name takes as many arguments, and a wrong count iff it takes another number |
| Command.TooLongIsExact | src/cmd.c:71-72 | too long iff the first 256 bytes hold no newline |
| Command.LookupIsFirst | src/cmd_definitions.c:68-75 | the lookup finds the arity n iff the first definition with the name has it |
| Command.Serve | src/cmd.c:161-203 | as long as every call delivers something until the stream ends, the response is a function of the stream, for every fragmentation; otherwise it is that of the bytes that arrived, unless a receive failed; without its timeouts nothing is read |
| FtpGrammar.RestOffsetIsExact | libftpvita/ftpvita_parse.h:64-91 | accepts exactly blanks, a numeral of value at most 2^31-1 with any leading zeros, blanks and the line end |
| FtpGrammar.RestOffsetOfDecimal | libftpvita/ftpvita_parse.h:64-91 | inverts decimal printing up to the limit |
| FtpParse.RestDigits | libftpvita/ftpvita_parse.h:78-84 | the guard before the multiplication is exact and nothing wraps |
| FtpParse.ParseRestOffset | libftpvita/ftpvita_parse.h:64-91 | the code computes that |
| FtpPort.PortTupleIsExact | libftpvita/ftpvita_parse.h:93-123 | accepts exactly six numerals up to 255 with commas between them, then blanks and the line end, and reads their values |
| FtpPort.PortInvertsPasv | libftpvita/ftpvita.c:311-344 | parsing the six numbers that PASV prints gives back the address and the port |
| FtpParse.ParsePortTuple | libftpvita/ftpvita_parse.h:93-123 | the code computes that |
| FtpParse.PortNumber | libftpvita/ftpvita_parse.h:102-112 | one number, given up once it passes 255 |
| FtpParse.ParseCommandLine | libftpvita/ftpvita_parse.h:9-37 | verb and arguments are found, or refused when the verb is empty or does not fit |
| FtpParse.SplitLineOf | libftpvita/ftpvita_parse.h:9-37 | a verb and arguments put together with blanks are taken apart again |
| FtpParse.SplitLineIsExact | libftpvita/ftpvita_parse.h:9-37 | a line is accepted iff it is put together so from a verb that is not empty and fits the buffer |
| FtpParse.CopyCommandArgument | libftpvita/ftpvita_parse.h:39-62 | the text up to tab or line end, refused when empty or too long |
| Directory.ReachedIsProper | libftpvita/ftpvita.c:557-653 | every path of every run of CWD and CDUP is "/" or starts with a slash and has another, and fits its buffer |
| Directory.UpIsProper | libftpvita/ftpvita.c:562-580 | CDUP away from the root strictly shortens the path |
| Directory.UpReachesRoot | libftpvita/ftpvita.c:649-653 | repeated CDUP reaches the root |
| Directory.UpUndoesDown | libftpvita/ftpvita.c:562-626 | CDUP undoes a CWD to one name from every canonical path |
| Directory.UpUndoesDownExactly | libftpvita/ftpvita.c:562-626 | and from no other |
| Directory.TrailingSlashReached | libftpvita/ftpvita.c:582-626 | such a path is reached from the root, for any device and directory that fit |
| Directory.UpByText | libftpvita/ftpvita.c:562-580 | a step up from front/name for every front and name: the root when name is empty, front and a slash when front is a device, else front |
| Directory.CwdByText | libftpvita/ftpvita.c:599-612 | the new path for every other name: a full path as it is, any other after the path and one slash, cut to the buffer; a single slash gets a second |
| Directory.DirUp | libftpvita/ftpvita.c:562-580 | the writes into the buffer make that step |
| Directory.CmdCwd | libftpvita/ftpvita.c:582-626 | invalid iff the name is none of empty, "/" and ".." and its directory does not open; syntax error iff it is empty; the path is then as it was. "/" leads to the root, ".." where CDUP leads, any other name to the specified path |
| Directory.CmdCdup | libftpvita/ftpvita.c:649-653 | the command makes the step up |

## Left out

- Real sockets, timeouts, scheduling and SDK calls: scripts of results take their place, with byte counts inside the documented contract or errors.
- Liveness: startup and shutdown waits, threads that never end, and the polling loop of `src/net.c`.
- Interlock: starts from an initialised server; the failure paths of `ftpvita_init` and a second initialisation in the same run are not part of it.
- Weak memory: the `__sync` operations and the plain reads are taken as sequentially consistent.
- Session.Client.BeginTransfer: the admission of a transfer is its input; the flag protocol that decides it is in Interlock.
- Inflate.Decoder: the deflate format itself; zlib is any automaton that is fed bytes, and the other error codes of `inflate` count as failing calls.
- StageDisk.Disk: `sceIoClose`, and the removal of an old stage, whose result the code ignores; a removed file is taken to be gone.
- Transfer: byte counters are unbounded where the code has 64 bits; extents and streams are required to stay below 2^64.
- HeadBin.MakeHeadBin: the loop of `read_file` and the making of the parent directory are one call each with a given result.
- Null pointer arguments of the parsers, and arg_list pointers beyond start offsets.
- FtpParse.ParsePortTuple: the conversion of the address text by the network stack.
- LIST formatting, reply texts, RNFR/RNTO, SIZE, MKD, DELE and custom commands: plumbing around file calls.
- `promote_stage`, module loading, application launch, screenshots, logging, `src/main.c` and `src/net.c`.
