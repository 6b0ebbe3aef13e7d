# Daytripper in Dafny

Daytripper records HTTP exchanges of a Go program and hands them to a receiver that writes HTTP archives (HAR).
This project models the parts of it that keep state, and proves what a user of a recording relies on: that the
archive says what was recorded, that nothing is lost or doubled, that the recorder does not disturb the program it
watches, and that the recorded sizes, texts and times mean what they say. Where the code departs from its own
documentation the model follows the code; the exact condition under which the documented property holds is proved
instead, or the departure is proved as a property of its own.

## The modules

| file | what it models |
|---|---|
| `common.dfy`, `decimals.dfy` | bytes, options, Go's integers; decimal numbers |
| `utf8.dfy`, `base64.dfy` | RFC 3629 and section 4 of RFC 4648, with their round trips |
| `json.dfy`, `json_proofs.dfy` | JSON values, the printer that json.Marshal is, a parser for RFC 8259; the parser inverts the printer, and text that is read completely is read the same when more follows |
| `archive.dfy` | archives, the two documents the receivers write, and what a reader finds in them |
| `bufio.dfy`, `streaming.dfy` | the 64 KiB buffer with its sticky error over a writer that fails at will; the streaming receiver |
| `harfile.dfy` | HARFileReceiver over files whose operations may fail |
| `sessions.dfy`, `holes.dfy` | whole sessions of both receivers; what a streaming session leaves when a page cannot be marshalled |
| `checkpoint.dfy`, `filenames.dfy` | the checkpoint receiver on any disk, what that comes to when the disk does not fail, and the default file names |
| `checkpoint_disk.dfy`, `checkpoint_runs.dfy`, `checkpoint_sizes.dfy`, `checkpoint_age.dfy` | its whole runs: on any disk; without disk failures but with any items and any generator; file sizes and packing; the age of files and exactly when there is a new one |
| `checkpoint_race.dfy`, `checkpoint_overlap.dfy`, `checkpoint_undisturbed.dfy`, `checkpoint_stale.dfy` | every interleaving of its critical sections: what reaches the files, when nothing is lost, how many files there are |
| `checkpoint_witnesses.dfy` | runs from the very start that lose an entry or make a file too many |
| `histories.dfy`, `harfile_race.dfy` | what happens to writers and what of it is in their files; every interleaving of HARFileReceiver's critical sections |
| `copier.dfy`, `exactly_once.dfy` | the stream copier; all interleavings of closeNotify on all bodies |
| `timer.dfy` | the timing tracker over arbitrary hook sequences |
| `decode.dfy`, `recorder.dfy` | decoding a list of content codings; limit, cut, sizes and text of a recorded body |
| `middleware.dfy` | RedactHeader and the fold in New |
| `daytripper.dfy` | RoundTrip and the page map |

Code that updates fields is a class here, with the source's fields and methods. A method's contract says which step
of a specification it takes; the theorems are about all runs of that specification: a run is a sequence of calls with
their results (`sessions.dfy`, `checkpoint_disk.dfy`), of turns (`checkpoint_runs.dfy`), of reads (`copier.dfy`), of steps of
many goroutines (`exactly_once.dfy`, `checkpoint_race.dfy`, `harfile_race.dfy`), of hooks (`timer.dfy`) or of page events (`daytripper.dfy`). Failures of the operating system are
plans: each operation consumes one outcome, and any plan is allowed.

## Where the code departs from what it intends

- `copier.go:86-88` returns with the mutex locked. `ExactlyOnce.AllReturnIff`: all calls on a body come back if and only
  if there were at most two; `Copier.TransparentUntilThirdEof`: a reader sees the wrapped reader's results if and only if
  it meets EOF at most twice and the callback's answer does not show.
- `copier.go:54-58` returns 0 bytes and the callback's error in place of the bytes that came with EOF (the same lemma).
- `copier.go:74-80` does not close the wrapped body when the callback fails (`Copier.StreamCopier.Close`).
- `streaming.go:136-147` writes on when a page cannot be marshalled. `Holes.ClosedWithHoles`: Close returns an error then, and
  what the writer holds is not JSON, unless that page was the only one.
- `streaming.go:72-110` does not ask whether the receiver is closed. `Sessions.AfterClose`: after a Close that returned nil
  the document stays, what comes later is put behind it, and what the writer holds is JSON if and only if it is still
  the document; after a Flush that returned nil, if and only if no entry has been accepted since.
- `copier.go:41` does not look at reads that begin at the limit. `Copier.TruncatedExactly`: the flag means "longer than the
  limit" if and only if no read ended exactly there.
- `checkpoint.go:122` does not charge the item that opens a file: `CheckpointSizes.FilesFitTheLimit`, `CheckpointSizes.OpenerIsFree`.
- `checkpoint.go:62-66` is not one critical section. `CheckpointOverlap.AllOnDiskIff`: with distinct names, in any
  interleaving everything accepted is on disk, in order, if and only if nothing was put into a writer after the last
  write of its file and those writes succeeded. `CheckpointWitnesses.EntryIsLost` is a loss from the start, and by
  `CheckpointOverlap.LateIsLost` it is for good. `CheckpointUndisturbed.UndisturbedLosesNothing`: as long as the generator gives
  distinct names and no call is judged after a Close, it is enough that no rotation or Close begins while a call is
  between its verdict and its writer.
- `harfile.go:106-117` gives up the lock between writing and clearing: `HarFileRace.AllInFileIff`, `HarFileRace.CarefulLosesNothing`;
  `HarFileRace.EntryWhileClosing` is a loss from the start.
- `checkpoint.go:98-109` decides and rotates in two critical sections, so two calls can rotate for one full file:
  `CheckpointStale.RotationsAreNeededBut`; `CheckpointWitnesses.FileTooMany` breaks the bound from the start.
- `checkpoint.go:124-127` leaves the closed writer installed when there is no file name, and `checkpoint.go:138-140` does not
  marshal an item that opens a file or comes without a limit on bytes. `CheckpointRuns.ConservedIff`: with distinct names,
  exactly the accepted items are in the files if and only if each of them can be marshalled and none was accepted after a
  rotation that got no name; Close succeeds if and only if they can be marshalled and there was no such rotation.
  `CheckpointWitnesses.AcceptedTooLate` is such a run; `CheckpointRuns.DeadForever` and `SpoiledForever` say what happens then.
- `harfile.go:94-100` empties the file before marshalling: an item that cannot be marshalled costs what was flushed before
  (part of the specification of a flush, `HarFile.Rewritten`).
- `recorder.go:218` undoes codings in the order in which they were applied: `Decode.UndoesAppliedIff`, and
  `Decode.MixedListIsNotUndone` for the header `gzip, deflate`.
- `recorder.go:261` overflows for the largest limit: `Recorder.LargestLimitLosesTheBody`.
- `recorder.go:79-83` does not mark base64 in requests: `Recorder.PostTextCollides`.
- `daytripper.go:126-127` records a response without a body before the report has it. `DayTrips.RecordIsRightIff`: a record is
  what it should be if and only if there was no response or it has a body.
- `har/models.go:73-74` calls the time the sum of the available timings. `Timer.Telescoping`: it is if and only if the time spent
  dialing, which is counted twice, equals the time before asking for a connection and after the response, which is not
  counted; on a reused connection, if and only if there is no such time (`Timer.ReusedConnection`).

## Model

| member | source | states |
|---|---|---|
| JsonProofs.RoundTrip | receiver/streaming/streaming.go:73 | the text json.Marshal makes of a value is read back as that value, whatever follows it |
| JsonProofs.ItemsRead | receiver/streaming/streaming.go:81-87 | items joined by a comma and any white space are read back in order |
| JsonProofs.ParseMore | receiver/streaming/streaming.go:17-19 | a value that was read completely is read the same when more text follows |
| JsonProofs.PrintIsSafe | receiver/streaming/streaming.go:73 | no printed value contains a control character, a line separator or a character that HTML would take for markup |
| Archives.ArchiveOfLog | receiver/streaming/streaming.go:21-23 | the order of entries and pages in a log does not change the archive a reader finds |
| Archives.StreamParses | receiver/streaming/streaming.go:45-156 | the pieces written one after the other are one JSON text with the intended members |
| Archives.HarFileParses | receiver/harfile.go:78-98 | the document of HARFileReceiver is a JSON text with the intended members |
| Archives.HarFileLength | receiver/harfile.go:78-98 | the file is as long as an empty archive, the texts of its items and the commas between them |
| Archives.CreatorText | receiver/harfile.go:84-90 | the creator is printed with the program's name and version, in that order |
| Archives.SameMeaning | receiver/streaming/streaming.go:21-23 | as bytes, both documents of an archive are UTF-8 and JSON, and both are read as that archive |
| Archives.UnfinishedBytes | receiver/streaming/streaming.go:17-19 | bytes that stop two or more characters before the end of the document are not JSON |
| Bufio.BufWriter.Write | receiver/streaming/streaming.go:30 | all bytes are accepted in order, or the error sticks and nothing past them has reached the writer; as long as they fit into the 64 KiB nothing is written |
| Bufio.BufWriter.Flush | receiver/streaming/streaming.go:105-110 | success means that everything written has reached the writer |
| Streaming.EmitMore | receiver/streaming/streaming.go:126-130 | several writes in a row amount to one text, of which some prefix arrives after a failure |
| Streaming.Receiver.constructor | receiver/streaming/streaming.go:37-42 | a new receiver has written nothing and has no pages |
| Streaming.Receiver.Start | receiver/streaming/streaming.go:45-69 | the prologue is written and flushed, or an error is returned and sticks |
| Streaming.Receiver.Entry | receiver/streaming/streaming.go:72-93 | an accepted entry extends the document by separator and text; a refused one changes neither count nor pages |
| Streaming.Receiver.Page | receiver/streaming/streaming.go:96-101 | the page is kept and nothing is written |
| Streaming.Receiver.Flush | receiver/streaming/streaming.go:105-110 | everything written so far reaches the writer or an error is returned |
| Streaming.Receiver.WritePage | receiver/streaming/streaming.go:136-147 | one page with its separator is written and any error, also one of marshalling, is kept |
| Streaming.Receiver.WritePages | receiver/streaming/streaming.go:136-147 | the pages array is written in order; the result is nil only without any error |
| Streaming.Receiver.Finish | receiver/streaming/streaming.go:124-155 | the end of the document is written and flushed; nil means all of it arrived and every page was marshalled |
| Streaming.Receiver.Close | receiver/streaming/streaming.go:115-156 | the first Close finishes the document, later ones return nil and change nothing |
| Sessions.StepInv | receiver/streaming/streaming.go:72-110 | every call keeps: the stream is the prologue and the accepted entries, or, once failed, a prefix of that with one more entry |
| Sessions.CloseTellsTheTruth | receiver/streaming/streaming.go:115-156 | if Close returns nil, whatever the writer did, it holds the whole document of exactly the accepted entries and the delivered pages, and no entry was refused by a write |
| Sessions.NotJsonBeforeClose | receiver/streaming/streaming.go:17-19 | before Close the writer holds a prefix of the prologue and the joined entries, and never JSON |
| Sessions.ReliableSession | receiver/streaming/streaming.go:72-156 | with a writer that does not fail every call and Close succeed, if the items can be marshalled |
| Sessions.HarCloseTellsTheTruth | receiver/harfile.go:106-118 | if Close returns nil the file is the document of exactly the entries and pages handed over |
| Sessions.ReliableHarRun | receiver/harfile.go:57-118 | without I/O failures every Flush and the Close succeed, if the items can be marshalled |
| Sessions.AfterClose | receiver/streaming/streaming.go:72-110 | after a nil Close the document stays in front; what the writer holds can be read if and only if it is the document still; after a nil Flush, if and only if no entry has been accepted since |
| Sessions.LaterCloses | receiver/streaming/streaming.go:119-121 | whatever came of the first Close, a later one returns nil and changes nothing |
| Holes.ClosedWithHoles | receiver/streaming/streaming.go:136-147 | on a writer that has not failed Close returns nil if and only if every page can be marshalled; otherwise what it leaves is not JSON, unless the page was the only one, and then it is the archive of the same entries without a page |
| Sessions.SameArchive | receiver/streaming/streaming.go:45-156 | for the same calls both receivers give a reader the same version, creator, entries and pages in the same orders |
| Sessions.ReceiversAgree | receiver/streaming/streaming.go:45-156 | without failures, and for items that can be marshalled, every call and both Closes succeed and the archives are the same |
| HarFile.HarFileReceiver.constructor | receiver/harfile.go:33-39 | a new receiver has no file and empty lists |
| HarFile.HarFileReceiver.Start | receiver/harfile.go:42-54 | the named file exists and is empty, whatever it held before, or an error is returned |
| HarFile.HarFileReceiver.Entry | receiver/harfile.go:57-63 | the entry is appended and nil is returned, open file or not |
| HarFile.HarFileReceiver.Page | receiver/harfile.go:66-71 | the page is appended |
| HarFile.HarFileReceiver.Flush | receiver/harfile.go:74-103 | nil means that the file is the whole archive as it stands; only this file changes; a marshalling error leaves it empty |
| HarFile.HarFileReceiver.Close | receiver/harfile.go:106-118 | a flush, and then the lists are dropped and the file is closed |
| HarFileRace.InterleavingInv | receiver/harfile.go:57-118 | in every interleaving the file is the document of what had been handed over when it was last written, and a receiver that is not closed has kept everything |
| HarFileRace.UninterruptedClose | receiver/harfile.go:106-118 | the two critical sections of Close in a row are the Close of a single caller: the file, the emptied lists and the result |
| HarFileRace.AllInFileIff | receiver/harfile.go:106-117 | the file is read as exactly what was handed over, in order, if and only if nothing came after its last write and that succeeded |
| HarFileRace.CarefulLosesNothing | receiver/harfile.go:106-117 | if nothing is handed over once a Close has written, a closed file has everything |
| HarFileRace.LostForGood | receiver/harfile.go:106-118 | what a closed receiver has not written is not written in any continuation |
| HarFileRace.EntryWhileClosing | receiver/harfile.go:107-117 | an interleaving from the start in which an entry is accepted between the two critical sections of Close and lost |
| FileNames.NameEnds | receiver/checkpoint/checkpoint.go:170-172 | after filepath.Join every name still ends with a dash, the counter and the extension, whatever base path, prefix and clock text contain |
| FileNames.CounterIsKnown | receiver/checkpoint/checkpoint.go:170-172 | the counter can be told from the name alone |
| FileNames.NamesAreDistinct | receiver/checkpoint/checkpoint.go:167-174 | the names of one generator are pairwise distinct, whatever the clock shows, below 2^63 calls |
| FileNames.TimestampFileGenerator.Next | receiver/checkpoint/checkpoint.go:169-173 | the counter goes up by one and the name is built from it |
| FileNames.NameUnderBase | receiver/checkpoint/checkpoint.go:172 | under a base path of plain elements a name is the base, a slash, prefix, clock text, dash, counter and extension |
| FileNames.NameInDirectory | receiver/checkpoint/checkpoint.go:163-165 | with the default base, or none, it is the same without base and slash |
| FileNames.DotsCancel | receiver/checkpoint/checkpoint.go:172 | dots in the base path cancel out as filepath.Join promises |
| Checkpoint.Receiver.ShouldRotate | receiver/checkpoint/checkpoint.go:134-161 | verdict and charged bytes for each reason to rotate or not; what the verdicts mean over runs is in `CheckpointAge.ItemsAreYoung` and `NextFileIff` |
| Checkpoint.Receiver.DoRotate | receiver/checkpoint/checkpoint.go:111-132 | on any disk: either closing failed and the writer stays, or it is saved and closed and a new one is installed, without a file if that cannot be created, or none if there is no name |
| Checkpoint.Receiver.RotateIfNeeded | receiver/checkpoint/checkpoint.go:98-109 | the verdict is carried out |
| Checkpoint.Receiver.Start | receiver/checkpoint/checkpoint.go:48-59 | the version is kept; a current writer keeps its items and gets its file anew, or an error is returned |
| Checkpoint.Receiver.Entry | receiver/checkpoint/checkpoint.go:61-67 | on any disk: after a rotation if one is due the entry is the last one of the current writer |
| Checkpoint.Receiver.Page | receiver/checkpoint/checkpoint.go:69-77 | the same for a page, which is dropped if the rotation fails |
| Checkpoint.Receiver.Flush | receiver/checkpoint/checkpoint.go:79-85 | on any disk: after a rotation if one is due the current file is written out or an error is returned |
| Checkpoint.Receiver.Close | receiver/checkpoint/checkpoint.go:87-96 | on any disk: the current file, if there is one, is written and closed or an error is returned |
| Checkpoint.PerformsSteadily | receiver/checkpoint/checkpoint.go:61-132 | while no disk operation fails the calls are the function Perform, whose runs the following rows are about |
| CheckpointDisk.RunSafe | receiver/checkpoint/checkpoint.go:61-132 | on any disk, as long as the current file is open, closed files hold their documents, and closed and current items together are the accepted ones |
| CheckpointDisk.CloseTellsTheTruth | receiver/checkpoint/checkpoint.go:87-96 | on any disk, whatever the generator did, with distinct names: if Close returns nil, the files made are read as exactly the accepted entries and pages, each once and in order |
| CheckpointDisk.RunsSteadily | receiver/checkpoint/checkpoint.go:61-132 | on a disk that does not fail a run of the receiver is the run of the functions: its state, its names and what it accepts |
| CheckpointDisk.ConservedOnDisk | receiver/checkpoint/checkpoint.go:61-140 | so the exact condition below is one of the receiver's own runs |
| CheckpointRuns.TurnKeeps | receiver/checkpoint/checkpoint.go:61-132 | every call, whatever its item and the generator's answer, keeps: closed files hold their documents, and closed and current items together are the items accepted |
| CheckpointRuns.DeadIff | receiver/checkpoint/checkpoint.go:115-127 | a run ends with a closed writer if and only if some rotation left a file and got no name |
| CheckpointRuns.ConservedIff | receiver/checkpoint/checkpoint.go:61-140 | for any items and any answers of the generator with distinct names: the files are read as exactly the accepted items, in order, if and only if each can be marshalled and none was accepted after a rotation without a name; when Close succeeds |
| CheckpointRuns.Conservation | receiver/checkpoint/checkpoint.go:61-132 | without failures the files, in the order they were made, are read as exactly the entries and exactly the pages of the run, in order |
| CheckpointRuns.GeneratedNamesDiffer | receiver/checkpoint/checkpoint.go:163-174 | with the package's generator the names of a run are distinct |
| CheckpointSizes.FilesFitTheLimit | receiver/checkpoint/checkpoint.go:121-152 | currentBytes is the size of the current file's items without its opener and at most maxBytes; every file is at most maxBytes and its opener |
| CheckpointSizes.RotationsAreNeeded | receiver/checkpoint/checkpoint.go:111-161 | k files need items of (k-1)*(maxBytes+1) bytes in all, the first opener not counted |
| CheckpointSizes.OpenerIsFree | receiver/checkpoint/checkpoint.go:121-122 | an item of any size shares its file with a further one of up to maxBytes |
| CheckpointSizes.FilesOnDiskFit | receiver/checkpoint/checkpoint.go:134-152 | in bytes on disk: a closed file, apart from the empty archive and commas around its items, is no longer than maxBytes and its opener |
| CheckpointAge.ItemsAreYoung | receiver/checkpoint/checkpoint.go:154-158 | with a limit on the duration (below the largest there is) and a clock that does not go back within a call, for any items and any generator: no item is ever accepted into an open file that was made longer ago than the limit |
| CheckpointAge.NextFileIff | receiver/checkpoint/checkpoint.go:134-161 | after the first call of a run without failures, a call makes a new file if and only if the items of the current one, without its opener, would become longer than maxBytes, or it was made longer ago than maxDuration; told from the history of the run alone |
| CheckpointRuns.DeadForever | receiver/checkpoint/checkpoint.go:115-127 | once the current file is closed no file ever changes and Close fails |
| CheckpointRuns.SpoiledForever | receiver/checkpoint/checkpoint.go:115-119 | once an item that cannot be marshalled has been accepted, rotations, flushes and Close fail, other files never change, and its file ends up empty |
| CheckpointRuns.OnlyTheFirstUnchecked | receiver/checkpoint/checkpoint.go:138-146 | with a limit on bytes only the item that opens the first file can be accepted like that |
| CheckpointRace.UninterruptedCall | receiver/checkpoint/checkpoint.go:61-132 | the critical sections of one call in a row are the call as a whole |
| CheckpointRace.UninterruptedClose | receiver/checkpoint/checkpoint.go:87-96 | the same for Close |
| CheckpointOverlap.InterleavingInv | receiver/checkpoint/checkpoint.go:61-161 | in every interleaving an open writer is the current one and has kept all that was put into it, the mutex is held by who is rotating or closing, and each file is what was last written to it |
| CheckpointOverlap.FilesHoldLastWrites | receiver/harfile.go:74-118 | in every interleaving with distinct names each file is read as exactly the items put into its writer before the file was last written |
| CheckpointOverlap.AllOnDiskIff | receiver/checkpoint/checkpoint.go:61-77 | the files are read as exactly the accepted items, each once and in order, if and only if none was put into a writer after the last write of its file and those writes succeeded |
| CheckpointOverlap.NamesDiffer | receiver/checkpoint/checkpoint.go:163-174 | with the package's generator the names differ in every interleaving |
| CheckpointOverlap.LateIsLost | receiver/checkpoint/checkpoint.go:61-67 | an item put into a closed writer is accepted and never reaches a file, whatever happens then |
| CheckpointOverlap.LateHappens | receiver/checkpoint/checkpoint.go:61-67 | wherever a call has looked up the current writer and another one was told to rotate, the second can go first and the first one's item is lost |
| CheckpointWitnesses.EntryIsLost | receiver/checkpoint/checkpoint.go:61-67 | from the start, for every limit on bytes: an interleaving of two entries in which the first is accepted and lost |
| CheckpointWitnesses.AcceptedTooLate | receiver/checkpoint/checkpoint.go:124-127 | from the start, without overlap: an entry is accepted after a rotation that got no name |
| CheckpointUndisturbed.UndisturbedLosesNothing | receiver/checkpoint/checkpoint.go:61-96 | if the generator gives distinct names, no call is judged after a Close has returned, and no rotation and no Close begins while a call is between verdict and writer, then all accepted items are in the files once the last one is closed; calls one at a time are a case of this (`OneAtATime`) |
| CheckpointStale.RotationsAreNeededBut | receiver/checkpoint/checkpoint.go:98-109 | the packing bound for overlapping calls: files made by rotations that another one had come in front of do not count |
| CheckpointStale.SecondRotationIsStale | receiver/checkpoint/checkpoint.go:98-109 | wherever two calls are judged before the first of them rotates, they make two files for one that was full |
| CheckpointWitnesses.FileTooMany | receiver/checkpoint/checkpoint.go:98-109 | from the start: three files for one that was full, against the bound for calls one at a time |
| Copier.CaptureOfReads | copier.go:36-52 | however a body is cut into reads, count is its length and the buffer its first maxSize bytes; the flag says that one read crossed the limit |
| Copier.TruncatedExactly | copier.go:41-51 | the flag holds if and only if the body is longer than the limit and no read ended there |
| Copier.FlagDependsOnTheCuts | copier.go:41-51 | one body read in two ways gives the same buffer and different flags |
| Copier.BufferIsBeginning | copier.go:36-52 | the buffer is the beginning of the wrapped body for any script and any sizes of the caller's slices |
| Copier.TransparentUntilThirdEof | copier.go:36-61 | the caller sees the wrapped reader's results if and only if EOF is met at most as often as the gate lets calls return, and the callback has run before, returns nil, or returns EOF where no data is lost |
| Copier.CallbackErrorShows | copier.go:54-60 | when the callback fails, all results before EOF are as they were, and in its place stands the error with 0 bytes |
| Copier.StreamCopier.constructor | copier.go:32-34 | nothing captured, not closed, mutex free |
| Copier.StreamCopier.Read | copier.go:36-61 | bytes, count and error of the wrapped reader reach the caller; the capture takes one step; EOF notifies once |
| Copier.StreamCopier.Snapshot | copier.go:64-72 | the three captured fields as they are |
| Copier.StreamCopier.Close | copier.go:74-80 | the callback's error or the wrapped reader's; the callback runs at most once; the wrapped body is closed unless the call hangs or the callback fails |
| Copier.StreamCopier.CloseNotify | copier.go:84-98 | the first call runs the callback, the second keeps the mutex, later ones hang; the channel is closed once |
| ExactlyOnce.InterleavingInv | copier.go:84-98 | in every interleaving one call per body wins, the mutex is held by whoever is inside or came back with it, and a trip is recorded exactly when its winner ran the callback |
| ExactlyOnce.UninterruptedCall | copier.go:84-98 | the steps of one call in a row are the step of the sequential copier |
| ExactlyOnce.ExactlyOnce | daytripper.go:113-137 | in every interleaving sendEntry has been called once for each finished trip and for no other |
| ExactlyOnce.RecordedWhenQuiet | daytripper.go:113-137 | once the calls on a body are at rest its trip has been recorded once, or never if there was no call |
| ExactlyOnce.AtMostTwoReturn | copier.go:85-88 | no more than two calls on one body ever return |
| ExactlyOnce.WaitsForever | copier.go:85-88 | after a repeated call no step of anybody frees the mutex or moves who waits for it |
| ExactlyOnce.AllReturnIff | copier.go:85-91 | at rest all calls have returned if and only if there were at most two, or the missing unlock is there |
| Timer.TimingsTracker.constructor | timer.go:27-37 | the start is now, no start times, three timings not applicable |
| Timer.TimingsTracker.GetConn | timer.go:54-58 | sets the start of the blocked phase only |
| Timer.TimingsTracker.GotConn | timer.go:60-67 | ends the blocked phase and starts the send phase |
| Timer.TimingsTracker.GotFirstResponseByte | timer.go:69-81 | ends the wait, counted from the request's end or else from the send start, and starts the receive phase |
| Timer.TimingsTracker.DNSStart | timer.go:83-88 | starts the DNS phase only |
| Timer.TimingsTracker.DNSDone | timer.go:90-95 | ends the DNS phase |
| Timer.TimingsTracker.ConnectStart | timer.go:97-110 | starts the connect phase and splits the address at its last colon |
| Timer.TimingsTracker.ConnectDone | timer.go:112-119 | ends the connect phase and starts the send phase |
| Timer.TimingsTracker.TLSHandshakeStart | timer.go:121-126 | starts the TLS phase only |
| Timer.TimingsTracker.TLSHandshakeDone | timer.go:128-134 | ends the TLS phase and starts the send phase |
| Timer.TimingsTracker.WroteRequest | timer.go:136-142 | ends the send phase and starts the wait |
| Timer.TimingsTracker.ResponseRead | timer.go:144-153 | ends the receive phase, or says that there was none |
| Timer.StartsAlways | timer.go:54-142 | over any hook sequence each of the seven start times is set exactly by its hooks and lies between the beginning and now |
| Timer.NoBogusTiming | timer.go:54-153 | every timing is at every moment not applicable or between 0 and the elapsed time, if and only if no hook fires before one it counts from |
| Timer.TimingsAreHistory | timer.go:54-153 | over any hook sequence each of the seven timings is the time between the hook that ends it and the last of those it counts from, or its initial value |
| Timer.Telescoping | timer.go:54-153 | in an ordinary trip blocked, send, wait and receive add up to the time from asking for a connection to the end of the response; DNS, connect and TLS are parts of blocked; the recorded time is the sum of the available timings if and only if the dialing spans add up to the time outside the four phases |
| Timer.ReusedConnection | timer.go:64-66 | without dialing it is that sum if and only if no time passes outside the four phases |
| Decode.DecodeBody | recorder.go:215-253 | the loop is the stack of readers for the listed codings up to the first unknown one, read through the limit; deflate is read as zlib exactly if it begins with a zlib header |
| Decode.UndoesBackwards | recorder.go:216-250 | a list of known codings undoes what was applied from its last to its first, and an unknown coding ends it |
| Decode.RawDeflateIsUndone | recorder.go:240-246 | a raw DEFLATE body that does not begin like zlib is undone by the inflater |
| Decode.StopsAtUnknown | recorder.go:247-249 | after an unknown coding nothing more is undone and there is no error |
| Decode.RefusedSpoilsAll | recorder.go:223-239 | a coding whose package refuses the body makes decoding fail, whatever was undone before and whatever follows |
| Decode.SplitJoined | recorder.go:218 | the items are what stands between the commas of the header |
| Decode.CodingOfIff | recorder.go:219-223 | an item means gzip, deflate or identity if and only if it spells that word in any case with white space around it; white space alone means identity |
| Decode.UndoesAppliedIff | recorder.go:210-218 | what was applied in list order is undone, for all decoders that undo their encoders, if and only if the list reads the same in both directions |
| Decode.MixedListIsNotUndone | recorder.go:216-250 | the header gzip, deflate stands for a list that is not |
| Recorder.LimitThenCut | recorder.go:154-164 | decoding with the limit and cutting is cutting the whole decoded body, marked exactly when that is longer or the capture was; an error before that keeps the captured bytes |
| Recorder.DecodedWhole | recorder.go:251-260 | without a limit the decoded body is recorded whole, or, after an error anywhere, the captured bytes are |
| Recorder.RefusedIsKept | recorder.go:154-157 | a body that was not encoded as its header says is recorded as it came |
| Recorder.LargestLimitLosesTheBody | recorder.go:257-262 | at the largest limit the decoded body is recorded as empty |
| Recorder.SizesAgree | recorder.go:151-181 | for any decoder the body stays within the limit and BodySize + Compression is the larger of BodySize and Size |
| Recorder.PlainBodyIsRecorded | recorder.go:151-182 | from the reads to the record: the first maxSize bytes can be had back, as text exactly if they are UTF-8; there is a comment if and only if the body is longer than a positive limit and no read ended there, and the limit can be read in it |
| Recorder.CodedBodyIsRecorded | recorder.go:151-182 | a body that was captured whole and whose codings, raw DEFLATE among them, can be undone is recorded as it was before it was encoded, up to the limit; there is a comment if and only if it was longer than a positive limit, and the limit can be read in it |
| Recorder.HeaderSize | recorder.go:106-120 | the size of all lines with their ends, and of the line that ends them, as a uint64 |
| Recorder.HeaderSizeIsLength | recorder.go:106-120 | that size is the length of the header section as it stands in HTTP/1.1 |
| Recorder.ConvertedHolds | recorder.go:264-276 | the recorded headers are one of the lists that convertHeaders may make of the map: each name with exactly its values, in order |
| Recorder.HeadTells | recorder.go:122-149 | the record of a response, whatever it says, differs from that of a missing one in its headers or their size |
| Recorder.ResponseIsKept | recorder.go:122-188 | whatever the body: status, protocol, cookies and headers are those of the response, the content coding, the MIME type and the redirect target are the first values of their headers, the sizes are those sent, and an error is kept |
| Recorder.NothingIsKept | recorder.go:122-131 | without a response the record says nothing but the error |
| Recorder.CommentTells | recorder.go:180-182 | there is a comment if and only if the body was truncated, and the limit can be read in it |
| Recorder.RecordBody | recorder.go:151-183 | sizes, text, encoding and comment of a captured body, by the function that `ResponseIsKept`, `SizesAgree` and `PlainBodyIsRecorded` are about |
| Utf8.DecodeThenEncode | recorder.go:173-174 | the text of valid UTF-8 stands for exactly those bytes |
| Base64.RoundTrip | recorder.go:176 | base64 can be decoded to the bytes it was made of |
| Recorder.TextIsLossless | recorder.go:173-178 | every body can be had back from its text and encoding |
| Recorder.PostTextCollides | recorder.go:79-83 | two request bodies are recorded alike exactly when equal or one is the base64 of the other, which is not text |
| Recorder.PostTextFaithful | recorder.go:79-83 | the text of a request body is that body if and only if it is UTF-8 |
| Recorder.PostTextNotInjective | recorder.go:79-83 | two different bodies with the same text |
| Recorder.DecodeRecorded | recorder.go:154-164 | the body decoded if its coding is given and that succeeds, and cut to the limit |
| Recorder.HarResponse.SetText | recorder.go:173-178 | the body itself or its base64, with the mark |
| Recorder.RecordResponse | recorder.go:122-188 | all fields of a fresh response, by the same function |
| Middleware.Compose | daytripper.go:70-74 | each middleware is put around those listed before it |
| Middleware.FirstListedWins | daytripper.go:70-74 | the value a header ends with is that of the first listed middleware for it, or its own |
| Middleware.SameHeaderIff | middleware/redact_header.go:14-28 | two names match if and only if they are equal letter by letter up to the case of ASCII letters, where a name with a character that no token has matches itself alone |
| Middleware.RedactAll | middleware/redact_header.go:18-22 | exactly the headers whose name is the same up to case (`SameHeaderIff`) get the value, in place, names untouched, also when one object is listed twice |
| Middleware.RedactEntry | middleware/redact_header.go:14-31 | the same for the request and the response of an entry, if there are any |
| Middleware.Send | middleware/redact_header.go:12-37 | the receiver gets the headers with names, number and order kept and each value run through the chain |
| Middleware.ConvertHeaders | recorder.go:264-276 | new objects that hold exactly each header's values in order |
| Middleware.RecordHeaders | recorder.go:30-41 | the receiver gets redacted copies and the headers in flight are not touched |
| Middleware.RedactedValues | middleware/redact_header.go:12-37 | under each name the receiver finds as many values as were live, each redacted or as it was |
| DayTrips.DayTripper.constructor | daytripper.go:44-57 | no open pages, nothing sent |
| DayTrips.DayTripper.HandleStartPage | daytripper.go:168-181 | a marked page is open under its id, replacing what was |
| DayTrips.DayTripper.HandleEndPage | daytripper.go:183-205 | a page that is open is sent with its load time and is no longer open; over runs: `PagesAreHistory` |
| DayTrips.DayTripper.RecordTrip | recorder.go:34-41 | one more call of sendEntry, with what recordResponse makes of the report |
| DayTrips.DayTripper.RoundTrip | daytripper.go:85-142 | a trip is passed on unrecorded if and only if neither the DayTripper includes all nor its context is marked; a trip without a body is recorded at once as one without a response; one with a body is handed on with a fresh copier, whose callback answers what sendEntry will, and not recorded yet; a recording error skips the end of the page |
| DayTrips.Exchange.constructor | daytripper.go:113-126 | a fresh copier around the body, with doneFunc as its callback, which returns what sendEntry does |
| DayTrips.Exchange.RecordIfDone | daytripper.go:113-119 | the trip is recorded from what the copier has captured, if doneFunc has just been called |
| DayTrips.Exchange.Read | copier.go:36-61 | the caller's bytes, count and error, the gate, the capture and the calls of sendEntry after one read |
| DayTrips.Exchange.Close | copier.go:74-80 | the caller's result, the gate, the calls of sendEntry and of the wrapped body's Close after a close |
| DayTrips.RecordedAtFirstNotice | daytripper.go:113-132 | however often a body is read and closed, its trip is recorded once, at the first EOF or close, from exactly the bytes read until then |
| DayTrips.BodyReachesTheRecord | recorder.go:122-188 | a body without content coding can be had back, up to the limit, from its one record, which has a comment if and only if the body was longer and no read ended at the limit |
| DayTrips.CodedBodyReachesTheRecord | recorder.go:122-188 | the same for a body with codings that can be undone: what comes back is the body before it was encoded, with a comment if and only if that was longer than the limit |
| DayTrips.RecordIsRightIff | daytripper.go:121-137 | the record of a trip is what it should be if and only if there was no response or it has a body |
| DayTrips.PagesAreHistory | daytripper.go:168-205 | the map has exactly the pages started and not sent since, as last started; pages are sent in the order of the ends that found them, each as it was started with the time since then as its load time |
| DayTrips.PageConservation | daytripper.go:168-205 | starts are pages sent, pages open and pages replaced |

## Left out

- CheckpointSizes.FilesFitTheLimit: is about calls one at a time; when calls overlap, items charged to one file may be put into a later one.
- CheckpointStale.RotationsAreNeededBut: one direction, as a bound is; `SecondRotationIsStale` shows that the correction is needed.
- CheckpointOverlap.AllOnDiskIff: its disk does not fail; a failing disk is covered for calls one at a time by `CheckpointDisk.CloseTellsTheTruth`.
- DayTrips.DayTripper.RecordTrip: leaves out the entry's time and its request part; of recordRequest only the text of the body is modelled.
- DayTrips.DayTripper.RoundTrip: is one call from beginning to end, without the copier of the request body; overlapping trips are covered by the page events and by the interleavings of `exactly_once.dfy`.
- DayTrips.Exchange.Read: the callback is an object that counts its calls and knows what sendEntry is going to answer; the recording is done when the count has gone up.
- Timer.Telescoping: speaks of dialing hooks between getConn and gotConn only, each done hook after its start hook; a losing dial that ends later is covered by NoBogusTiming.
- Calls that hold one mutex from beginning to end (streaming receiver, page handlers, timer hooks) are single steps.
- The struct-by-struct mapping of json.Marshal: an entry or page is the JSON value that marshalling gives, or cannot be marshalled. Strings are characters, so the replacement of invalid UTF-8 by U+FFFD has happened before.
- Entries and pages are values. In Go they are pointers, so a caller who changes an entry after handing it over changes what HARFileReceiver writes later.
- gzip, zlib and deflate are arbitrary functions on byte streams with an ending; the laws about them are stated where they are used.
- http.Transport, TLS, httptrace and the clocks are inputs: an answer, a hook sequence, times that do not go back within 292 years.
- Files are a map from name to content with offsets and planned failures; permissions, links and removed files are not modelled.
- The underlying writer keeps the contract of io.Writer (an error whenever it takes fewer bytes than it was given).
- The JSON of durations and times, the parsing of cookies, query strings and form parameters, the request side of recordRequest apart from its text, page middlewares, options, MemoryReceiver and the examples would add simple members.
- Nil pointers that make the Go code panic (a receiver used without Start, a nil page) are not modelled.
