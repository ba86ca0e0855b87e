# Image grouper engine, modelled in Dafny

ImageGrouper is a small desktop tool. It sorts the images of a "pool"
folder into a horizontal folder and a vertical folder by their
orientation, and it can undo the last sort. This project models the engine
behind its window and proves properties of it:

- the retrying single-file move (`_safe_file_operation`);
- the group batch (`group_images`), with its extension filter and its
  orientation rule;
- the undo batch (`undo_last_operation`) and the `moved_files` ledger it
  shares with the group batch;
- the `processing` flag, which the start buttons check and the
  message-queue drain (`_check_messages`) clears on `done`;
- the messages a batch queues: progress, then one warning, info or error,
  then `done`.

The model has two layers:

- **Specification functions** over a `World` value. A `World` holds the
  file store (a map from path to bytes), a fault script and a count of the
  retry delays taken. The fault script has one decision per fallible
  `os.remove`/`shutil.copy2` call; `true` means that call raises.
  - `SafeMover.SafeOperation` is the move, `Batch.Group` one group batch,
    `Batch.Undo` one undo batch.
  - The lemmas beside them state what those operations guarantee.
  - `RoundTrip` states the files a whole group batch leaves and, under any
    faults, the files an undo batch leaves. It also proves the
    round trip: when the names lead to distinct sources and targets and no
    target exists yet, a group batch followed by an undo batch, without
    faults, gives back the pool's files and an empty ledger
    (`RoundTrip.GroupThenUndo`). The hypotheses matter: the move deletes
    whatever is at its target first, so a file already at a target is lost.
- **Imperative classes.**
  - `Os.FileSystem` is the file store as a mutable object.
  - `Grouper.ImageGrouper` has the fields of the Python object that the
    engine uses: the three folder paths, `moved_files`, `processing` and
    the queue.
  - Its methods have the loops of the Python code: the attempt loop, the
    file loop and the record loop. Each one is proved to leave exactly the
    state the specification function computes.

The Python code's behaviour is followed exactly where it is easy to read
differently:

- The ledger is cleared after the folder check and before the listing. An
  empty pool therefore empties the ledger, and an invalid folder choice
  leaves it alone.
- A file whose read raises skips its progress message. If the last file
  raises, no 100% message is posted (`Batch.FullProgress`).
- Undo removes records by value, so a record listed twice leaves when
  either copy is reversed (`Ledger.DuplicatesLeaveTogether`).
- The move first deletes whatever is at the target. When the target is
  the source itself, that deletes the file, and the move then fails
  (`SafeMover.SelfMoveLosesFile`). The model recognises this only when the
  two path strings are equal (see "Path aliasing" under "Left out").
- The rollback delete of a move is not guarded. When it raises, both
  copies stay (`SafeMover.MoveAttemptEffect`).
- An unreadable pool makes `os.listdir` raise after the ledger was
  cleared. The worker then dies without posting anything, so `processing`
  stays set (`Batch.Group`, `Listing.Unlistable`).

## Model

| member | source | states |
|---|---|---|
| Classifier.Classify | SourceCode/image_grouper.py:358 | a file goes to the horizontal folder exactly when it is strictly wider than tall; a square goes to the vertical folder |
| Classifier.ImageFiles | SourceCode/image_grouper.py:339-340 | the filter never yields more names than the listing has |
| Classifier.ImageFilesMembers | SourceCode/image_grouper.py:339-340 | a name is picked up exactly when it is in the listing and has one of the five image suffixes, in any case |
| Classifier.ImageFilesAppend | SourceCode/image_grouper.py:339-340 | the filter keeps listing order: filtering a concatenation is concatenating the filtered parts |
| Classifier.CaseInsensitive | SourceCode/image_grouper.py:340 | a name and its lower-case form are accepted or rejected together |
| Classifier.MixedCaseAccepted | SourceCode/image_grouper.py:340 | "Photo.JPG" and "scan.Jpeg" are picked up |
| Classifier.OtherNamesRejected | SourceCode/image_grouper.py:340 | "photo.png.txt" and a bare "png" are not picked up |
| Os.JoinPlacesName | SourceCode/image_grouper.py:353 | os.path.join puts a relative name after the folder and at the end of the path; an absolute name is the whole path |
| Os.BasenameIsLastSegment | SourceCode/image_grouper.py:404 | os.path.basename is the suffix after the last '/', and it contains no '/' |
| Os.JoinInjective | SourceCode/image_grouper.py:353-359 | joining a name without '/' to a folder path not ending in '/' determines both the folder and the name |
| Os.FileSystem.Exists | SourceCode/image_grouper.py:299 | os.path.exists is true exactly for stored paths |
| Os.FileSystem.Remove | SourceCode/image_grouper.py:301 | os.remove deletes an existing path unless the script makes it raise; a missing path raises |
| Os.FileSystem.Copy2 | SourceCode/image_grouper.py:306 | shutil.copy2 overwrites dst with src's bytes; it raises for a missing src, for src equal to dst, or when the script says so |
| Os.FileSystem.Sleep | SourceCode/image_grouper.py:319 | time.sleep counts one delay and changes nothing else |
| SafeMover.MoveAttemptEffect | SourceCode/image_grouper.py:297-313 | the file store after each way a move attempt can end: completed moves src's bytes to dst; a failed copy leaves the store, less a previous dst; after a failed src delete, dst is deleted again, or both copies stay if that delete raises; a self-move never gets past the copy |
| SafeMover.RemoveAttempt | SourceCode/image_grouper.py:314-316 | the remove mode completes exactly when src exists and the call does not raise, and then deletes only src |
| SafeMover.AttemptKeepsSleeps | SourceCode/image_grouper.py:296-316 | an attempt takes no delay |
| SafeMover.RetryCounts | SourceCode/image_grouper.py:295-323 | the loop makes at most the allowed attempts and at least one, all of them when it fails, with one delay between consecutive attempts |
| SafeMover.SafeOperationCounts | SourceCode/image_grouper.py:292-323 | between one and three attempts, three when it returns False, and at most two delays, never one after the last attempt |
| SafeMover.MoveAttemptFrom | SourceCode/image_grouper.py:297-313 | from a state that only a failed move produced, an attempt either completes the original move or leaves such a state |
| SafeMover.RetryMoveFrom | SourceCode/image_grouper.py:295-323 | the same for the rest of the retry loop |
| SafeMover.MoveGuarantee | SourceCode/image_grouper.py:291-323 | True means src is gone and dst holds src's original bytes; False means src and every other path are untouched and dst is absent, unchanged, or a copy whose rollback raised; no other path ever changes |
| SafeMover.SelfMove | SourceCode/image_grouper.py:299-306 | a move onto its own path always returns False, and it leaves the file or deletes it |
| SafeMover.SelfMoveLosesFile | SourceCode/image_grouper.py:299-306 | with no injected fault, a move onto its own path deletes the file and returns False |
| SafeMover.RemoveGuarantee | SourceCode/image_grouper.py:314-323 | the remove mode returns True only after deleting src alone, and changes no file when it returns False |
| SafeMover.CalmAttemptCompletes | SourceCode/image_grouper.py:297-313 | with no fault among its three calls, a move of an existing file to another path completes |
| SafeMover.CalmMoveSucceeds | SourceCode/image_grouper.py:291-323 | without injected faults such a move returns True on its first attempt, with no delay |
| SafeMover.MoveBack | SourceCode/image_grouper.py:401 | undoing a successful move, with no fault, restores every file except what dst held before the first move |
| SafeMover.SuccessIsFirstCompletion | SourceCode/image_grouper.py:295-316 | True is returned at the first attempt that completes, and every earlier attempt failed |
| SafeMover.FailureMeansNoCompletion | SourceCode/image_grouper.py:317-323 | False is returned only when every allowed attempt failed |
| SafeMover.FaultFreeAttempt | SourceCode/image_grouper.py:297-316 | an attempt only uses up fault decisions |
| SafeMover.FaultFreeRetry | SourceCode/image_grouper.py:295-323 | the same for the whole retry loop |
| Channel.DoneOnlyAtEnd | SourceCode/image_grouper.py:386 | in one operation's messages `done` comes exactly once, last |
| Batch.GroupFile | SourceCode/image_grouper.py:352-379 | a file whose read raises changes nothing and reports the exception text; a readable file is in the pool and gets the target its orientation picks |
| Batch.FileStepEffect | SourceCode/image_grouper.py:364-367 | a file reported as moved is in its target folder with its original bytes and gone from the pool; a file reported as not moved is still in the pool, untouched, unless its target was its own path, and at most a copy of it is left at the target; no path other than the file's source and target changes |
| Batch.GroupRun | SourceCode/image_grouper.py:351-379 | the loop gives one outcome per image name |
| Batch.GroupProgress | SourceCode/image_grouper.py:370-376 | at most one progress message per file |
| Batch.GroupProgressShape | SourceCode/image_grouper.py:370-376 | progress messages carry the batch's total and strictly increasing counts between 1 and the number of files |
| Batch.Group | SourceCode/image_grouper.py:325-346 | an empty folder path queues exactly an error and `done` and leaves the ledger; an unreadable pool empties the ledger and queues nothing; no image file empties the ledger and queues exactly a warning and `done` |
| Batch.GroupEventsShape | SourceCode/image_grouper.py:325-386 | a group batch queues nothing only when os.listdir raises, and otherwise one operation's messages; the new ledger has at most one record per listed name |
| Batch.AccountedFor | SourceCode/image_grouper.py:364-379 | every file ends up in the ledger or with one error line |
| Batch.NoErrorsIffAllMoved | SourceCode/image_grouper.py:364-384 | no error line is collected exactly when every file was moved |
| Batch.RecordsMembers | SourceCode/image_grouper.py:364-365 | the ledger holds the (target, source) pair of every moved file and nothing else |
| Batch.ProgressMembers | SourceCode/image_grouper.py:370-379 | the progress message for file i is queued exactly when its read succeeded and i ends a batch of ten or is the last file |
| Batch.FullProgress | SourceCode/image_grouper.py:370-379 | the 100% message is queued exactly when the last file could be read |
| Batch.FaultFreeFile | SourceCode/image_grouper.py:352-367 | without injected faults a readable file is moved unless its target is its own path |
| Batch.FaultFreeGroup | SourceCode/image_grouper.py:351-379 | without injected faults every readable file is moved, except one whose target is its own path |
| Batch.GroupOutcome | SourceCode/image_grouper.py:351-386 | after the loop the ledger is the moved files' records; records and error lines add up to the files; the closing message is a warning exactly when some file was not moved; 100% is reached exactly when the last file was readable |
| Batch.UndoProgress | SourceCode/image_grouper.py:406-412 | at most one progress message per record, and the last one is 100% |
| Batch.UndoProgressShape | SourceCode/image_grouper.py:406-412 | undo progress messages carry the ledger's length and strictly increasing counts |
| Batch.Undo | SourceCode/image_grouper.py:388-425 | an empty ledger queues exactly an info and `done` and changes nothing; undo never adds to the ledger |
| Batch.UndoEventsShape | SourceCode/image_grouper.py:388-425 | an undo batch queues one operation's messages |
| Batch.UndoNoErrorsIffAllReversed | SourceCode/image_grouper.py:401-404 | no error line is collected exactly when every reversal returned True |
| Batch.UndoOutcome | SourceCode/image_grouper.py:399-425 | a non-empty undo reaches 100%; it closes with a warning exactly when some reversal failed; it keeps exactly the records of which no copy was reversed and, with no duplicate records, exactly the failed ones in their original order |
| Ledger.Without | SourceCode/image_grouper.py:418 | the filter never lengthens the ledger |
| Ledger.WithoutMembers | SourceCode/image_grouper.py:418 | the filter keeps exactly the records that are not in the removal list |
| Ledger.UndoRun | SourceCode/image_grouper.py:399-402 | the loop gives one result per record |
| Ledger.SucceededMembers | SourceCode/image_grouper.py:401-402 | a record is a successful undo exactly when one of its occurrences was reversed |
| Ledger.RemainingUnreversed | SourceCode/image_grouper.py:418 | a record stays exactly when no occurrence of it was reversed |
| Ledger.WithoutAgrees | SourceCode/image_grouper.py:418 | the filter only looks at the ledger's own records in the removal list |
| Ledger.DistinctKeepsFailed | SourceCode/image_grouper.py:418 | with no duplicate records, the ledger after undo is the failed records in their original order |
| Ledger.DuplicatesLeaveTogether | SourceCode/image_grouper.py:418 | a record listed twice leaves entirely when one copy is reversed, although the other failed |
| RoundTrip.SeparateFromNames | SourceCode/image_grouper.py:339-359 | distinct listed names without '/', with target folders other than the pool in which none of the names exists yet, give distinct sources and targets, and no target is a source |
| RoundTrip.ChangedMembers | SourceCode/image_grouper.py:351-379 | every path the group loop may change is a moved file's source or a readable file's target |
| RoundTrip.GroupRunFiles | SourceCode/image_grouper.py:351-379 | over separate paths, a file is unreadable exactly when reading its original bytes fails, and otherwise its target is the folder the orientation of their size picks, under its name; each moved file is there with its original bytes and gone from the pool; each file not moved is in the pool as it was; a failed move leaves at most a copy at its target; no other path changes |
| RoundTrip.RecordsDistinct | SourceCode/image_grouper.py:364-365 | a ledger built from distinct pool paths lists no record twice |
| RoundTrip.RecordsSpread | SourceCode/image_grouper.py:364-365 | over separate paths no two records share a path and no record's current path is an original path |
| RoundTrip.ChangedIsEndpoints | SourceCode/image_grouper.py:364-365 | when no move failed, the paths the loop changed are exactly the paths its ledger names |
| RoundTrip.GroupLedger | SourceCode/image_grouper.py:351-367 | without faults and over separate paths, each record names a file that went from its original path, with its bytes, to its current path, which did not exist before; the records are distinct and share no path; nothing outside them changes |
| RoundTrip.AllSucceeded | SourceCode/image_grouper.py:401-402 | when every reversal returns True the successful undos are the whole ledger |
| RoundTrip.NothingLeft | SourceCode/image_grouper.py:418 | removing a list that holds every record leaves an empty ledger |
| RoundTrip.UndoRunRestores | SourceCode/image_grouper.py:399-402 | without faults, on records that share no path and whose files are at their current paths, every reversal returns True, each file goes back to its original path with its bytes, and nothing else changes |
| RoundTrip.UndoKeepsFailed | SourceCode/image_grouper.py:399-404 | under any faults, on distinct records that share no path, each reversal that returned True moved its file from its current path back to its original path with its bytes; each one that gave up left its file at its current path as it was, with at most a copy at its original path; no path outside the records changes |
| RoundTrip.UndoLedgerMatchesFiles | SourceCode/image_grouper.py:399-418 | under any faults, on such records, every record the undo keeps in moved_files still has its file at its current path as it was, and every record it drops had its file moved back to its original path |
| RoundTrip.BackWhereItWas | SourceCode/image_grouper.py:399-402 | reversing every move a ledger records, where no current path existed before, gives back the original store |
| RoundTrip.UndoAfterGroup | SourceCode/image_grouper.py:388-425 | undo without faults after such a batch gives back the original store and leaves the ledger empty |
| RoundTrip.GroupThenUndo | SourceCode/image_grouper.py:325-425 | round trip: a group batch over separate paths then an undo batch, without faults, give back the pool's files exactly and an empty ledger |
| Grouper.ImageGrouper.constructor | SourceCode/image_grouper.py:20-35 | a new window has the given paths, an empty ledger, an empty queue and no operation running |
| Grouper.ImageGrouper.TryAttempt | SourceCode/image_grouper.py:297-316 | one attempt's calls on the store leave the state the attempt function gives |
| Grouper.ImageGrouper.SafeFileOperation | SourceCode/image_grouper.py:291-323 | the attempt loop with its early returns leaves the store and returns the result of the retry function |
| Grouper.ImageGrouper.GroupImages | SourceCode/image_grouper.py:325-386 | the store, the ledger and the queued messages become those of the group batch |
| Grouper.ImageGrouper.GroupAll | SourceCode/image_grouper.py:351-379 | the file loop leaves the store, the ledger, the error lines and the progress messages of the loop function |
| Grouper.ImageGrouper.GroupOne | SourceCode/image_grouper.py:352-379 | one pass of the file loop for one file |
| Grouper.ImageGrouper.UndoLastOperation | SourceCode/image_grouper.py:388-425 | the store, the ledger and the queued messages become those of the undo batch |
| Grouper.ImageGrouper.ReverseAll | SourceCode/image_grouper.py:399-415 | the record loop leaves the store, the successful undos, the error lines and the progress messages of the loop function |
| Grouper.ImageGrouper.ReverseOne | SourceCode/image_grouper.py:400-412 | one pass of the record loop for one record |
| Grouper.ImageGrouper.StartGroupImages | SourceCode/image_grouper.py:265-270 | while an operation runs nothing changes; otherwise the flag is set and the group batch runs |
| Grouper.ImageGrouper.StartUndo | SourceCode/image_grouper.py:272-277 | while an operation runs nothing changes; otherwise the flag is set and the undo batch runs |
| Grouper.ImageGrouper.StartGenerateTest | SourceCode/image_grouper.py:279-284 | the same guard; the flag is set and nothing else changes |
| Grouper.ImageGrouper.CheckMessages | SourceCode/image_grouper.py:238-263 | all queued messages are taken oldest first and the queue is left empty; the flag is cleared exactly when a `done` was among them |

## Left out

- The tkinter window: widgets, folder dialogs, message boxes (including
  the "Operation in progress" warning of a refused start), progress bar
  updates and the `window.after` rescheduling of the drain. They are
  presentation only. `Grouper.ImageGrouper.CheckMessages` returns the
  messages it took instead of showing them.
- Threads and `Queue`. A worker runs as a direct call from its start
  method, and the queue is a sequence that the drain empties. Only one
  worker can be live, so no interleaving is lost.
- `time.sleep`: a delay is counted, not timed.
- Progress values are floats in the code (`i / total * 100`). A progress
  message here carries the pair (i, total), which fixes both the value
  and the status text.
- PIL. `Image.open(...).size` is a decoder function the caller supplies,
  of the file's path and bytes, which gives a size or an exception text
  (so a text such as "cannot identify image file '<path>'" can name the
  path). A missing file gives
  approximately the text of FileNotFoundError: the path is quoted plainly,
  not by its repr, so a path holding a quote or a backslash prints
  differently. `img.close()` is left out.
- `os.listdir` is a `Listing` the caller supplies: the names, or the
  exception it raises.
- Path aliasing. Each path string names its own plain file, and two
  different strings never name the same file. So '.' and '..' segments,
  doubled '/', case-insensitive file systems (the default on Windows and
  macOS), hard and symbolic links, and a directory at a target path are
  not modelled. SafeMover.SelfMove, SafeMover.SelfMoveLosesFile and the
  self-target clause of Batch.FileStepEffect detect a self-move only when
  the joined strings are equal. The hypotheses of the RoundTrip lemmas
  (`Separate`) are likewise about strings. Take a horizontal folder spelt
  "<pool>/.": the model moves the file and records it, while the program
  deletes it at the first step of the move (its target exists), fails every
  copy and reports "Could not move". A directory at a target makes copy2
  copy into it, so the program counts that move a success, while the
  model treats the target as a file.
- Directories. The store is a flat map from path to bytes. os.remove
  raises for a missing path and shutil.copy2 for a missing src or src
  equal to dst; every other exception of either call (a missing target
  folder, permissions, a full disk) comes from the fault script, the same
  for every cause.
- Os.FileSystem.Copy2: a raising shutil.copy2 writes nothing here. The real
  call copies the bytes and then the metadata, so a failing copystat leaves
  a full copy at dst and a failure mid-copy a truncated one, and either
  leaves the attempt before its rollback. The failure clauses of
  SafeMover.MoveAttemptEffect and SafeMover.MoveGuarantee, the not-moved
  clauses of Batch.FileStepEffect and the stray-copy clauses of
  RoundTrip.GroupRunFiles and RoundTrip.UndoKeepsFailed hold of the model
  only.
- SafeMover.CalmMoveSucceeds: with directories left out, a missing target
  folder makes a move fail only through a scripted fault, so this lemma
  holds of the program only when the destination's folder exists.
- Batch.FaultFreeFile, Batch.FaultFreeGroup: the same; they hold of the
  program only when the horizontal and vertical folders exist.
- RoundTrip.GroupLedger, RoundTrip.UndoRunRestores, RoundTrip.UndoAfterGroup,
  RoundTrip.GroupThenUndo: the same; they hold of the program only when all
  three folders exist.
- `os.path.join` and `os.path.basename` follow POSIX rules.
  `str.lower()` lowers only ASCII letters.
- The `print` of the final error in `_safe_file_operation`.
- Exception texts are plain strings; the text of an exception other than
  FileNotFoundError comes from the decoder, which sees the path and the
  bytes but no other state of the file system.
- The "Error undoing move for" branch of the undo loop. Within the model
  the move and `os.path.basename` never raise, so that branch cannot be
  taken, and the group loop's handler (image_grouper.py:378) is entered only through a
  read failure. In the program the `print` of the final error in
  `_safe_file_operation` (image_grouper.py:321) can raise, for instance an encoding error
  on a redirected stdout that is not UTF-8. A failing move then takes
  either handler, and that file's progress tick is skipped. In the
  windowed build stdout is None and the `print` does nothing.
- `generate_test_images` (fixture images drawn with PIL).
  `Grouper.ImageGrouper.StartGenerateTest` therefore only raises the flag,
  and the worker's `done` is not modelled.
- Session loading and saving (JSON file I/O), so the constructor takes
  the three paths as parameters. `_adjust_color` is a hover-colour helper
  on floats.
- `SourceCode/build.py` runs pip and PyInstaller and contains no engine
  logic.
