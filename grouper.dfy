/** The ImageGrouper object: its folder paths, the undo ledger, the
    operation flag and the message queue, with the worker bodies run as
    direct calls and the queue drained by a separate method. */
module Grouper {
  import opened Os
  import opened Classifier
  import opened SafeMover
  import opened Channel
  import opened Ledger
  import opened Batch

  class ImageGrouper {
    /** The file store every worker reads and changes. */
    const fs: FileSystem
    var poolPath: Path
    var horizontalPath: Path
    var verticalPath: Path
    /** moved_files: the (target, source) pair of every move of the last batch. */
    var movedFiles: seq<Record>
    /** True from a start request until a drained `done`. */
    var processing: bool
    /** msg_queue, oldest message first. */
    var msgQueue: seq<Event>

    /** A fresh window: the paths come from the saved session, the ledger
        and the queue are empty and no operation is running. */
    constructor (fs: FileSystem, pool: Path, horizontal: Path, vertical: Path)
      ensures this.fs == fs
      ensures poolPath == pool && horizontalPath == horizontal && verticalPath == vertical
      ensures movedFiles == [] && !processing && msgQueue == []
    {
      this.fs := fs;
      poolPath := pool;
      horizontalPath := horizontal;
      verticalPath := vertical;
      movedFiles := [];
      processing := false;
      msgQueue := [];
    }

    /** The body of one attempt of _safe_file_operation. */
    method TryAttempt(src: Path, dst: Path, op: Operation) returns (step: Step)
      modifies fs
      ensures Attempt(fs.State(), step) == TryOnce(old(fs.State()), op, src, dst)
    {
      if op == RemoveOp {
        var removed := fs.Remove(src);
        step := if removed then Completed else RemoveFailed;
        return;
      }
      var present := fs.Exists(dst);
      if present {
        var _ := fs.Remove(dst);
      }
      var copied := fs.Copy2(src, dst);
      if !copied {
        step := CopyFailed;
        return;
      }
      var removed := fs.Remove(src);
      if removed {
        step := Completed;
        return;
      }
      var undone := fs.Remove(dst);
      step := if undone then RolledBack else RollbackFailed;
    }

    /** _safe_file_operation: up to MaxRetries attempts, a delay after each
        failed attempt but the last, True at the first attempt that
        completes. */
    method SafeFileOperation(src: Path, dst: Path, op: Operation) returns (ok: bool)
      modifies fs
      ensures var r := SafeOperation(old(fs.State()), op, src, dst);
        fs.State() == r.world && ok == r.ok
    {
      ghost var goal := SafeOperation(fs.State(), op, src, dst);
      for attempt := 0 to MaxRetries
        invariant var r := Retry(fs.State(), op, src, dst, MaxRetries - attempt);
          r.world == goal.world && r.ok == goal.ok
      {
        var step := TryAttempt(src, dst, op);
        if step == Completed {
          return true;
        }
        if attempt < MaxRetries - 1 {
          fs.Sleep();
        } else {
          return false;
        }
      }
      return false;
    }

    /** group_images, with os.listdir's answer and the image decoder given. */
    method GroupImages(listing: Listing, decode: (Path, Bytes) -> Decoded)
      modifies this`movedFiles, this`msgQueue, fs
      ensures var e := Group(old(fs.State()), old(movedFiles), poolPath, horizontalPath, verticalPath,
                             listing, decode);
        && fs.State() == e.world && movedFiles == e.ledger && msgQueue == old(msgQueue) + e.events
    {
      var pool, horizontal, vertical := poolPath, horizontalPath, verticalPath;
      if pool == "" || horizontal == "" || vertical == "" {
        msgQueue := msgQueue + [Error(SelectAllFolders)];
        msgQueue := msgQueue + [Done];
        return;
      }
      movedFiles := [];
      if listing.Unlistable? {
        // os.listdir raised: the exception ends the worker here
        return;
      }
      var imageFiles := ImageFiles(listing.names);
      if |imageFiles| == 0 {
        msgQueue := msgQueue + [Warning(NoImagesFound)];
        msgQueue := msgQueue + [Done];
        return;
      }
      ghost var w1, q1 := fs.State(), msgQueue;
      var errors := GroupAll(imageFiles, decode);
      ghost var progress := GroupProgress(GroupRun(w1, pool, horizontal, vertical, imageFiles, decode).outcomes,
                                          |imageFiles|);
      if errors != [] {
        msgQueue := msgQueue + [Warning(JoinLines(errors))];
      } else {
        msgQueue := msgQueue + [Info(GroupedOk)];
      }
      assert msgQueue == q1 + progress + [Terminal(errors, GroupedOk)];
      msgQueue := msgQueue + [Done];
      Posted(q1, progress, Terminal(errors, GroupedOk));
    }

    /** The loop of group_images over the image names: read each file's
        size, move it to the folder its orientation picks, record the move
        or the error, and post a progress message every BatchSize files and
        after the last, skipping files whose read raised. */
    method GroupAll(imageFiles: seq<string>, decode: (Path, Bytes) -> Decoded) returns (errors: seq<string>)
      requires movedFiles == []
      modifies this`movedFiles, this`msgQueue, fs
      ensures var run := GroupRun(old(fs.State()), poolPath, horizontalPath, verticalPath, imageFiles, decode);
        && fs.State() == run.world
        && movedFiles == Records(poolPath, imageFiles, run.outcomes)
        && errors == GroupErrors(imageFiles, run.outcomes)
        && msgQueue == old(msgQueue) + GroupProgress(run.outcomes, |imageFiles|)
    {
      var pool, horizontal, vertical := poolPath, horizontalPath, verticalPath;
      errors := [];
      var total := |imageFiles|;
      ghost var w0 := fs.State();
      ghost var q0 := msgQueue;
      ghost var outs: seq<FileOutcome> := [];
      var i := 0;
      while i < total
        invariant 0 <= i <= total && |outs| == i
        invariant GroupRun(w0, pool, horizontal, vertical, imageFiles[..i], decode) == Run(fs.State(), outs)
        invariant movedFiles == Records(pool, imageFiles[..i], outs)
        invariant errors == GroupErrors(imageFiles[..i], outs)
        invariant msgQueue == q0 + GroupProgress(outs, total)
      {
        var error: seq<string>;
        ghost var o: FileOutcome;
        error, o := GroupOne(pool, horizontal, vertical, imageFiles[i], i, total, decode);
        errors := errors + error;
        GroupRunStep(w0, pool, horizontal, vertical, imageFiles, i, decode);
        AccumulatorsStep(pool, imageFiles, outs, o, q0, total);
        outs := outs + [o];
        i := i + 1;
      }
      assert imageFiles[..total] == imageFiles;
    }

    /** One pass of the group loop, for the file at position i (from 0) of
        total: its error line, if any, and what happened to it. */
    method GroupOne(pool: Path, horizontal: Path, vertical: Path, file: string, i: nat, total: nat,
                    decode: (Path, Bytes) -> Decoded)
      returns (error: seq<string>, ghost o: FileOutcome)
      modifies this`movedFiles, this`msgQueue, fs
      ensures FileStep(fs.State(), o) == GroupFile(old(fs.State()), pool, horizontal, vertical, file, decode)
      ensures error == FileError(file, o)
      ensures movedFiles == old(movedFiles)
        + (if o.Moved? then [Record(o.target, Join(pool, file))] else [])
      ensures msgQueue == old(msgQueue) + (if o.Unreadable? then [] else Tick(i + 1, total, Grouping))
    {
      var imgPath := Join(pool, file);
      match Open(fs.State(), imgPath, decode) {
        case NotAnImage(reason) =>
          error := ["Error processing " + file + ": " + reason];
          o := Unreadable(reason);
        case Image(size) =>
          var targetDir := if size.width > size.height then horizontal else vertical;
          var targetPath := Join(targetDir, file);
          var moved := SafeFileOperation(imgPath, targetPath, MoveOp);
          if moved {
            movedFiles := movedFiles + [Record(targetPath, imgPath)];
            error := [];
            o := Moved(targetPath);
          } else {
            error := ["Could not move " + file];
            o := NotMoved(targetPath);
          }
          if (i + 1) % BatchSize == 0 || i + 1 == total {
            msgQueue := msgQueue + [Progress(i + 1, total, Grouping)];
          }
      }
    }

    /** undo_last_operation: move every ledger record back in order, then
        keep only the records whose reversal did not succeed. */
    method UndoLastOperation()
      modifies this`movedFiles, this`msgQueue, fs
      ensures var e := Undo(old(fs.State()), old(movedFiles));
        && fs.State() == e.world && movedFiles == e.ledger && msgQueue == old(msgQueue) + e.events
    {
      if movedFiles == [] {
        msgQueue := msgQueue + [Info(NothingToUndo)];
        msgQueue := msgQueue + [Done];
        return;
      }
      var ledger := movedFiles;
      ghost var q1 := msgQueue;
      var successfulUndos, errors := ReverseAll(ledger);
      movedFiles := Without(ledger, successfulUndos);
      ghost var progress := UndoProgress(|ledger|, |ledger|);
      if errors != [] {
        msgQueue := msgQueue + [Warning(JoinLines(errors))];
      } else {
        msgQueue := msgQueue + [Info(UndoneOk)];
      }
      assert msgQueue == q1 + progress + [Terminal(errors, UndoneOk)];
      msgQueue := msgQueue + [Done];
      Posted(q1, progress, Terminal(errors, UndoneOk));
    }

    /** The loop of undo_last_operation: every record is moved back with the
        retrying move, and a progress message is posted every BatchSize
        records and after the last. */
    method ReverseAll(ledger: seq<Record>) returns (successfulUndos: seq<Record>, errors: seq<string>)
      modifies this`msgQueue, fs
      ensures var run := UndoRun(old(fs.State()), ledger);
        && fs.State() == run.world
        && successfulUndos == Succeeded(ledger, run.oks)
        && errors == UndoErrors(ledger, run.oks)
      ensures msgQueue == old(msgQueue) + UndoProgress(|ledger|, |ledger|)
    {
      errors := [];
      successfulUndos := [];
      var total := |ledger|;
      ghost var w0 := fs.State();
      ghost var q0 := msgQueue;
      ghost var oks: seq<bool> := [];
      var i := 0;
      while i < total
        invariant 0 <= i <= total && |oks| == i
        invariant UndoRun(w0, ledger[..i]) == Reversal(fs.State(), oks)
        invariant successfulUndos == Succeeded(ledger[..i], oks)
        invariant errors == UndoErrors(ledger[..i], oks)
        invariant msgQueue == q0 + UndoProgress(i, total)
      {
        var ok;
        ok, successfulUndos, errors := ReverseOne(w0, q0, ledger, i, oks, successfulUndos, errors);
        oks := oks + [ok];
        i := i + 1;
      }
      assert ledger[..total] == ledger;
    }

    /** One pass of the undo loop, for the record after the prefix already
        reversed: move its file back, collect it or its error line, then
        post the progress message when this record ends a batch or the
        ledger. */
    method ReverseOne(ghost w0: World, ghost q0: seq<Event>, ledger: seq<Record>, i: nat, ghost oks: seq<bool>,
                      undos: seq<Record>, errors: seq<string>)
      returns (ok: bool, undos': seq<Record>, errors': seq<string>)
      requires i == |oks| < |ledger| && UndoRun(w0, ledger[..i]) == Reversal(fs.State(), oks)
      requires undos == Succeeded(ledger[..i], oks) && errors == UndoErrors(ledger[..i], oks)
      requires msgQueue == q0 + UndoProgress(i, |ledger|)
      modifies this`msgQueue, fs
      ensures UndoRun(w0, ledger[..i + 1]) == Reversal(fs.State(), oks + [ok])
      ensures undos' == Succeeded(ledger[..i + 1], oks + [ok]) && errors' == UndoErrors(ledger[..i + 1], oks + [ok])
      ensures msgQueue == q0 + UndoProgress(i + 1, |ledger|)
    {
      var rec := ledger[i];
      ok := SafeFileOperation(rec.current, rec.original, MoveOp);
      UndoRunStep(w0, ledger, i);
      undos', errors' := undos, errors;
      if ok {
        undos' := undos' + [rec];
      } else {
        errors' := errors' + ["Could not move back " + Basename(rec.current)];
      }
      UndoAccumulatorsStep(ledger, oks, ok);
      if (i + 1) % BatchSize == 0 || i + 1 == |ledger| {
        msgQueue := msgQueue + [Progress(i + 1, |ledger|, Undoing)];
      }
      UndoProgressAppend(q0, i, |ledger|);
    }

    /** _start_group_images: refused while an operation runs; otherwise the
        flag is raised and the group worker runs. */
    method StartGroupImages(listing: Listing, decode: (Path, Bytes) -> Decoded) returns (started: bool)
      modifies this, fs
      ensures started == !old(processing)
      ensures !started ==> fs.State() == old(fs.State()) && movedFiles == old(movedFiles)
                           && msgQueue == old(msgQueue) && processing
      ensures started ==>
        var e := Group(old(fs.State()), old(movedFiles), poolPath, horizontalPath, verticalPath,
                       listing, decode);
        && processing && fs.State() == e.world && movedFiles == e.ledger
        && msgQueue == old(msgQueue) + e.events
      ensures poolPath == old(poolPath) && horizontalPath == old(horizontalPath)
      ensures verticalPath == old(verticalPath)
    {
      if processing {
        return false;
      }
      processing := true;
      GroupImages(listing, decode);
      return true;
    }

    /** _start_undo: the same guard around the undo worker. */
    method StartUndo() returns (started: bool)
      modifies this, fs
      ensures started == !old(processing)
      ensures !started ==> fs.State() == old(fs.State()) && movedFiles == old(movedFiles)
                           && msgQueue == old(msgQueue) && processing
      ensures started ==>
        var e := Undo(old(fs.State()), old(movedFiles));
        && processing && fs.State() == e.world && movedFiles == e.ledger
        && msgQueue == old(msgQueue) + e.events
      ensures poolPath == old(poolPath) && horizontalPath == old(horizontalPath)
      ensures verticalPath == old(verticalPath)
    {
      if processing {
        return false;
      }
      processing := true;
      UndoLastOperation();
      return true;
    }

    /** _start_generate_test: the same guard; the test-image worker itself
        is not part of this model, so only the flag changes. */
    method StartGenerateTest() returns (started: bool)
      modifies this
      ensures started == !old(processing)
      ensures processing
      ensures movedFiles == old(movedFiles) && msgQueue == old(msgQueue)
      ensures poolPath == old(poolPath) && horizontalPath == old(horizontalPath)
      ensures verticalPath == old(verticalPath)
    {
      if processing {
        return false;
      }
      processing := true;
      return true;
    }

    /** One tick of _check_messages: every queued message is taken, oldest
        first, and a `done` among them clears the operation flag. */
    method CheckMessages() returns (handled: seq<Event>)
      modifies this
      ensures handled == old(msgQueue) && msgQueue == []
      ensures processing == (old(processing) && Done !in old(msgQueue))
      ensures movedFiles == old(movedFiles)
      ensures poolPath == old(poolPath) && horizontalPath == old(horizontalPath)
      ensures verticalPath == old(verticalPath)
    {
      handled := [];
      while msgQueue != []
        invariant handled + msgQueue == old(msgQueue)
        invariant processing == (old(processing) && Done !in handled)
        invariant movedFiles == old(movedFiles)
        invariant poolPath == old(poolPath) && horizontalPath == old(horizontalPath)
        invariant verticalPath == old(verticalPath)
        decreases |msgQueue|
      {
        var msg := msgQueue[0];
        msgQueue := msgQueue[1..];
        handled := handled + [msg];
        if msg == Done {
          processing := false;
        }
      }
    }
  }
}
