/** The retrying single-file move of _safe_file_operation: at most three
    attempts, a counted delay between attempts and none after the last, and
    a boolean result instead of an exception. */
module SafeMover {
  import opened Os

  const MaxRetries: nat := 3

  datatype Operation = MoveOp | RemoveOp

  /** How one attempt ended, one constructor per branch of the attempt body. */
  datatype Step =
    | Completed       // the operation returned normally
    | CopyFailed      // shutil.copy2 raised
    | RolledBack      // deleting src raised, and the fresh copy was deleted
    | RollbackFailed  // deleting src raised, and deleting the copy raised too
    | RemoveFailed    // remove mode: os.remove(src) raised

  datatype Attempt = Attempt(world: World, step: Step)

  /** One pass through the move branch: best-effort delete of an existing
      dst, copy, delete src, and on a failed delete of src the rollback. */
  function MoveAttempt(w: World, src: Path, dst: Path): Attempt
  {
    // os.path.exists(dst) and the ignored os.remove(dst)
    var cleared := if dst in w.files then RemoveFile(w, dst).world else w;
    var copy := CopyFile(cleared, src, dst);
    if !copy.ok then Attempt(copy.world, CopyFailed)
    else
      var del := RemoveFile(copy.world, src);
      if del.ok then Attempt(del.world, Completed)
      else
        var undo := RemoveFile(del.world, dst);
        Attempt(undo.world, if undo.ok then RolledBack else RollbackFailed)
  }

  /** The file store after each branch of a move attempt, exactly: a
      self-move never gets past the copy; a completed attempt moves src's
      bytes to dst; a failed copy leaves the store as it was, less dst; a
      rollback leaves it without dst; a failed rollback leaves both copies. */
  lemma MoveAttemptEffect(w: World, src: Path, dst: Path)
    ensures var r := MoveAttempt(w, src, dst);
      && r.step != RemoveFailed
      && (src == dst ==> r.step == CopyFailed)
      && (r.step == Completed ==>
            src in w.files && src != dst && r.world.files == (w.files - {src})[dst := w.files[src]])
      && (r.step == CopyFailed ==> r.world.files == w.files || r.world.files == w.files - {dst})
      && (r.step == RolledBack ==> src in w.files && src != dst && r.world.files == w.files - {dst})
      && (r.step == RollbackFailed ==>
            src in w.files && src != dst && r.world.files == w.files[dst := w.files[src]])
  {
    var cleared := if dst in w.files then RemoveFile(w, dst).world else w;
    assert cleared.files == w.files || cleared.files == w.files - {dst};
    var copy := CopyFile(cleared, src, dst);
    if copy.ok {
      assert src in w.files && src != dst;
      var del := RemoveFile(copy.world, src);
      if !del.ok {
        assert RemoveFile(del.world, dst).ok ==> RemoveFile(del.world, dst).world.files == w.files - {dst};
      }
    }
  }

  /** One pass through the remove branch: os.remove(src). */
  function RemoveAttempt(w: World, src: Path): (r: Attempt)
    ensures r.world.sleeps == w.sleeps
    ensures r.step == Completed || r.step == RemoveFailed
    ensures r.step == Completed <==> src in w.files && !FaultNext(w)
    ensures r.world.files == if r.step == Completed then w.files - {src} else w.files
  {
    var del := RemoveFile(w, src);
    Attempt(del.world, if del.ok then Completed else RemoveFailed)
  }

  function TryOnce(w: World, op: Operation, src: Path, dst: Path): Attempt
  {
    match op
    case MoveOp => MoveAttempt(w, src, dst)
    case RemoveOp => RemoveAttempt(w, src)
  }

  /** An attempt takes no delay. */
  lemma AttemptKeepsSleeps(w: World, op: Operation, src: Path, dst: Path)
    ensures TryOnce(w, op, src, dst).world.sleeps == w.sleeps
  {
    if op == MoveOp {
      var cleared := if dst in w.files then RemoveFile(w, dst).world else w;
      assert cleared.sleeps == w.sleeps;
      var copy := CopyFile(cleared, src, dst);
      assert copy.world.sleeps == w.sleeps;
      var del := RemoveFile(copy.world, src);
      assert del.world.sleeps == w.sleeps;
    }
  }

  /** What the retry loop returns, and how many attempts it made. */
  datatype Outcome = Outcome(world: World, ok: bool, attempts: nat)

  /** The attempt loop with `left` attempts still allowed: stop at the first
      attempt that completes; after a failed attempt delay only if another
      attempt follows. */
  function Retry(w: World, op: Operation, src: Path, dst: Path, left: nat): Outcome
    decreases left
  {
    if left == 0 then Outcome(w, false, 0)
    else
      var a := TryOnce(w, op, src, dst);
      if a.step == Completed then Outcome(a.world, true, 1)
      else if left == 1 then Outcome(a.world, false, 1)
      else
        var rest := Retry(Delay(a.world), op, src, dst, left - 1);
        Outcome(rest.world, rest.ok, rest.attempts + 1)
  }

  /** The loop makes at least one and at most `left` attempts, all of them
      when it fails, and delays once between consecutive attempts. */
  lemma {:induction false} RetryCounts(w: World, op: Operation, src: Path, dst: Path, left: nat)
    ensures var r := Retry(w, op, src, dst, left);
      && r.attempts <= left
      && (left > 0 ==> r.attempts >= 1)
      && (!r.ok ==> r.attempts == left)
      && r.world.sleeps == w.sleeps + (if r.attempts == 0 then 0 else r.attempts - 1)
    decreases left
  {
    if left > 0 {
      var a := TryOnce(w, op, src, dst);
      AttemptKeepsSleeps(w, op, src, dst);
      if a.step != Completed && left > 1 {
        RetryCounts(Delay(a.world), op, src, dst, left - 1);
      }
    }
  }

  /** The retry loop as _safe_file_operation runs it: three attempts. */
  function SafeOperation(w: World, op: Operation, src: Path, dst: Path): Outcome
  {
    Retry(w, op, src, dst, MaxRetries)
  }

  /** _safe_file_operation returns True or gives up after its third
      attempt, and sleeps once between attempts, never after the last. */
  lemma SafeOperationCounts(w: World, op: Operation, src: Path, dst: Path)
    ensures var r := SafeOperation(w, op, src, dst);
      && 1 <= r.attempts <= MaxRetries
      && (r.ok || r.attempts == MaxRetries)
      && r.world.sleeps == w.sleeps + r.attempts - 1
      && r.world.sleeps <= w.sleeps + MaxRetries - 1
  {
    RetryCounts(w, op, src, dst, MaxRetries);
  }

  /** After a failed move, dst is absent, holds what it held in w0, or
      holds a copy of src left by a rollback that raised. */
  ghost predicate StrayAt(w0: World, w: World, src: Path, dst: Path)
  {
    dst in w.files ==>
      (dst in w0.files && w.files[dst] == w0.files[dst]) ||
      (src in w0.files && w.files[dst] == w0.files[src])
  }

  /** A state of a failed move, measured against the state w0 before it: src
      and every path other than dst are as in w0, and dst is as `StrayAt`
      allows. */
  ghost predicate Kept(w0: World, w: World, src: Path, dst: Path)
  {
    w.files - {dst} == w0.files - {dst} && StrayAt(w0, w, src, dst)
  }

  /** A failed attempt keeps the files Kept; a completed one moves src's
      original bytes to dst. */
  lemma MoveAttemptFrom(w0: World, w: World, src: Path, dst: Path)
    requires src != dst && Kept(w0, w, src, dst)
    ensures var a := MoveAttempt(w, src, dst);
      && (a.step == Completed ==> src in w0.files && a.world.files == (w0.files - {src})[dst := w0.files[src]])
      && (a.step != Completed ==> Kept(w0, a.world, src, dst))
  {
    var a := MoveAttempt(w, src, dst);
    MoveAttemptEffect(w, src, dst);
    var off, off0 := w.files - {dst}, w0.files - {dst};
    assert src in w.files <==> src in off;
    assert src in w0.files <==> src in off0;
    if src in w.files {
      assert w.files[src] == off[src] && w0.files[src] == off0[src];
    }
    if a.step == Completed {
      var moved, moved0 := (w.files - {src})[dst := w.files[src]], (w0.files - {src})[dst := w0.files[src]];
      forall p | p != src && p != dst
        ensures (p in moved <==> p in moved0) && (p in moved ==> moved[p] == moved0[p])
      {
        assert p in w.files <==> p in off;
        assert p in w0.files <==> p in off0;
        if p in w.files {
          assert w.files[p] == off[p] && w0.files[p] == off0[p];
        }
      }
      assert moved == moved0;
    } else {
      assert a.world.files - {dst} == off;
    }
  }

  /** The retry loop, started from a state Kept with respect to w0. */
  lemma {:induction false} RetryMoveFrom(w0: World, w: World, src: Path, dst: Path, left: nat)
    requires src != dst && Kept(w0, w, src, dst)
    ensures var r := Retry(w, MoveOp, src, dst, left);
      && (r.ok ==> src in w0.files && r.world.files == (w0.files - {src})[dst := w0.files[src]])
      && (!r.ok ==> Kept(w0, r.world, src, dst))
    decreases left
  {
    if left > 0 {
      MoveAttemptFrom(w0, w, src, dst);
      var a := MoveAttempt(w, src, dst);
      if a.step != Completed && left > 1 {
        RetryMoveFrom(w0, Delay(a.world), src, dst, left - 1);
      }
    }
  }

  /** The guarantee of the move mode. When it reports success, src is gone
      and dst holds src's original bytes; when it reports failure, src and
      every other path are untouched and dst is absent, unchanged, or a copy
      of src whose rollback delete raised. Nothing outside src and dst is
      ever touched. */
  lemma MoveGuarantee(w: World, src: Path, dst: Path)
    requires src != dst
    ensures var r := SafeOperation(w, MoveOp, src, dst);
      && (r.ok ==> src in w.files && src !in r.world.files && dst in r.world.files
                   && r.world.files[dst] == w.files[src]
                   && r.world.files - {src, dst} == w.files - {src, dst})
      && (!r.ok ==> Kept(w, r.world, src, dst) && r.attempts == MaxRetries
                    && (src in r.world.files <==> src in w.files)
                    && (src in w.files ==> r.world.files[src] == w.files[src]))
  {
    RetryMoveFrom(w, w, src, dst, MaxRetries);
    var r := SafeOperation(w, MoveOp, src, dst);
    if !r.ok {
      assert src in r.world.files <==> src in r.world.files - {dst};
      assert src in w.files <==> src in w.files - {dst};
      if src in w.files {
        assert (r.world.files - {dst})[src] == (w.files - {dst})[src];
      }
    }
  }

  /** A move onto its own path never succeeds, and it may delete the file:
      the step-1 delete of the existing dst removes src itself. */
  lemma {:induction false} SelfMove(w: World, p: Path, left: nat)
    ensures var r := Retry(w, MoveOp, p, p, left);
      !r.ok && (r.world.files == w.files || r.world.files == w.files - {p})
    decreases left
  {
    if left > 1 {
      var a := MoveAttempt(w, p, p);
      SelfMove(Delay(a.world), p, left - 1);
      var r := Retry(Delay(a.world), MoveOp, p, p, left - 1);
      if a.world.files == w.files - {p} && r.world.files == a.world.files - {p} {
        assert a.world.files - {p} == w.files - {p};
      }
    }
  }

  /** Without injected faults, a self-move deletes the file it was asked to
      move and reports failure. */
  lemma SelfMoveLosesFile(w: World, p: Path)
    requires p in w.files && Calm(w, 1)
    ensures var r := SafeOperation(w, MoveOp, p, p);
      !r.ok && p !in r.world.files
  {
    var a := MoveAttempt(w, p, p);
    assert a.world.files == w.files - {p};
    SelfMove(Delay(a.world), p, MaxRetries - 1);
  }

  /** The remove mode: success deletes src and nothing else; failure
      changes no file. */
  lemma {:induction false} RemoveGuarantee(w: World, src: Path, dst: Path, left: nat)
    ensures var r := Retry(w, RemoveOp, src, dst, left);
      && (r.ok ==> src in w.files && r.world.files == w.files - {src})
      && (!r.ok ==> r.world.files == w.files)
    decreases left
  {
    if left > 1 {
      var a := RemoveAttempt(w, src);
      RemoveGuarantee(Delay(a.world), src, dst, left - 1);
    }
  }

  /** When none of its three calls is scripted to fail, the first move
      attempt of an existing file to a different path completes. */
  lemma CalmAttemptCompletes(w: World, src: Path, dst: Path)
    requires src in w.files && src != dst && Calm(w, 3)
    ensures MoveAttempt(w, src, dst).step == Completed
  {
    var cleared := if dst in w.files then RemoveFile(w, dst).world else w;
    if dst in w.files {
      CalmAfterConsume(w, 2);
      assert Calm(cleared, 2);
    } else {
      assert Calm(cleared, 2);
    }
    var copy := CopyFile(cleared, src, dst);
    assert copy.ok;
    CalmAfterConsume(cleared, 1);
    assert Calm(copy.world, 1);
  }

  /** Without injected faults the move of an existing file succeeds on the
      first attempt, with no delay. */
  lemma CalmMoveSucceeds(w: World, src: Path, dst: Path)
    requires src in w.files && src != dst && Calm(w, 3)
    ensures var r := SafeOperation(w, MoveOp, src, dst);
      r.ok && r.attempts == 1 && r.world.sleeps == w.sleeps
  {
    CalmAttemptCompletes(w, src, dst);
  }

  /** Undoing a move: moving dst back to src, with no fault injected,
      restores every file except that what dst held before the first move
      is gone. */
  lemma MoveBack(w: World, src: Path, dst: Path)
    requires src != dst
    requires SafeOperation(w, MoveOp, src, dst).ok
    requires Calm(SafeOperation(w, MoveOp, src, dst).world, 3)
    ensures var there := SafeOperation(w, MoveOp, src, dst).world;
      var back := SafeOperation(there, MoveOp, dst, src);
      back.ok && back.world.files == w.files - {dst}
      && (dst !in w.files ==> back.world.files == w.files)
  {
    MoveGuarantee(w, src, dst);
    var there := SafeOperation(w, MoveOp, src, dst).world;
    CalmMoveSucceeds(there, dst, src);
    MoveGuarantee(there, dst, src);
    var back := SafeOperation(there, MoveOp, dst, src);
    assert back.world.files == w.files - {dst} by {
      forall p ensures (p in back.world.files <==> p in w.files - {dst})
        && (p in back.world.files ==> back.world.files[p] == (w.files - {dst})[p])
      {
        if p != src && p != dst {
          assert p in back.world.files <==> p in back.world.files - {src, dst};
          assert p in there.files <==> p in there.files - {src, dst};
          assert p in w.files <==> p in w.files - {src, dst};
          if p in w.files {
            assert (there.files - {src, dst})[p] == (w.files - {src, dst})[p];
            assert (back.world.files - {src, dst})[p] == (there.files - {src, dst})[p];
          }
        }
      }
    }
  }

  /** Attempt k (counting from 0) completes, the attempts before it having
      failed: attempt k + 1 is attempt k of the loop that follows the first
      attempt and its delay. */
  predicate Completes(w: World, op: Operation, src: Path, dst: Path, k: nat)
    decreases k
  {
    var a := TryOnce(w, op, src, dst);
    if k == 0 then a.step == Completed else Completes(Delay(a.world), op, src, dst, k - 1)
  }

  /** The loop reports success only at an attempt that completes, after
      attempts that all failed. */
  lemma {:induction false} SuccessIsFirstCompletion(w: World, op: Operation, src: Path, dst: Path, left: nat)
    ensures var r := Retry(w, op, src, dst, left);
      r.ok ==> Completes(w, op, src, dst, r.attempts - 1)
               && forall j :: 0 <= j < r.attempts - 1 ==> !Completes(w, op, src, dst, j)
    decreases left
  {
    if left > 1 {
      var a := TryOnce(w, op, src, dst);
      if a.step != Completed {
        var w1 := Delay(a.world);
        SuccessIsFirstCompletion(w1, op, src, dst, left - 1);
        var r := Retry(w, op, src, dst, left);
        if r.ok {
          forall j | 0 < j < r.attempts - 1 ensures !Completes(w, op, src, dst, j)
          {
            assert Completes(w, op, src, dst, j) == Completes(w1, op, src, dst, j - 1);
          }
        }
      }
    }
  }

  /** The loop reports failure only when every allowed attempt failed. */
  lemma {:induction false} FailureMeansNoCompletion(w: World, op: Operation, src: Path, dst: Path, left: nat)
    ensures var r := Retry(w, op, src, dst, left);
      !r.ok ==> forall j :: 0 <= j < left ==> !Completes(w, op, src, dst, j)
    decreases left
  {
    if left > 1 {
      var a := TryOnce(w, op, src, dst);
      if a.step != Completed {
        var w1 := Delay(a.world);
        FailureMeansNoCompletion(w1, op, src, dst, left - 1);
        if !Retry(w, op, src, dst, left).ok {
          forall j | 0 < j < left ensures !Completes(w, op, src, dst, j)
          {
            assert Completes(w, op, src, dst, j) == Completes(w1, op, src, dst, j - 1);
          }
        }
      }
    }
  }

  /** An attempt only uses up fault decisions, so a fault-free script stays
      fault-free. */
  lemma FaultFreeAttempt(w: World, op: Operation, src: Path, dst: Path)
    requires FaultFree(w)
    ensures FaultFree(TryOnce(w, op, src, dst).world)
  {
    var w1 := if dst in w.files then RemoveFile(w, dst).world else w;
    FaultFreeConsume(w);
    assert FaultFree(w1);
    var w2 := CopyFile(w1, src, dst).world;
    FaultFreeConsume(w1);
    var w3 := RemoveFile(w2, src).world;
    FaultFreeConsume(w2);
    FaultFreeConsume(w3);
  }

  lemma {:induction false} FaultFreeRetry(w: World, op: Operation, src: Path, dst: Path, left: nat)
    requires FaultFree(w)
    ensures FaultFree(Retry(w, op, src, dst, left).world)
    decreases left
  {
    if left > 0 {
      FaultFreeAttempt(w, op, src, dst);
      if TryOnce(w, op, src, dst).step != Completed && left > 1 {
        FaultFreeRetry(Delay(TryOnce(w, op, src, dst).world), op, src, dst, left - 1);
      }
    }
  }
}
