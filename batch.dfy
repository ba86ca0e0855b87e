/** What one group batch and one undo batch do, as functions of the world
    and the ledger they start from: the files they move, the ledger they
    leave and the messages they queue. */
module Batch {
  import opened Os
  import opened Classifier
  import opened SafeMover
  import opened Channel
  import opened Ledger

  /** What happened to one listed image file. */
  datatype FileOutcome =
    | Unreadable(reason: string)  // Image.open or .size raised
    | Moved(target: Path)         // the retrying move returned True
    | NotMoved(target: Path)      // the retrying move returned False

  datatype FileStep = FileStep(world: World, outcome: FileOutcome)

  /** target_path: the file's name in the folder its orientation picks. */
  function Target(size: Size, horizontal: Path, vertical: Path, name: string): Path
  {
    Join(if Classify(size) == Horizontal then horizontal else vertical, name)
  }

  /** The loop body of the group batch for one file: read its size, pick
      the folder, move it. A read failure touches nothing. */
  function GroupFile(w: World, pool: Path, horizontal: Path, vertical: Path, name: string,
                     decode: (Path, Bytes) -> Decoded): (r: FileStep)
    ensures var src := Join(pool, name);
      && (r.outcome.Unreadable? <==> Open(w, src, decode).NotAnImage?)
      && (r.outcome.Unreadable? ==> r.world == w && r.outcome.reason == Open(w, src, decode).reason)
      && (!r.outcome.Unreadable? ==>
            src in w.files && r.outcome.target == Target(Open(w, src, decode).size, horizontal, vertical, name))
  {
    var src := Join(pool, name);
    match Open(w, src, decode)
    case NotAnImage(reason) => FileStep(w, Unreadable(reason))
    case Image(size) =>
      var dst := Target(size, horizontal, vertical, name);
      var out := SafeOperation(w, MoveOp, src, dst);
      FileStep(out.world, if out.ok then Moved(dst) else NotMoved(dst))
  }

  /** The paths one file's step may change: its source and target when it
      was moved, its target when the move failed, none when it was unreadable. */
  function FileChanged(src: Path, o: FileOutcome): set<Path>
  {
    match o
    case Moved(target) => {src, target}
    case NotMoved(target) => {target}
    case Unreadable(_) => {}
  }

  /** A file reported as moved is in its target folder with its original
      bytes and gone from the pool; one reported as not moved is still in
      the pool, untouched, unless its target was its own path, and at most
      a stray copy of it is at the target. No other path changes. */
  lemma FileStepEffect(w: World, pool: Path, horizontal: Path, vertical: Path, name: string,
                       decode: (Path, Bytes) -> Decoded)
    ensures var src := Join(pool, name);
      var r := GroupFile(w, pool, horizontal, vertical, name, decode);
      && (r.outcome.Moved? ==>
            src != r.outcome.target && src !in r.world.files && r.outcome.target in r.world.files
            && r.world.files[r.outcome.target] == w.files[src]
            && r.world.files - {src, r.outcome.target} == w.files - {src, r.outcome.target})
      && (r.outcome.NotMoved? && src != r.outcome.target ==>
            src in r.world.files && r.world.files[src] == w.files[src])
      && (r.outcome.NotMoved? ==> StrayAt(w, r.world, src, r.outcome.target))
      && r.world.files - FileChanged(src, r.outcome) == w.files - FileChanged(src, r.outcome)
  {
    var src := Join(pool, name);
    var r := GroupFile(w, pool, horizontal, vertical, name, decode);
    if !r.outcome.Unreadable? {
      var dst := r.outcome.target;
      if src == dst {
        SelfMove(w, src, MaxRetries);
        assert (w.files - {src}) - {src} == w.files - {src};
      } else {
        MoveGuarantee(w, src, dst);
      }
    }
  }

  datatype Run = Run(world: World, outcomes: seq<FileOutcome>)

  /** The group loop over the image names, in listing order. */
  function GroupRun(w: World, pool: Path, horizontal: Path, vertical: Path, names: seq<string>,
                    decode: (Path, Bytes) -> Decoded): (r: Run)
    ensures |r.outcomes| == |names|
    decreases |names|
  {
    if names == [] then Run(w, [])
    else
      var n := |names| - 1;
      var prev := GroupRun(w, pool, horizontal, vertical, names[..n], decode);
      var step := GroupFile(prev.world, pool, horizontal, vertical, names[n], decode);
      Run(step.world, prev.outcomes + [step.outcome])
  }

  /** The ledger entries the loop appends: (target_path, img_path) of every
      file whose move returned True, in listing order. */
  function Records(pool: Path, names: seq<string>, outs: seq<FileOutcome>): seq<Record>
    requires |outs| == |names|
    decreases |names|
  {
    if names == [] then []
    else
      var n := |names| - 1;
      Records(pool, names[..n], outs[..n])
        + (if outs[n].Moved? then [Record(outs[n].target, Join(pool, names[n]))] else [])
  }

  /** The error line the loop collects for one file, if any. */
  function FileError(name: string, o: FileOutcome): seq<string>
  {
    match o
    case Unreadable(reason) => ["Error processing " + name + ": " + reason]
    case NotMoved(_) => ["Could not move " + name]
    case Moved(_) => []
  }

  function GroupErrors(names: seq<string>, outs: seq<FileOutcome>): seq<string>
    requires |outs| == |names|
    decreases |names|
  {
    if names == [] then []
    else
      var n := |names| - 1;
      GroupErrors(names[..n], outs[..n]) + FileError(names[n], outs[n])
  }

  /** The progress messages of the group loop: a file whose read raised
      skips the progress block. */
  function GroupProgress(outs: seq<FileOutcome>, total: nat): (r: seq<Event>)
    ensures |r| <= |outs|
    decreases |outs|
  {
    if outs == [] then []
    else
      var n := |outs| - 1;
      GroupProgress(outs[..n], total) + (if outs[n].Unreadable? then [] else Tick(n + 1, total, Grouping))
  }

  /** A run of progress messages of one phase and total, with counts
      between 1 and bound, strictly increasing. */
  ghost predicate ProgressRun(es: seq<Event>, phase: Phase, total: nat, bound: nat)
  {
    && (forall i :: 0 <= i < |es| ==>
          es[i].Progress? && es[i].phase == phase && es[i].total == total && 1 <= es[i].count <= bound)
    && (forall i, j :: 0 <= i < j < |es| ==> es[i].count < es[j].count)
  }

  /** The group loop's progress messages carry the batch's total and
      strictly increasing file counts. */
  lemma {:induction false} GroupProgressShape(outs: seq<FileOutcome>, total: nat)
    ensures ProgressRun(GroupProgress(outs, total), Grouping, total, |outs|)
    decreases |outs|
  {
    if outs != [] {
      var n := |outs| - 1;
      GroupProgressShape(outs[..n], total);
    }
  }

  /** What a batch leaves behind: the world, the ledger and the queued
      messages, oldest first. */
  datatype Effect = Effect(world: World, ledger: seq<Record>, events: seq<Event>)

  /** group_images. An invalid folder choice posts an error and leaves the
      ledger alone; past that check the old ledger is always discarded. An
      unreadable pool raises out of the worker, which then posts nothing. */
  function Group(w: World, ledger: seq<Record>, pool: Path, horizontal: Path, vertical: Path,
                 listing: Listing, decode: (Path, Bytes) -> Decoded): (r: Effect)
    ensures (pool == "" || horizontal == "" || vertical == "") ==>
      r == Effect(w, ledger, [Error(SelectAllFolders), Done])
    ensures pool != "" && horizontal != "" && vertical != "" && listing.Unlistable? ==>
      r == Effect(w, [], [])
    ensures pool != "" && horizontal != "" && vertical != "" && listing.Entries?
            && ImageFiles(listing.names) == [] ==>
      r == Effect(w, [], [Warning(NoImagesFound), Done])
  {
    if pool == "" || horizontal == "" || vertical == "" then
      Effect(w, ledger, [Error(SelectAllFolders), Done])
    else match listing
      case Unlistable => Effect(w, [], [])
      case Entries(names) =>
        var images := ImageFiles(names);
        if images == [] then Effect(w, [], [Warning(NoImagesFound), Done])
        else
          var run := GroupRun(w, pool, horizontal, vertical, images, decode);
          Effect(run.world, Records(pool, images, run.outcomes),
                 GroupProgress(run.outcomes, |images|)
                   + [Terminal(GroupErrors(images, run.outcomes), GroupedOk), Done])
  }

  /** Whatever the inputs, a batch that posts anything posts one complete
      operation's messages, and the new ledger has at most one record per
      listed name. */
  lemma GroupEventsShape(w: World, ledger: seq<Record>, pool: Path, horizontal: Path, vertical: Path,
                         listing: Listing, decode: (Path, Bytes) -> Decoded)
    ensures var r := Group(w, ledger, pool, horizontal, vertical, listing, decode);
      && (r.events == [] <==> pool != "" && horizontal != "" && vertical != "" && listing.Unlistable?)
      && (r.events != [] ==> OperationEvents(r.events))
      && (pool != "" && horizontal != "" && vertical != "" ==>
            |r.ledger| <= (if listing.Entries? then |listing.names| else 0))
  {
    if pool != "" && horizontal != "" && vertical != "" && listing.Entries? {
      var images := ImageFiles(listing.names);
      if images != [] {
        var run := GroupRun(w, pool, horizontal, vertical, images, decode);
        AccountedFor(pool, images, run.outcomes);
        GroupProgressShape(run.outcomes, |images|);
      }
    }
  }

  /** Every file is accounted for: it is either in the ledger or has an
      error line. */
  lemma {:induction false} AccountedFor(pool: Path, names: seq<string>, outs: seq<FileOutcome>)
    requires |outs| == |names|
    ensures |Records(pool, names, outs)| + |GroupErrors(names, outs)| == |names|
    decreases |names|
  {
    if names != [] {
      var n := |names| - 1;
      AccountedFor(pool, names[..n], outs[..n]);
    }
  }

  /** The batch ends in an info message exactly when every file was moved. */
  lemma {:induction false} NoErrorsIffAllMoved(names: seq<string>, outs: seq<FileOutcome>)
    requires |outs| == |names|
    ensures GroupErrors(names, outs) == [] <==> forall i :: 0 <= i < |outs| ==> outs[i].Moved?
    decreases |names|
  {
    if names != [] {
      var n := |names| - 1;
      NoErrorsIffAllMoved(names[..n], outs[..n]);
      assert forall i :: 0 <= i < n ==> outs[..n][i] == outs[i];
    }
  }

  /** The ledger holds one entry per moved file, (target, source), and
      nothing else. */
  lemma {:induction false} RecordsMembers(pool: Path, names: seq<string>, outs: seq<FileOutcome>)
    requires |outs| == |names|
    ensures forall x :: x in Records(pool, names, outs) <==>
      exists i :: 0 <= i < |names| && outs[i].Moved? && x == Record(outs[i].target, Join(pool, names[i]))
    decreases |names|
  {
    if names != [] {
      var n := |names| - 1;
      RecordsMembers(pool, names[..n], outs[..n]);
      forall x ensures x in Records(pool, names, outs) <==>
        exists i :: 0 <= i < |names| && outs[i].Moved? && x == Record(outs[i].target, Join(pool, names[i]))
      {
        if x in Records(pool, names[..n], outs[..n]) {
          var i :| 0 <= i < n && outs[..n][i].Moved?
                   && x == Record(outs[..n][i].target, Join(pool, names[..n][i]));
          assert outs[i] == outs[..n][i] && names[i] == names[..n][i];
        }
        if exists i :: 0 <= i < |names| && outs[i].Moved? && x == Record(outs[i].target, Join(pool, names[i])) {
          var i :| 0 <= i < |names| && outs[i].Moved? && x == Record(outs[i].target, Join(pool, names[i]));
          if i < n {
            assert outs[i] == outs[..n][i] && names[i] == names[..n][i];
          }
        }
      }
    }
  }

  /** Whether file i (counting from 1) gets a progress message: its read
      succeeded and it ends a batch of ten or is the last file. */
  predicate Reported(outs: seq<FileOutcome>, total: nat, i: nat)
  {
    1 <= i <= |outs| && !outs[i - 1].Unreadable? && (i % BatchSize == 0 || i == total)
  }

  /** The progress messages of the group loop are exactly those of the
      reported files (every one of them is a grouping message with the
      batch's total, by the contract of GroupProgress). */
  lemma {:induction false} ProgressMembers(outs: seq<FileOutcome>, total: nat)
    ensures forall i: nat :: Progress(i, total, Grouping) in GroupProgress(outs, total)
                             <==> Reported(outs, total, i)
    decreases |outs|
  {
    if outs != [] {
      var n := |outs| - 1;
      ProgressMembers(outs[..n], total);
      forall i: nat
        ensures Progress(i, total, Grouping) in GroupProgress(outs, total) <==> Reported(outs, total, i)
      {
        if 1 <= i <= n {
          assert outs[i - 1] == outs[..n][i - 1];
          assert Reported(outs, total, i) <==> Reported(outs[..n], total, i);
        }
      }
    }
  }

  /** The 100% message is posted exactly when the last file could be read:
      a last file whose read raised leaves the bar short of 100%. */
  lemma FullProgress(outs: seq<FileOutcome>)
    requires outs != []
    ensures Progress(|outs|, |outs|, Grouping) in GroupProgress(outs, |outs|)
            <==> !outs[|outs| - 1].Unreadable?
  {
    ProgressMembers(outs, |outs|);
    assert Reported(outs, |outs|, |outs|) <==> !outs[|outs| - 1].Unreadable?;
  }

  /** Without injected faults a readable file is moved unless its target
      is its own path, and no fault appears later in the script. */
  lemma FaultFreeFile(w: World, pool: Path, horizontal: Path, vertical: Path, name: string,
                      decode: (Path, Bytes) -> Decoded)
    requires FaultFree(w)
    ensures var step := GroupFile(w, pool, horizontal, vertical, name, decode);
      && FaultFree(step.world)
      && (step.outcome.NotMoved? ==> step.outcome.target == Join(pool, name))
  {
    var src := Join(pool, name);
    var step := GroupFile(w, pool, horizontal, vertical, name, decode);
    if !step.outcome.Unreadable? {
      var dst := step.outcome.target;
      FaultFreeRetry(w, MoveOp, src, dst, MaxRetries);
      if src != dst {
        FaultFreeConsume(w);
        CalmMoveSucceeds(w, src, dst);
      }
    }
  }

  /** Without injected faults every readable file is moved, except one
      whose target is its own path. */
  lemma {:induction false} FaultFreeGroup(w: World, pool: Path, horizontal: Path, vertical: Path,
                                          names: seq<string>, decode: (Path, Bytes) -> Decoded)
    requires FaultFree(w)
    ensures var r := GroupRun(w, pool, horizontal, vertical, names, decode);
      && FaultFree(r.world)
      && forall i :: 0 <= i < |names| && r.outcomes[i].NotMoved? ==>
           r.outcomes[i].target == Join(pool, names[i])
    decreases |names|
  {
    if names != [] {
      var n := |names| - 1;
      var prev := GroupRun(w, pool, horizontal, vertical, names[..n], decode);
      FaultFreeGroup(w, pool, horizontal, vertical, names[..n], decode);
      FaultFreeFile(prev.world, pool, horizontal, vertical, names[n], decode);
      var step := GroupFile(prev.world, pool, horizontal, vertical, names[n], decode);
      var r := GroupRun(w, pool, horizontal, vertical, names, decode);
      assert r == Run(step.world, prev.outcomes + [step.outcome]);
      forall i | 0 <= i < |names| && r.outcomes[i].NotMoved?
        ensures r.outcomes[i].target == Join(pool, names[i])
      {
        if i < n {
          assert r.outcomes[i] == prev.outcomes[i] && names[i] == names[..n][i];
        } else {
          assert r.outcomes[i] == step.outcome;
        }
      }
    }
  }

  /** The closing message of a batch that got past its checks. */
  lemma GroupOutcome(w: World, ledger: seq<Record>, pool: Path, horizontal: Path, vertical: Path,
                     names: seq<string>, decode: (Path, Bytes) -> Decoded)
    requires pool != "" && horizontal != "" && vertical != "" && ImageFiles(names) != []
    ensures var images := ImageFiles(names);
      var run := GroupRun(w, pool, horizontal, vertical, images, decode);
      var r := Group(w, ledger, pool, horizontal, vertical, Entries(names), decode);
      && r.ledger == Records(pool, images, run.outcomes)
      && |r.ledger| + |GroupErrors(images, run.outcomes)| == |images|
      && (r.events[|r.events| - 2].Warning? <==> exists i :: 0 <= i < |images| && !run.outcomes[i].Moved?)
      && (Progress(|images|, |images|, Grouping) in r.events <==> !run.outcomes[|images| - 1].Unreadable?)
  {
    var images := ImageFiles(names);
    var run := GroupRun(w, pool, horizontal, vertical, images, decode);
    var r := Group(w, ledger, pool, horizontal, vertical, Entries(names), decode);
    AccountedFor(pool, images, run.outcomes);
    NoErrorsIffAllMoved(images, run.outcomes);
    FullProgress(run.outcomes);
    var p := GroupProgress(run.outcomes, |images|);
    assert r.events == p + [Terminal(GroupErrors(images, run.outcomes), GroupedOk), Done];
    assert r.events[|r.events| - 2] == Terminal(GroupErrors(images, run.outcomes), GroupedOk);
  }

  /** One more file of the group loop, seen from the prefix already done. */
  lemma GroupRunStep(w: World, pool: Path, horizontal: Path, vertical: Path, names: seq<string>,
                     i: nat, decode: (Path, Bytes) -> Decoded)
    requires i < |names|
    ensures var prev := GroupRun(w, pool, horizontal, vertical, names[..i], decode);
      var step := GroupFile(prev.world, pool, horizontal, vertical, names[i], decode);
      GroupRun(w, pool, horizontal, vertical, names[..i + 1], decode)
        == Run(step.world, prev.outcomes + [step.outcome])
  {
    assert names[..i + 1][..i] == names[..i];
  }

  /** One more file of the ledger, error and progress accumulators. */
  lemma AccumulatorsStep(pool: Path, names: seq<string>, outs: seq<FileOutcome>, o: FileOutcome,
                         queued: seq<Event>, total: nat)
    requires |outs| < |names|
    ensures var i := |outs|;
      && Records(pool, names[..i + 1], outs + [o]) == Records(pool, names[..i], outs)
           + (if o.Moved? then [Record(o.target, Join(pool, names[i]))] else [])
      && GroupErrors(names[..i + 1], outs + [o]) == GroupErrors(names[..i], outs) + FileError(names[i], o)
      && queued + GroupProgress(outs + [o], total)
           == queued + GroupProgress(outs, total) + (if o.Unreadable? then [] else Tick(i + 1, total, Grouping))
  {
    var i := |outs|;
    assert names[..i + 1][..i] == names[..i];
    assert (outs + [o])[..i] == outs;
  }

  /** The error line the undo loop collects for one record, if any. */
  function UndoErrors(ledger: seq<Record>, oks: seq<bool>): seq<string>
    requires |oks| == |ledger|
    decreases |ledger|
  {
    if ledger == [] then []
    else
      var n := |ledger| - 1;
      UndoErrors(ledger[..n], oks[..n])
        + (if oks[n] then [] else ["Could not move back " + Basename(ledger[n].current)])
  }

  /** The progress messages of the undo loop over its first n records: every
      record is processed, whether or not its reversal succeeded. */
  function UndoProgress(n: nat, total: nat): (r: seq<Event>)
    ensures |r| <= n
    ensures n > 0 && n == total ==> r != [] && r[|r| - 1] == Progress(n, total, Undoing)
    decreases n
  {
    if n == 0 then [] else UndoProgress(n - 1, total) + Tick(n, total, Undoing)
  }

  /** The undo loop's progress messages carry the ledger's length and
      strictly increasing record counts. */
  lemma {:induction false} UndoProgressShape(n: nat, total: nat)
    ensures ProgressRun(UndoProgress(n, total), Undoing, total, n)
    decreases n
  {
    if n > 0 {
      UndoProgressShape(n - 1, total);
    }
  }

  /** Posting one more undo tick after the messages already queued. */
  lemma UndoProgressAppend(queued: seq<Event>, i: nat, total: nat)
    ensures queued + UndoProgress(i + 1, total) == queued + UndoProgress(i, total) + Tick(i + 1, total, Undoing)
  {
  }

  /** undo_last_operation: reverse every record in order, then keep the
      records no reversal succeeded for. */
  function Undo(w: World, ledger: seq<Record>): (r: Effect)
    ensures ledger == [] ==> r == Effect(w, [], [Info(NothingToUndo), Done])
    ensures |r.ledger| <= |ledger|
  {
    if ledger == [] then Effect(w, ledger, [Info(NothingToUndo), Done])
    else
      var run := UndoRun(w, ledger);
      Effect(run.world, Without(ledger, Succeeded(ledger, run.oks)),
             UndoProgress(|ledger|, |ledger|)
               + [Terminal(UndoErrors(ledger, run.oks), UndoneOk), Done])
  }

  /** One more record of the undo loop, seen from the prefix already done. */
  lemma UndoRunStep(w: World, ledger: seq<Record>, i: nat)
    requires i < |ledger|
    ensures UndoRun(w, ledger[..i + 1]) ==
      var prev := UndoRun(w, ledger[..i]);
      var back := SafeOperation(prev.world, MoveOp, ledger[i].current, ledger[i].original);
      Reversal(back.world, prev.oks + [back.ok])
  {
    assert ledger[..i + 1][..i] == ledger[..i];
  }

  /** The undo loop's collected records and error lines after one more
      record. */
  lemma UndoAccumulatorsStep(ledger: seq<Record>, oks: seq<bool>, ok: bool)
    requires |oks| < |ledger|
    ensures var i := |oks|;
      && Succeeded(ledger[..i + 1], oks + [ok]) == Succeeded(ledger[..i], oks) + (if ok then [ledger[i]] else [])
      && UndoErrors(ledger[..i + 1], oks + [ok]) == UndoErrors(ledger[..i], oks)
           + (if ok then [] else ["Could not move back " + Basename(ledger[i].current)])
  {
    var i := |oks|;
    assert ledger[..i + 1][..i] == ledger[..i];
    assert (oks + [ok])[..i] == oks;
  }

  /** Every undo batch posts one complete operation's messages. */
  lemma UndoEventsShape(w: World, ledger: seq<Record>)
    ensures OperationEvents(Undo(w, ledger).events)
  {
    if ledger != [] {
      UndoProgressShape(|ledger|, |ledger|);
    }
  }

  lemma {:induction false} UndoNoErrorsIffAllReversed(ledger: seq<Record>, oks: seq<bool>)
    requires |oks| == |ledger|
    ensures UndoErrors(ledger, oks) == [] <==> forall i :: 0 <= i < |oks| ==> oks[i]
    decreases |ledger|
  {
    if ledger != [] {
      var n := |ledger| - 1;
      UndoNoErrorsIffAllReversed(ledger[..n], oks[..n]);
      assert forall i :: 0 <= i < n ==> oks[..n][i] == oks[i];
    }
  }

  /** The undo batch over a non-empty ledger: it reaches 100%, warns exactly
      when some reversal failed, keeps exactly the records no reversal
      succeeded for and, when no record is listed twice, exactly the failed
      records in their original order. */
  lemma UndoOutcome(w: World, ledger: seq<Record>)
    requires ledger != []
    ensures Progress(|ledger|, |ledger|, Undoing) in Undo(w, ledger).events
    ensures var es := Undo(w, ledger).events;
      es[|es| - 2].Warning? <==> exists i :: 0 <= i < |ledger| && !UndoRun(w, ledger).oks[i]
    ensures forall x :: x in Undo(w, ledger).ledger <==>
      x in ledger && forall i :: 0 <= i < |ledger| && ledger[i] == x ==> !UndoRun(w, ledger).oks[i]
    ensures Distinct(ledger) ==> Undo(w, ledger).ledger == Failed(ledger, UndoRun(w, ledger).oks)
  {
    var oks := UndoRun(w, ledger).oks;
    var r := Undo(w, ledger);
    var p := UndoProgress(|ledger|, |ledger|);
    assert r.events == p + [Terminal(UndoErrors(ledger, oks), UndoneOk), Done];
    assert r.events[|p| - 1] == p[|p| - 1];
    assert r.events[|r.events| - 2] == Terminal(UndoErrors(ledger, oks), UndoneOk);
    UndoNoErrorsIffAllReversed(ledger, oks);
    assert r.ledger == Without(ledger, Succeeded(ledger, oks));
    RemainingUnreversed(ledger, oks);
    if Distinct(ledger) {
      DistinctKeepsFailed(ledger, oks);
      assert r.ledger == Failed(ledger, oks);
    }
    // the two directions separately: the equivalence at once is not found
    assert r.events[|r.events| - 2].Warning? ==> exists i :: 0 <= i < |ledger| && !UndoRun(w, ledger).oks[i];
    assert r.events[|r.events| - 2].Warning? <== exists i :: 0 <= i < |ledger| && !UndoRun(w, ledger).oks[i];
  }
}
