/** The files a whole group batch leaves behind, and the round trip of a
    group batch followed by an undo batch: when the listed names lead to
    distinct source and target paths and no target exists beforehand, the
    moved files sit in their target folders with their original bytes, and
    an undo without faults puts every one of them back. */
module RoundTrip {
  import opened Os
  import opened Classifier
  import opened SafeMover
  import opened Ledger
  import opened Batch

  /** p is absent from both stores, or present in both with the same bytes. */
  ghost predicate Same(a: map<Path, Bytes>, b: map<Path, Bytes>, p: Path)
  {
    (p in a <==> p in b) && (p in a ==> a[p] == b[p])
  }

  /** Two stores equal outside s agree at every path outside s. */
  lemma AgreeOff(a: map<Path, Bytes>, b: map<Path, Bytes>, s: set<Path>, p: Path)
    requires a - s == b - s && p !in s
    ensures Same(a, b, p)
  {
    assert p in a <==> p in a - s;
    assert p in b <==> p in b - s;
    if p in a {
      assert a[p] == (a - s)[p];
    }
  }

  /** Stores equal outside s are equal outside any larger set. */
  lemma MinusWiden(a: map<Path, Bytes>, b: map<Path, Bytes>, s: set<Path>, t: set<Path>)
    requires a - s == b - s && s <= t
    ensures a - t == b - t
  {
    forall p | p !in t
      ensures Same(a - t, b - t, p)
    {
      AgreeOff(a, b, s, p);
    }
    forall p | p in t
      ensures Same(a - t, b - t, p)
    {
    }
    assert forall p :: p in a - t <==> p in b - t;
  }

  /** The file went from src to dst with its bytes. */
  ghost predicate MovedHere(w0: World, w: World, src: Path, dst: Path)
  {
    src in w0.files && src !in w.files && dst in w.files && w.files[dst] == w0.files[src]
  }

  /** The paths a group loop over names may have changed. */
  function Changed(pool: Path, names: seq<string>, outs: seq<FileOutcome>): set<Path>
    requires |outs| == |names|
    decreases |names|
  {
    if names == [] then {}
    else
      var n := |names| - 1;
      Changed(pool, names[..n], outs[..n]) + FileChanged(Join(pool, names[n]), outs[n])
  }

  /** Every readable file's target is its name in one of the two folders. */
  ghost predicate Chosen(horizontal: Path, vertical: Path, names: seq<string>, outs: seq<FileOutcome>)
    requires |outs| == |names|
  {
    forall i :: 0 <= i < |outs| && !outs[i].Unreadable? ==>
      outs[i].target == Join(horizontal, names[i]) || outs[i].target == Join(vertical, names[i])
  }

  /** The names lead to pairwise distinct sources and targets, no target is
      a source, and no target exists yet. The horizontal and vertical
      folders may be the same. */
  ghost predicate Separate(w: World, pool: Path, horizontal: Path, vertical: Path, names: seq<string>)
  {
    && (forall i, j :: 0 <= i < |names| && 0 <= j < |names| && i != j ==>
          && Join(pool, names[i]) != Join(pool, names[j])
          && Join(horizontal, names[i]) != Join(horizontal, names[j])
          && Join(vertical, names[i]) != Join(vertical, names[j])
          && Join(horizontal, names[i]) != Join(vertical, names[j]))
    && (forall i, j :: 0 <= i < |names| && 0 <= j < |names| ==>
          Join(horizontal, names[i]) != Join(pool, names[j]) && Join(vertical, names[i]) != Join(pool, names[j]))
    && (forall i :: 0 <= i < |names| ==>
          Join(horizontal, names[i]) !in w.files && Join(vertical, names[i]) !in w.files)
  }

  /** Distinct plain names in a plain pool folder, with plain target
      folders other than the pool where none of the names exists yet, are
      separate. */
  lemma SeparateFromNames(w: World, pool: Path, horizontal: Path, vertical: Path, names: seq<string>)
    requires PlainFolder(pool) && PlainFolder(horizontal) && PlainFolder(vertical)
    requires horizontal != pool && vertical != pool
    requires forall i :: 0 <= i < |names| ==> PlainName(names[i])
    requires forall i, j :: 0 <= i < j < |names| ==> names[i] != names[j]
    requires forall i :: 0 <= i < |names| ==>
      Join(horizontal, names[i]) !in w.files && Join(vertical, names[i]) !in w.files
    ensures Separate(w, pool, horizontal, vertical, names)
  {
    forall i, j | 0 <= i < |names| && 0 <= j < |names|
      ensures i != j ==>
        && Join(pool, names[i]) != Join(pool, names[j])
        && Join(horizontal, names[i]) != Join(horizontal, names[j])
        && Join(vertical, names[i]) != Join(vertical, names[j])
        && Join(horizontal, names[i]) != Join(vertical, names[j])
      ensures Join(horizontal, names[i]) != Join(pool, names[j]) && Join(vertical, names[i]) != Join(pool, names[j])
    {
      JoinInjective(pool, pool, names[i], names[j]);
      JoinInjective(horizontal, horizontal, names[i], names[j]);
      JoinInjective(vertical, vertical, names[i], names[j]);
      JoinInjective(horizontal, vertical, names[i], names[j]);
      JoinInjective(horizontal, pool, names[i], names[j]);
      JoinInjective(vertical, pool, names[i], names[j]);
    }
  }

  /** What the group loop over names has done to the files of w: every
      moved file is at its target with its bytes and gone from the pool, a
      failed move leaves at most a stray copy at its target, and every path
      outside Changed is as it was. */
  ghost predicate Tracked(w: World, pool: Path, horizontal: Path, vertical: Path,
                          names: seq<string>, r: Run)
  {
    && |r.outcomes| == |names|
    && Chosen(horizontal, vertical, names, r.outcomes)
    && (forall i :: 0 <= i < |names| && r.outcomes[i].Moved? ==>
          MovedHere(w, r.world, Join(pool, names[i]), r.outcomes[i].target))
    && (forall i :: 0 <= i < |names| && r.outcomes[i].NotMoved? ==>
          StrayAt(w, r.world, Join(pool, names[i]), r.outcomes[i].target))
    && r.world.files - Changed(pool, names, r.outcomes) == w.files - Changed(pool, names, r.outcomes)
  }

  /** A path that is no moved file's source and no readable file's
      target is not changed. */
  lemma {:induction false} NotChangedBy(pool: Path, names: seq<string>, outs: seq<FileOutcome>, p: Path)
    requires |outs| == |names|
    requires forall i :: 0 <= i < |names| ==>
      p != Join(pool, names[i]) && (!outs[i].Unreadable? ==> p != outs[i].target)
    ensures p !in Changed(pool, names, outs)
    decreases |names|
  {
    if names != [] {
      var n := |names| - 1;
      assert forall i :: 0 <= i < n ==> names[..n][i] == names[i] && outs[..n][i] == outs[i];
      NotChangedBy(pool, names[..n], outs[..n], p);
    }
  }

  /** A path that is none of the names' sources or targets is not changed. */
  lemma NotChanged(pool: Path, horizontal: Path, vertical: Path, names: seq<string>,
                   outs: seq<FileOutcome>, p: Path)
    requires |outs| == |names| && Chosen(horizontal, vertical, names, outs)
    requires forall i :: 0 <= i < |names| ==>
      p != Join(pool, names[i]) && p != Join(horizontal, names[i]) && p != Join(vertical, names[i])
    ensures p !in Changed(pool, names, outs)
  {
    NotChangedBy(pool, names, outs, p);
  }

  /** One more file of the changed-path accumulator. */
  lemma ChangedStep(pool: Path, names: seq<string>, outs: seq<FileOutcome>, o: FileOutcome)
    requires |outs| < |names|
    ensures var i := |outs|;
      Changed(pool, names[..i + 1], outs + [o]) == Changed(pool, names[..i], outs) + FileChanged(Join(pool, names[i]), o)
  {
    var i := |outs|;
    assert names[..i + 1][..i] == names[..i];
    assert (outs + [o])[..i] == outs;
  }

  /** The file of one more name, seen from the files the loop left so far:
      its source still holds its original bytes and neither of its possible
      targets exists. */
  lemma FreshFile(w: World, pool: Path, horizontal: Path, vertical: Path, names: seq<string>,
                  k: nat, prev: Run)
    requires k < |names| && Separate(w, pool, horizontal, vertical, names)
    requires Tracked(w, pool, horizontal, vertical, names[..k], prev)
    ensures Same(prev.world.files, w.files, Join(pool, names[k]))
    ensures Join(horizontal, names[k]) !in prev.world.files && Join(vertical, names[k]) !in prev.world.files
  {
    var C := Changed(pool, names[..k], prev.outcomes);
    NotChanged(pool, horizontal, vertical, names[..k], prev.outcomes, Join(pool, names[k]));
    NotChanged(pool, horizontal, vertical, names[..k], prev.outcomes, Join(horizontal, names[k]));
    NotChanged(pool, horizontal, vertical, names[..k], prev.outcomes, Join(vertical, names[k]));
    AgreeOff(prev.world.files, w.files, C, Join(pool, names[k]));
    AgreeOff(prev.world.files, w.files, C, Join(horizontal, names[k]));
    AgreeOff(prev.world.files, w.files, C, Join(vertical, names[k]));
  }

  /** No earlier file's source or target is among the paths the step of
      file k may change. */
  lemma EarlierOutside(w: World, pool: Path, horizontal: Path, vertical: Path, names: seq<string>,
                       k: nat, prev: Run, o: FileOutcome)
    requires k < |names| && Separate(w, pool, horizontal, vertical, names)
    requires Tracked(w, pool, horizontal, vertical, names[..k], prev)
    requires !o.Unreadable? ==> o.target == Join(horizontal, names[k]) || o.target == Join(vertical, names[k])
    ensures forall i :: 0 <= i < k ==>
      && Join(pool, names[..k][i]) !in FileChanged(Join(pool, names[k]), o)
      && (!prev.outcomes[i].Unreadable? ==> prev.outcomes[i].target !in FileChanged(Join(pool, names[k]), o))
  {
    assert forall i :: 0 <= i < k ==> names[..k][i] == names[i];
  }

  /** The loop invariant after one more file, from what that file's step
      did and left alone. */
  lemma TrackedExtend(w: World, pool: Path, horizontal: Path, vertical: Path, names: seq<string>,
                      name: string, prev: Run, after: World, o: FileOutcome)
    requires Tracked(w, pool, horizontal, vertical, names, prev)
    requires var S := FileChanged(Join(pool, name), o);
      && after.files - S == prev.world.files - S
      && forall i :: 0 <= i < |names| ==>
           && Join(pool, names[i]) !in S
           && (!prev.outcomes[i].Unreadable? ==> prev.outcomes[i].target !in S)
    requires !o.Unreadable? ==> o.target == Join(horizontal, name) || o.target == Join(vertical, name)
    requires o.Moved? ==> MovedHere(w, after, Join(pool, name), o.target)
    requires o.NotMoved? ==> StrayAt(w, after, Join(pool, name), o.target)
    ensures Tracked(w, pool, horizontal, vertical, names + [name], Run(after, prev.outcomes + [o]))
  {
    var S := FileChanged(Join(pool, name), o);
    var C := Changed(pool, names, prev.outcomes);
    MinusWiden(after.files, prev.world.files, S, C + S);
    MinusWiden(prev.world.files, w.files, C, C + S);
    var ns := names + [name];
    var outs := prev.outcomes + [o];
    forall i | 0 <= i < |names|
      ensures Same(after.files, prev.world.files, Join(pool, names[i]))
      ensures !outs[i].Unreadable? ==> Same(after.files, prev.world.files, outs[i].target)
    {
      AgreeOff(after.files, prev.world.files, S, Join(pool, names[i]));
      if !outs[i].Unreadable? {
        AgreeOff(after.files, prev.world.files, S, outs[i].target);
      }
    }
    assert ns[..|names|] == names && outs[..|names|] == prev.outcomes;
    assert Changed(pool, ns, outs) == Changed(pool, names, prev.outcomes) + S;
  }

  /** What the step of file k does to that file, seen from the files of w. */
  lemma NewFile(w: World, pool: Path, horizontal: Path, vertical: Path, names: seq<string>,
                decode: (Path, Bytes) -> Decoded, k: nat, prev: Run)
    requires k < |names| && Separate(w, pool, horizontal, vertical, names)
    requires Tracked(w, pool, horizontal, vertical, names[..k], prev)
    ensures var src := Join(pool, names[k]);
      var step := GroupFile(prev.world, pool, horizontal, vertical, names[k], decode);
      var o := step.outcome;
      && step.world.files - FileChanged(src, o) == prev.world.files - FileChanged(src, o)
      && (!o.Unreadable? ==> o.target == Join(horizontal, names[k]) || o.target == Join(vertical, names[k]))
      && (o.Moved? ==> MovedHere(w, step.world, src, o.target))
      && (o.NotMoved? ==> StrayAt(w, step.world, src, o.target))
  {
    FreshFile(w, pool, horizontal, vertical, names, k, prev);
    FileStepEffect(prev.world, pool, horizontal, vertical, names[k], decode);
  }

  /** The loop invariant carried over one more file. */
  lemma TrackedStep(w: World, pool: Path, horizontal: Path, vertical: Path, names: seq<string>,
                    decode: (Path, Bytes) -> Decoded, k: nat)
    requires k < |names| && Separate(w, pool, horizontal, vertical, names)
    requires Tracked(w, pool, horizontal, vertical, names[..k], GroupRun(w, pool, horizontal, vertical, names[..k], decode))
    ensures Tracked(w, pool, horizontal, vertical, names[..k + 1], GroupRun(w, pool, horizontal, vertical, names[..k + 1], decode))
  {
    var prev := GroupRun(w, pool, horizontal, vertical, names[..k], decode);
    var step := GroupFile(prev.world, pool, horizontal, vertical, names[k], decode);
    GroupRunStep(w, pool, horizontal, vertical, names, k, decode);
    NewFile(w, pool, horizontal, vertical, names, decode, k, prev);
    EarlierOutside(w, pool, horizontal, vertical, names, k, prev, step.outcome);
    TrackedExtend(w, pool, horizontal, vertical, names[..k], names[k], prev, step.world, step.outcome);
    assert names[..k + 1] == names[..k] + [names[k]];
  }

  /** The loop invariant holds of any prefix of the names. */
  lemma {:induction false} GroupRunTracked(w: World, pool: Path, horizontal: Path, vertical: Path,
                                           names: seq<string>, decode: (Path, Bytes) -> Decoded, k: nat)
    requires k <= |names| && Separate(w, pool, horizontal, vertical, names)
    ensures Tracked(w, pool, horizontal, vertical, names[..k], GroupRun(w, pool, horizontal, vertical, names[..k], decode))
    decreases k
  {
    if k > 0 {
      GroupRunTracked(w, pool, horizontal, vertical, names, decode, k - 1);
      TrackedStep(w, pool, horizontal, vertical, names, decode, k - 1);
    } else {
      assert names[..0] == [];
    }
  }

  /** Each file's outcome follows from what the pool held at the start: it
      is unreadable exactly when reading it from w fails, and otherwise its
      target is the folder the orientation of its size picks. */
  ghost predicate Picked(w: World, pool: Path, horizontal: Path, vertical: Path,
                         decode: (Path, Bytes) -> Decoded, names: seq<string>, outs: seq<FileOutcome>)
    requires |outs| == |names|
  {
    forall i :: 0 <= i < |outs| ==>
      && (outs[i].Unreadable? <==> Open(w, Join(pool, names[i]), decode).NotAnImage?)
      && (!outs[i].Unreadable? ==>
            outs[i].target == Target(Open(w, Join(pool, names[i]), decode).size, horizontal, vertical, names[i]))
  }

  /** Reading a path depends only on what is stored there. */
  lemma OpenSame(a: World, b: World, p: Path, decode: (Path, Bytes) -> Decoded)
    requires Same(a.files, b.files, p)
    ensures Open(a, p, decode) == Open(b, p, decode)
  {
  }

  /** The step of one more file, while its source still holds what it held
      in w, reads those bytes and picks the folder of their orientation. */
  lemma PickedNew(w: World, pool: Path, horizontal: Path, vertical: Path, name: string,
                  decode: (Path, Bytes) -> Decoded, prev: World)
    requires Same(prev.files, w.files, Join(pool, name))
    ensures var o := GroupFile(prev, pool, horizontal, vertical, name, decode).outcome;
      && (o.Unreadable? <==> Open(w, Join(pool, name), decode).NotAnImage?)
      && (!o.Unreadable? ==> o.target == Target(Open(w, Join(pool, name), decode).size, horizontal, vertical, name))
  {
    OpenSame(prev, w, Join(pool, name), decode);
  }

  /** `Picked` carried over one more file. */
  lemma PickedExtend(w: World, pool: Path, horizontal: Path, vertical: Path,
                     decode: (Path, Bytes) -> Decoded, names: seq<string>, outs: seq<FileOutcome>,
                     name: string, o: FileOutcome)
    requires |outs| == |names| && Picked(w, pool, horizontal, vertical, decode, names, outs)
    requires o.Unreadable? <==> Open(w, Join(pool, name), decode).NotAnImage?
    requires !o.Unreadable? ==> o.target == Target(Open(w, Join(pool, name), decode).size, horizontal, vertical, name)
    ensures Picked(w, pool, horizontal, vertical, decode, names + [name], outs + [o])
  {
    assert forall i :: 0 <= i < |names| ==> (names + [name])[i] == names[i] && (outs + [o])[i] == outs[i];
  }

  /** Over separate paths, every file of any prefix is read as it was at
      the start, so its outcome and target are those of its original bytes. */
  lemma {:induction false} GroupRunPicked(w: World, pool: Path, horizontal: Path, vertical: Path,
                                          names: seq<string>, decode: (Path, Bytes) -> Decoded, k: nat)
    requires k <= |names| && Separate(w, pool, horizontal, vertical, names)
    ensures Picked(w, pool, horizontal, vertical, decode, names[..k],
                   GroupRun(w, pool, horizontal, vertical, names[..k], decode).outcomes)
    decreases k
  {
    if k > 0 {
      var n := k - 1;
      GroupRunPicked(w, pool, horizontal, vertical, names, decode, n);
      GroupRunTracked(w, pool, horizontal, vertical, names, decode, n);
      var prev := GroupRun(w, pool, horizontal, vertical, names[..n], decode);
      FreshFile(w, pool, horizontal, vertical, names, n, prev);
      PickedNew(w, pool, horizontal, vertical, names[n], decode, prev.world);
      GroupRunStep(w, pool, horizontal, vertical, names, n, decode);
      PickedExtend(w, pool, horizontal, vertical, decode, names[..n], prev.outcomes, names[n],
                   GroupFile(prev.world, pool, horizontal, vertical, names[n], decode).outcome);
      assert names[..k] == names[..n] + [names[n]];
    } else {
      assert names[..0] == [];
    }
  }

  /** The whole loop: each outcome and target is fixed by the original bytes. */
  lemma PickedAll(w: World, pool: Path, horizontal: Path, vertical: Path,
                  names: seq<string>, decode: (Path, Bytes) -> Decoded)
    requires Separate(w, pool, horizontal, vertical, names)
    ensures var r := GroupRun(w, pool, horizontal, vertical, names, decode);
      && |r.outcomes| == |names|
      && Picked(w, pool, horizontal, vertical, decode, names, r.outcomes)
  {
    GroupRunPicked(w, pool, horizontal, vertical, names, decode, |names|);
    assert names[..|names|] == names;
  }

  /** Every path the group loop may have changed is the source of a moved
      file or the target of a readable one. */
  lemma {:induction false} ChangedMembers(pool: Path, names: seq<string>, outs: seq<FileOutcome>, p: Path)
    requires |outs| == |names| && p in Changed(pool, names, outs)
    ensures exists i :: 0 <= i < |names| && ((outs[i].Moved? && p == Join(pool, names[i]))
                                             || (!outs[i].Unreadable? && p == outs[i].target))
    decreases |names|
  {
    var n := |names| - 1;
    if p in Changed(pool, names[..n], outs[..n]) {
      ChangedMembers(pool, names[..n], outs[..n], p);
      var i :| 0 <= i < n &&
        ((outs[..n][i].Moved? && p == Join(pool, names[..n][i])) || (!outs[..n][i].Unreadable? && p == outs[..n][i].target));
      assert outs[..n][i] == outs[i] && names[..n][i] == names[i];
    } else {
      assert (outs[n].Moved? && p == Join(pool, names[n])) || (!outs[n].Unreadable? && p == outs[n].target);
    }
  }

  /** A file the loop did not move is still in the pool as it was. */
  lemma UnmovedSame(w: World, pool: Path, horizontal: Path, vertical: Path, names: seq<string>, r: Run)
    requires Separate(w, pool, horizontal, vertical, names) && Tracked(w, pool, horizontal, vertical, names, r)
    ensures forall i :: 0 <= i < |names| && !r.outcomes[i].Moved? ==>
      Same(r.world.files, w.files, Join(pool, names[i]))
  {
    var C := Changed(pool, names, r.outcomes);
    forall i | 0 <= i < |names| && !r.outcomes[i].Moved?
      ensures Same(r.world.files, w.files, Join(pool, names[i]))
    {
      if Join(pool, names[i]) in C {
        ChangedMembers(pool, names, r.outcomes, Join(pool, names[i]));
        assert false;
      }
      AgreeOff(r.world.files, w.files, C, Join(pool, names[i]));
    }
  }

  /** The files a group loop leaves when the names lead to separate paths:
      each moved file is in its target folder, under its name, with its
      original bytes, and gone from the pool; each file left in the pool is
      as it was; a failed move leaves at most a stray copy at its target;
      every other path is as it was. */
  lemma GroupRunFiles(w: World, pool: Path, horizontal: Path, vertical: Path, names: seq<string>,
                      decode: (Path, Bytes) -> Decoded)
    requires Separate(w, pool, horizontal, vertical, names)
    ensures var r := GroupRun(w, pool, horizontal, vertical, names, decode);
      && (forall i :: 0 <= i < |names| ==>
            (r.outcomes[i].Unreadable? <==> Open(w, Join(pool, names[i]), decode).NotAnImage?))
      && (forall i :: 0 <= i < |names| && !r.outcomes[i].Unreadable? ==>
            r.outcomes[i].target == Target(Open(w, Join(pool, names[i]), decode).size, horizontal, vertical, names[i]))
      && (forall i :: 0 <= i < |names| && !r.outcomes[i].Unreadable? ==>
            r.outcomes[i].target == Join(horizontal, names[i]) || r.outcomes[i].target == Join(vertical, names[i]))
      && (forall i :: 0 <= i < |names| && r.outcomes[i].Moved? ==>
            MovedHere(w, r.world, Join(pool, names[i]), r.outcomes[i].target))
      && (forall i :: 0 <= i < |names| && !r.outcomes[i].Moved? ==>
            Same(r.world.files, w.files, Join(pool, names[i])))
      && (forall i :: 0 <= i < |names| && r.outcomes[i].NotMoved? ==>
            StrayAt(w, r.world, Join(pool, names[i]), r.outcomes[i].target))
      && r.world.files - Changed(pool, names, r.outcomes) == w.files - Changed(pool, names, r.outcomes)
  {
    GroupRunTracked(w, pool, horizontal, vertical, names, decode, |names|);
    assert names[..|names|] == names;
    UnmovedSame(w, pool, horizontal, vertical, names, GroupRun(w, pool, horizontal, vertical, names, decode));
    PickedAll(w, pool, horizontal, vertical, names, decode);
  }

  /** The paths the records of a ledger name. */
  function Endpoints(ledger: seq<Record>): set<Path>
    decreases |ledger|
  {
    if ledger == [] then {}
    else
      var n := |ledger| - 1;
      Endpoints(ledger[..n]) + {ledger[n].current, ledger[n].original}
  }

  /** Every path a ledger names belongs to one of its records. */
  lemma {:induction false} EndpointsMembers(ledger: seq<Record>, p: Path)
    requires p in Endpoints(ledger)
    ensures exists x :: x in ledger && (p == x.current || p == x.original)
    decreases |ledger|
  {
    var n := |ledger| - 1;
    if p in Endpoints(ledger[..n]) {
      EndpointsMembers(ledger[..n], p);
      var x :| x in ledger[..n] && (p == x.current || p == x.original);
      assert x in ledger;
    } else {
      assert ledger[n] in ledger;
    }
  }

  /** No two records of the ledger share a path, and no record's current
      path is any record's original path. */
  ghost predicate Spread(ledger: seq<Record>)
  {
    forall a, b :: a in ledger && b in ledger ==>
      a.current != b.original && (a != b ==> a.current != b.current && a.original != b.original)
  }

  /** What reversing the ledger has done: every reversal returned True, the
      script is still fault-free, each record's file is back at its original
      path with its bytes, and every other path is as it was. */
  ghost predicate Undone(w: World, ledger: seq<Record>, r: Reversal)
  {
    && FaultFree(r.world)
    && (forall i :: 0 <= i < |r.oks| ==> r.oks[i])
    && (forall x :: x in ledger ==> MovedHere(w, r.world, x.current, x.original))
    && r.world.files - Endpoints(ledger) == w.files - Endpoints(ledger)
  }

  /** The undo loop carried over one more record. */
  lemma UndoneExtend(w: World, ledger: seq<Record>, rec: Record, prev: Reversal)
    requires Undone(w, ledger, prev) && Spread(ledger + [rec]) && rec !in ledger
    requires rec.current in w.files
    ensures var back := SafeOperation(prev.world, MoveOp, rec.current, rec.original);
      Undone(w, ledger + [rec], Reversal(back.world, prev.oks + [back.ok]))
  {
    var cur, orig := rec.current, rec.original;
    var back := SafeOperation(prev.world, MoveOp, cur, orig);
    var E := Endpoints(ledger);
    var L := ledger + [rec];
    assert rec in L;
    forall x | x in ledger
      ensures cur != x.current && cur != x.original && orig != x.current && orig != x.original
    {
      assert x in L;
    }
    assert cur !in E by {
      if cur in E {
        EndpointsMembers(ledger, cur);
      }
    }
    AgreeOff(prev.world.files, w.files, E, cur);
    FaultFreeConsume(prev.world);
    CalmMoveSucceeds(prev.world, cur, orig);
    MoveGuarantee(prev.world, cur, orig);
    FaultFreeRetry(prev.world, MoveOp, cur, orig, MaxRetries);
    forall x | x in ledger
      ensures Same(back.world.files, prev.world.files, x.current)
      ensures Same(back.world.files, prev.world.files, x.original)
    {
      AgreeOff(back.world.files, prev.world.files, {cur, orig}, x.current);
      AgreeOff(back.world.files, prev.world.files, {cur, orig}, x.original);
    }
    MinusWiden(back.world.files, prev.world.files, {cur, orig}, E + {cur, orig});
    MinusWiden(prev.world.files, w.files, E, E + {cur, orig});
    assert L[..|ledger|] == ledger;
    assert Endpoints(L) == E + {cur, orig};
  }

  /** Without faults, undoing a ledger whose records share no path and whose
      files are all at their current paths moves every one of them back and
      touches nothing else. */
  lemma {:induction false} UndoRunRestores(w: World, ledger: seq<Record>)
    requires FaultFree(w) && Distinct(ledger) && Spread(ledger)
    requires forall x :: x in ledger ==> x.current in w.files
    ensures Undone(w, ledger, UndoRun(w, ledger))
    decreases |ledger|
  {
    if ledger != [] {
      var n := |ledger| - 1;
      var pre := ledger[..n];
      assert ledger == pre + [ledger[n]];
      assert forall x :: x in pre ==> x in ledger;
      assert ledger[n] !in pre;
      UndoRunRestores(w, pre);
      UndoneExtend(w, pre, ledger[n], UndoRun(w, pre));
    }
  }

  /** What reversing a ledger has done under any fault script: a record
      whose reversal returned True has its file back at its original path;
      one whose reversal gave up still has its file at its current path, and
      at most a stray copy of it at its original path; every path no record
      names is as it was. */
  ghost predicate Reverted(w: World, ledger: seq<Record>, r: Reversal)
  {
    && |r.oks| == |ledger|
    && (forall i :: 0 <= i < |ledger| && r.oks[i] ==>
          MovedHere(w, r.world, ledger[i].current, ledger[i].original))
    && (forall i :: 0 <= i < |ledger| && !r.oks[i] ==>
          Same(r.world.files, w.files, ledger[i].current) && StrayAt(w, r.world, ledger[i].current, ledger[i].original))
    && r.world.files - Endpoints(ledger) == w.files - Endpoints(ledger)
  }

  /** One record's reversal, while both of its paths are as they were in w. */
  lemma ReverseRecord(w: World, prev: World, cur: Path, orig: Path)
    requires cur != orig && Same(prev.files, w.files, cur) && Same(prev.files, w.files, orig)
    ensures var back := SafeOperation(prev, MoveOp, cur, orig);
      && back.world.files - {cur, orig} == prev.files - {cur, orig}
      && (back.ok ==> MovedHere(w, back.world, cur, orig))
      && (!back.ok ==> Same(back.world.files, w.files, cur) && StrayAt(w, back.world, cur, orig))
  {
    var back := SafeOperation(prev, MoveOp, cur, orig);
    MoveGuarantee(prev, cur, orig);
    if !back.ok {
      MinusWiden(back.world.files, prev.files, {orig}, {cur, orig});
    }
  }

  /** A record added to a spread ledger shares no path with the records
      before it. */
  lemma FreshRecord(ledger: seq<Record>, rec: Record)
    requires Spread(ledger + [rec]) && rec !in ledger
    ensures rec.current != rec.original
    ensures rec.current !in Endpoints(ledger) && rec.original !in Endpoints(ledger)
    ensures forall x :: x in ledger ==>
      rec.current != x.current && rec.current != x.original && rec.original != x.current && rec.original != x.original
  {
    var L := ledger + [rec];
    assert rec in L;
    forall x | x in ledger
      ensures rec.current != x.current && rec.current != x.original && rec.original != x.current && rec.original != x.original
    {
      assert x in L;
    }
    if rec.current in Endpoints(ledger) {
      EndpointsMembers(ledger, rec.current);
    }
    if rec.original in Endpoints(ledger) {
      EndpointsMembers(ledger, rec.original);
    }
  }

  /** Paths outside a reversal's two paths are untouched for the records
      before it. */
  lemma OthersUntouched(ledger: seq<Record>, rec: Record, a: map<Path, Bytes>, b: map<Path, Bytes>)
    requires a - {rec.current, rec.original} == b - {rec.current, rec.original}
    requires forall x :: x in ledger ==>
      rec.current != x.current && rec.current != x.original && rec.original != x.current && rec.original != x.original
    ensures forall i :: 0 <= i < |ledger| ==> Same(a, b, ledger[i].current) && Same(a, b, ledger[i].original)
  {
    forall i | 0 <= i < |ledger|
      ensures Same(a, b, ledger[i].current) && Same(a, b, ledger[i].original)
    {
      assert ledger[i] in ledger;
      AgreeOff(a, b, {rec.current, rec.original}, ledger[i].current);
      AgreeOff(a, b, {rec.current, rec.original}, ledger[i].original);
    }
  }

  /** The paths of a ledger with one more record. */
  lemma EndpointsStep(ledger: seq<Record>, rec: Record)
    ensures Endpoints(ledger + [rec]) == Endpoints(ledger) + {rec.current, rec.original}
  {
    assert (ledger + [rec])[..|ledger|] == ledger;
  }

  /** `Reverted` carried over one more record, given what its reversal did. */
  lemma RevertedAssemble(w: World, ledger: seq<Record>, rec: Record, prev: Reversal, back: World, ok: bool)
    requires Reverted(w, ledger, prev)
    requires forall i :: 0 <= i < |ledger| ==>
      Same(back.files, prev.world.files, ledger[i].current) && Same(back.files, prev.world.files, ledger[i].original)
    requires ok ==> MovedHere(w, back, rec.current, rec.original)
    requires !ok ==> Same(back.files, w.files, rec.current) && StrayAt(w, back, rec.current, rec.original)
    requires var t := Endpoints(ledger) + {rec.current, rec.original};
      back.files - t == w.files - t
    ensures Reverted(w, ledger + [rec], Reversal(back, prev.oks + [ok]))
  {
    var L := ledger + [rec];
    var oks := prev.oks + [ok];
    forall i | 0 <= i < |L| && oks[i]
      ensures MovedHere(w, back, L[i].current, L[i].original)
    {
      if i < |ledger| {
        assert L[i] == ledger[i] && prev.oks[i];
      }
    }
    forall i | 0 <= i < |L| && !oks[i]
      ensures Same(back.files, w.files, L[i].current) && StrayAt(w, back, L[i].current, L[i].original)
    {
      if i < |ledger| {
        assert L[i] == ledger[i] && !prev.oks[i];
      }
    }
    EndpointsStep(ledger, rec);
  }

  /** `Reverted` carried over one more record. */
  lemma RevertedExtend(w: World, ledger: seq<Record>, rec: Record, prev: Reversal)
    requires Reverted(w, ledger, prev) && Spread(ledger + [rec]) && rec !in ledger
    ensures var back := SafeOperation(prev.world, MoveOp, rec.current, rec.original);
      Reverted(w, ledger + [rec], Reversal(back.world, prev.oks + [back.ok]))
  {
    var cur, orig := rec.current, rec.original;
    var back := SafeOperation(prev.world, MoveOp, cur, orig);
    var E := Endpoints(ledger);
    FreshRecord(ledger, rec);
    AgreeOff(prev.world.files, w.files, E, cur);
    AgreeOff(prev.world.files, w.files, E, orig);
    ReverseRecord(w, prev.world, cur, orig);
    OthersUntouched(ledger, rec, back.world.files, prev.world.files);
    MinusWiden(back.world.files, prev.world.files, {cur, orig}, E + {cur, orig});
    MinusWiden(prev.world.files, w.files, E, E + {cur, orig});
    RevertedAssemble(w, ledger, rec, prev, back.world, back.ok);
  }

  /** The undo loop over any prefix keeps `Reverted`, whatever the faults. */
  lemma {:induction false} UndoRunReverts(w: World, ledger: seq<Record>)
    requires Distinct(ledger) && Spread(ledger)
    ensures Reverted(w, ledger, UndoRun(w, ledger))
    decreases |ledger|
  {
    if ledger != [] {
      var n := |ledger| - 1;
      var pre := ledger[..n];
      assert ledger == pre + [ledger[n]];
      assert forall x :: x in pre ==> x in ledger;
      assert ledger[n] !in pre;
      UndoRunReverts(w, pre);
      RevertedExtend(w, pre, ledger[n], UndoRun(w, pre));
    }
  }

  /** Under any fault script, on a ledger whose records share no path, each
      reversal that returned True moved its file from its current path back
      to its original path, each one that gave up left its file at its
      current path, and no path outside the records changed. */
  lemma UndoKeepsFailed(w: World, ledger: seq<Record>)
    requires Distinct(ledger) && Spread(ledger)
    ensures var r := UndoRun(w, ledger);
      && (forall i :: 0 <= i < |ledger| && r.oks[i] ==>
            MovedHere(w, r.world, ledger[i].current, ledger[i].original))
      && (forall i :: 0 <= i < |ledger| && !r.oks[i] ==>
            Same(r.world.files, w.files, ledger[i].current))
      && (forall i :: 0 <= i < |ledger| && !r.oks[i] ==>
            StrayAt(w, r.world, ledger[i].current, ledger[i].original))
      && r.world.files - Endpoints(ledger) == w.files - Endpoints(ledger)
  {
    UndoRunReverts(w, ledger);
  }

  /** After undo_last_operation, the records it keeps are exactly those
      whose file is still at its current path as before, and every record it
      drops has had its file moved back. */
  lemma UndoLedgerMatchesFiles(w: World, ledger: seq<Record>)
    requires ledger != [] && Distinct(ledger) && Spread(ledger)
    ensures var u := Undo(w, ledger);
      && (forall x :: x in u.ledger ==> x in ledger && Same(u.world.files, w.files, x.current))
      && (forall x :: x in ledger && x !in u.ledger ==> MovedHere(w, u.world, x.current, x.original))
      && u.world.files - Endpoints(ledger) == w.files - Endpoints(ledger)
  {
    var u := Undo(w, ledger);
    var r := UndoRun(w, ledger);
    UndoKeepsFailed(w, ledger);
    UndoOutcome(w, ledger);
    forall x | x in u.ledger
      ensures x in ledger && Same(u.world.files, w.files, x.current)
    {
      var i :| 0 <= i < |ledger| && ledger[i] == x;
    }
    forall x | x in ledger && x !in u.ledger
      ensures MovedHere(w, u.world, x.current, x.original)
    {
      var i :| 0 <= i < |ledger| && ledger[i] == x && r.oks[i];
    }
  }

  /** A ledger from a pool whose file paths are distinct lists no record
      twice. */
  lemma {:induction false} RecordsDistinct(pool: Path, names: seq<string>, outs: seq<FileOutcome>)
    requires |outs| == |names|
    requires forall i, j :: 0 <= i < |names| && 0 <= j < |names| && i != j ==>
      Join(pool, names[i]) != Join(pool, names[j])
    ensures Distinct(Records(pool, names, outs))
    decreases |names|
  {
    if names != [] {
      var n := |names| - 1;
      var pre := Records(pool, names[..n], outs[..n]);
      assert forall i :: 0 <= i < n ==> names[..n][i] == names[i];
      RecordsDistinct(pool, names[..n], outs[..n]);
      if outs[n].Moved? {
        var rec := Record(outs[n].target, Join(pool, names[n]));
        RecordsMembers(pool, names[..n], outs[..n]);
        assert rec !in pre;
        var l := pre + [rec];
        forall i, j | 0 <= i < j < |l|
          ensures l[i] != l[j]
        {
          if j < |pre| {
            assert l[i] == pre[i] && l[j] == pre[j];
          } else {
            assert l[i] in pre;
          }
        }
      }
    }
  }

  /** The records of a separate batch share no path. */
  lemma RecordsSpread(w: World, pool: Path, horizontal: Path, vertical: Path, names: seq<string>,
                      outs: seq<FileOutcome>)
    requires |outs| == |names| && Chosen(horizontal, vertical, names, outs)
    requires Separate(w, pool, horizontal, vertical, names)
    ensures Spread(Records(pool, names, outs))
  {
    var l := Records(pool, names, outs);
    RecordsMembers(pool, names, outs);
    forall a, b | a in l && b in l
      ensures a.current != b.original && (a != b ==> a.current != b.current && a.original != b.original)
    {
      var i :| 0 <= i < |names| && outs[i].Moved? && a == Record(outs[i].target, Join(pool, names[i]));
      var j :| 0 <= j < |names| && outs[j].Moved? && b == Record(outs[j].target, Join(pool, names[j]));
    }
  }

  /** Without failed moves, the paths the group loop changed are exactly
      the paths its ledger names. */
  lemma {:induction false} ChangedIsEndpoints(pool: Path, names: seq<string>, outs: seq<FileOutcome>)
    requires |outs| == |names| && forall i :: 0 <= i < |outs| ==> !outs[i].NotMoved?
    ensures Changed(pool, names, outs) == Endpoints(Records(pool, names, outs))
    decreases |names|
  {
    if names != [] {
      var n := |names| - 1;
      assert forall i :: 0 <= i < n ==> outs[..n][i] == outs[i];
      ChangedIsEndpoints(pool, names[..n], outs[..n]);
      var pre := Records(pool, names[..n], outs[..n]);
      if outs[n].Moved? {
        var l := pre + [Record(outs[n].target, Join(pool, names[n]))];
        assert l[..|pre|] == pre;
      } else {
        assert pre + [] == pre;
      }
    }
  }

  /** A ledger whose every reversal succeeded is the list of successful
      undos itself. */
  lemma {:induction false} AllSucceeded(ledger: seq<Record>, oks: seq<bool>)
    requires |oks| == |ledger| && forall i :: 0 <= i < |oks| ==> oks[i]
    ensures Succeeded(ledger, oks) == ledger
    decreases |ledger|
  {
    if ledger != [] {
      var n := |ledger| - 1;
      assert forall i :: 0 <= i < n ==> oks[..n][i] == oks[i];
      AllSucceeded(ledger[..n], oks[..n]);
      assert ledger == ledger[..n] + [ledger[n]];
    }
  }

  /** Removing a list that holds every record leaves nothing. */
  lemma {:induction false} NothingLeft(ledger: seq<Record>, removed: seq<Record>)
    requires forall x :: x in ledger ==> x in removed
    ensures Without(ledger, removed) == []
    decreases |ledger|
  {
    if ledger != [] {
      var n := |ledger| - 1;
      assert ledger[n] in ledger;
      assert forall x :: x in ledger[..n] ==> x in ledger;
      NothingLeft(ledger[..n], removed);
    }
  }

  /** The ledger of a fault-free group batch over separate paths: its
      records are distinct and share no path, each names a file that went
      from its original path to its current one, no current path existed
      before, and the batch changed exactly the paths the ledger names. */
  lemma GroupLedger(w: World, pool: Path, horizontal: Path, vertical: Path, names: seq<string>,
                    decode: (Path, Bytes) -> Decoded)
    requires FaultFree(w) && Separate(w, pool, horizontal, vertical, names)
    ensures var r := GroupRun(w, pool, horizontal, vertical, names, decode);
      var l := Records(pool, names, r.outcomes);
      && FaultFree(r.world)
      && Distinct(l) && Spread(l)
      && (forall x :: x in l ==> MovedHere(w, r.world, x.original, x.current) && x.current !in w.files)
      && r.world.files - Endpoints(l) == w.files - Endpoints(l)
  {
    var r := GroupRun(w, pool, horizontal, vertical, names, decode);
    var l := Records(pool, names, r.outcomes);
    GroupRunFiles(w, pool, horizontal, vertical, names, decode);
    FaultFreeGroup(w, pool, horizontal, vertical, names, decode);
    assert forall i :: 0 <= i < |names| ==> !r.outcomes[i].NotMoved?;
    ChangedIsEndpoints(pool, names, r.outcomes);
    RecordsDistinct(pool, names, r.outcomes);
    RecordsSpread(w, pool, horizontal, vertical, names, r.outcomes);
    RecordsMembers(pool, names, r.outcomes);
    forall x | x in l
      ensures MovedHere(w, r.world, x.original, x.current) && x.current !in w.files
    {
      var i :| 0 <= i < |names| && r.outcomes[i].Moved? && x == Record(r.outcomes[i].target, Join(pool, names[i]));
    }
  }

  /** Moving every record's file back after the moves a ledger records
      gives back the original files, when no current path existed before. */
  lemma BackWhereItWas(w: World, there: World, ledger: seq<Record>, back: Reversal)
    requires forall x :: x in ledger ==> MovedHere(w, there, x.original, x.current) && x.current !in w.files
    requires there.files - Endpoints(ledger) == w.files - Endpoints(ledger)
    requires Undone(there, ledger, back)
    ensures back.world.files == w.files
  {
    var E := Endpoints(ledger);
    forall p
      ensures (p in back.world.files <==> p in w.files) && (p in w.files ==> back.world.files[p] == w.files[p])
    {
      if p in E {
        EndpointsMembers(ledger, p);
        var x :| x in ledger && (p == x.current || p == x.original);
        assert MovedHere(w, there, x.original, x.current) && MovedHere(there, back.world, x.current, x.original);
      } else {
        AgreeOff(back.world.files, there.files, E, p);
        AgreeOff(there.files, w.files, E, p);
      }
    }
  }

  /** Undo, without faults, after a batch whose ledger has the shape
      GroupLedger describes: every file goes back and no record is kept. */
  lemma UndoAfterGroup(w: World, there: World, ledger: seq<Record>)
    requires FaultFree(there) && Distinct(ledger) && Spread(ledger)
    requires forall x :: x in ledger ==> MovedHere(w, there, x.original, x.current) && x.current !in w.files
    requires there.files - Endpoints(ledger) == w.files - Endpoints(ledger)
    ensures Undo(there, ledger).world.files == w.files && Undo(there, ledger).ledger == []
  {
    if ledger == [] {
      assert there.files - {} == there.files && w.files - {} == w.files;
    } else {
      UndoRunRestores(there, ledger);
      var back := UndoRun(there, ledger);
      BackWhereItWas(w, there, ledger, back);
      AllSucceeded(ledger, back.oks);
      NothingLeft(ledger, ledger);
    }
  }

  /** Round trip: a group batch over separate paths followed by an undo
      batch, with no fault injected in either, gives back the files the
      pool held and leaves the ledger empty. */
  lemma GroupThenUndo(w: World, ledger: seq<Record>, pool: Path, horizontal: Path, vertical: Path,
                      names: seq<string>, decode: (Path, Bytes) -> Decoded)
    requires FaultFree(w) && pool != "" && horizontal != "" && vertical != ""
    requires Separate(w, pool, horizontal, vertical, ImageFiles(names))
    ensures var g := Group(w, ledger, pool, horizontal, vertical, Entries(names), decode);
      var u := Undo(g.world, g.ledger);
      u.world.files == w.files && u.ledger == []
  {
    var images := ImageFiles(names);
    var g := Group(w, ledger, pool, horizontal, vertical, Entries(names), decode);
    if images != [] {
      var r := GroupRun(w, pool, horizontal, vertical, images, decode);
      assert g.world == r.world && g.ledger == Records(pool, images, r.outcomes);
      GroupLedger(w, pool, horizontal, vertical, images, decode);
      UndoAfterGroup(w, r.world, g.ledger);
    }
  }
}
