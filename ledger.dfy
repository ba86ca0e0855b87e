/** The undo ledger, moved_files: the (target, source) pair of every move
    the last batch completed, reversed in recorded order by the undo batch,
    which then keeps only the records it could not reverse. */
module Ledger {
  import opened Os
  import opened SafeMover

  /** One ledger entry: where the file is now, and where it came from. */
  datatype Record = Record(current: Path, original: Path)

  /** No record appears twice. */
  ghost predicate Distinct(ledger: seq<Record>)
  {
    forall i, j :: 0 <= i < j < |ledger| ==> ledger[i] != ledger[j]
  }

  /** [op for op in ledger if op not in removed]: removal by value, so every
      copy of a removed record goes. */
  function Without(ledger: seq<Record>, removed: seq<Record>): (r: seq<Record>)
    ensures |r| <= |ledger|
    decreases |ledger|
  {
    if ledger == [] then []
    else
      var n := |ledger| - 1;
      Without(ledger[..n], removed) + (if ledger[n] in removed then [] else [ledger[n]])
  }

  /** The filter keeps exactly the records that are not in the removal list. */
  lemma {:induction false} WithoutMembers(ledger: seq<Record>, removed: seq<Record>)
    ensures forall x :: x in Without(ledger, removed) <==> x in ledger && x !in removed
    decreases |ledger|
  {
    if ledger != [] {
      var n := |ledger| - 1;
      WithoutMembers(ledger[..n], removed);
      assert ledger == ledger[..n] + [ledger[n]];
    }
  }

  /** The result of reversing the ledger: the new world and, per record,
      whether its reverse move returned True. */
  datatype Reversal = Reversal(world: World, oks: seq<bool>)

  /** The undo loop: each record's file is moved from current back to
      original, in ledger order, each with the retrying move. */
  function UndoRun(w: World, ledger: seq<Record>): (r: Reversal)
    ensures |r.oks| == |ledger|
    decreases |ledger|
  {
    if ledger == [] then Reversal(w, [])
    else
      var prev := UndoRun(w, ledger[..|ledger| - 1]);
      var rec := ledger[|ledger| - 1];
      var back := SafeOperation(prev.world, MoveOp, rec.current, rec.original);
      Reversal(back.world, prev.oks + [back.ok])
  }

  /** successful_undos: the records whose reversal returned True, in order. */
  function Succeeded(ledger: seq<Record>, oks: seq<bool>): seq<Record>
    requires |oks| == |ledger|
    decreases |ledger|
  {
    if ledger == [] then []
    else
      var n := |ledger| - 1;
      Succeeded(ledger[..n], oks[..n]) + (if oks[n] then [ledger[n]] else [])
  }

  /** The records whose reversal returned False, in order. */
  function Failed(ledger: seq<Record>, oks: seq<bool>): seq<Record>
    requires |oks| == |ledger|
    decreases |ledger|
  {
    if ledger == [] then []
    else
      var n := |ledger| - 1;
      Failed(ledger[..n], oks[..n]) + (if oks[n] then [] else [ledger[n]])
  }

  /** A record is among the successful undos exactly when one of its
      occurrences in the ledger was reversed. */
  lemma {:induction false} SucceededMembers(ledger: seq<Record>, oks: seq<bool>)
    requires |oks| == |ledger|
    ensures forall x :: x in Succeeded(ledger, oks) <==>
      exists i :: 0 <= i < |ledger| && ledger[i] == x && oks[i]
    decreases |ledger|
  {
    if ledger != [] {
      var n := |ledger| - 1;
      SucceededMembers(ledger[..n], oks[..n]);
      forall x ensures x in Succeeded(ledger, oks) <==> exists i :: 0 <= i < |ledger| && ledger[i] == x && oks[i]
      {
        if x in Succeeded(ledger[..n], oks[..n]) {
          var i :| 0 <= i < n && ledger[..n][i] == x && oks[..n][i];
          assert ledger[i] == x && oks[i];
        }
        if exists i :: 0 <= i < |ledger| && ledger[i] == x && oks[i] {
          var i :| 0 <= i < |ledger| && ledger[i] == x && oks[i];
          if i < n {
            assert ledger[..n][i] == x && oks[..n][i];
          }
        }
      }
    }
  }

  /** What undo keeps: a record stays exactly when no occurrence of it in
      the ledger was reversed. */
  lemma RemainingUnreversed(ledger: seq<Record>, oks: seq<bool>)
    requires |oks| == |ledger|
    ensures forall x :: x in Without(ledger, Succeeded(ledger, oks)) <==>
      x in ledger && forall i :: 0 <= i < |ledger| && ledger[i] == x ==> !oks[i]
  {
    SucceededMembers(ledger, oks);
    WithoutMembers(ledger, Succeeded(ledger, oks));
  }

  /** Removing by value ignores what the removal list says about values
      the ledger does not hold. */
  lemma {:induction false} WithoutAgrees(ledger: seq<Record>, s: seq<Record>, t: seq<Record>)
    requires forall x :: x in ledger ==> (x in s <==> x in t)
    ensures Without(ledger, s) == Without(ledger, t)
    decreases |ledger|
  {
    if ledger != [] {
      var n := |ledger| - 1;
      assert forall x :: x in ledger[..n] ==> x in ledger;
      WithoutAgrees(ledger[..n], s, t);
    }
  }

  /** With no duplicate records, the ledger after undo is exactly the
      records whose reversal failed, in their original order. */
  lemma {:induction false} DistinctKeepsFailed(ledger: seq<Record>, oks: seq<bool>)
    requires |oks| == |ledger| && Distinct(ledger)
    ensures Without(ledger, Succeeded(ledger, oks)) == Failed(ledger, oks)
    decreases |ledger|
  {
    if ledger != [] {
      var n := |ledger| - 1;
      var last := ledger[n];
      var prefix, okp := ledger[..n], oks[..n];
      assert ledger == prefix + [last];
      assert Distinct(prefix);
      DistinctKeepsFailed(prefix, okp);
      SucceededMembers(prefix, okp);
      assert last !in prefix;
      assert last !in Succeeded(prefix, okp);
      var all := Succeeded(ledger, oks);
      assert forall x :: x in prefix ==> (x in all <==> x in Succeeded(prefix, okp));
      WithoutAgrees(prefix, all, Succeeded(prefix, okp));
      assert last in all <==> oks[n];
    }
  }

  /** Removal by value removes duplicates together: with a record listed
      twice whose first reversal succeeded and second failed, nothing is
      left, although one reversal failed. */
  lemma DuplicatesLeaveTogether(x: Record)
    ensures Without([x, x], Succeeded([x, x], [true, false])) == []
    ensures Failed([x, x], [true, false]) == [x]
  {
    assert [x, x][..1] == [x];
    assert [true, false][..1] == [true];
    assert Succeeded([x], [true]) == [x];
    assert Succeeded([x, x], [true, false]) == [x];
    assert [x, x][..1] == [x];
    assert Without([x], [x]) == [];
    assert Failed([x], [true]) == [];
  }
}
