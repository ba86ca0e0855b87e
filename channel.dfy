/** The messages a worker puts on the queue for the window's polling loop,
    and the shape every operation's message sequence has. */
module Channel {

  datatype Phase = Grouping | Undoing

  /** One queued message. A progress message carries the files processed
      and the total: its value is count / total * 100 and its status text
      names the same two numbers. */
  datatype Event =
    | Progress(count: nat, total: nat, phase: Phase)
    | Warning(message: string)
    | Error(message: string)
    | Info(message: string)
    | Done

  /** A progress message is posted every BatchSize files. */
  const BatchSize: nat := 10

  const SelectAllFolders: string := "Please select all folders"
  const NoImagesFound: string := "No image files found in Pool folder"
  const GroupedOk: string := "Images grouped successfully!"
  const NothingToUndo: string := "Nothing to undo"
  const UndoneOk: string := "Undo completed successfully!"

  /** The progress message for the n-th processed file, if that file ends a
      batch or is the last one. */
  function Tick(n: nat, total: nat, phase: Phase): seq<Event>
  {
    if n % BatchSize == 0 || n == total then [Progress(n, total, phase)] else []
  }

  /** "\n".join(lines). */
  function JoinLines(lines: seq<string>): string
  {
    if lines == [] then ""
    else if |lines| == 1 then lines[0]
    else lines[0] + "\n" + JoinLines(lines[1..])
  }

  /** The one closing message before `done`: a warning that joins every
      collected error when there is any, the success text otherwise. */
  function Terminal(errors: seq<string>, success: string): Event
  {
    if errors != [] then Warning(JoinLines(errors)) else Info(success)
  }

  /** The messages of one complete operation: progress messages only, then
      exactly one warning, info or error, then `done`; an error is never
      preceded by progress. */
  ghost predicate OperationEvents(es: seq<Event>)
  {
    && |es| >= 2
    && es[|es| - 1] == Done
    && (es[|es| - 2].Warning? || es[|es| - 2].Info? || es[|es| - 2].Error?)
    && (forall i :: 0 <= i < |es| - 2 ==> es[i].Progress?)
    && (es[|es| - 2].Error? ==> |es| == 2)
  }

  /** Proof helper: the queue after a closing message and `done` are
      appended, regrouped as the queue before plus the operation's messages. */
  lemma Posted(queue: seq<Event>, progress: seq<Event>, closing: Event)
    ensures queue + progress + [closing] + [Done] == queue + (progress + [closing, Done])
  {
  }

  /** In such a sequence `done` comes once, at the end. */
  lemma DoneOnlyAtEnd(es: seq<Event>)
    requires OperationEvents(es)
    ensures forall i :: 0 <= i < |es| ==> (es[i] == Done <==> i == |es| - 1)
    ensures Done !in es[..|es| - 1]
  {
    assert forall i :: 0 <= i < |es| - 1 ==> es[..|es| - 1][i] == es[i];
  }
}
