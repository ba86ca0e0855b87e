/** The operating-system calls the move engine makes: os.path.exists,
    os.remove, shutil.copy2, time.sleep, os.listdir, os.path.join and
    os.path.basename. Files are a map from path to bytes; which fallible
    call raises is decided by a fault script, one decision per call. */
module Os {

  type Path = string
  type Bytes = seq<bv8>

  /** What the engine can observe and change: the stored files, the fault
      decisions still to come (true means that call raises; an exhausted
      script raises nothing) and how many retry delays have been taken. */
  datatype World = World(files: map<Path, Bytes>, faults: seq<bool>, sleeps: nat)

  /** The result of one fallible call: the new world and whether the call
      returned normally. */
  datatype Call = Call(world: World, ok: bool)

  /** The result of os.listdir: the entry names, or the exception it raises
      when the directory cannot be read. */
  datatype Listing = Entries(names: seq<string>) | Unlistable

  /** True when the next fallible call is scripted to raise. */
  predicate FaultNext(w: World)
  {
    w.faults != [] && w.faults[0]
  }

  /** The world with the next fault decision used up. */
  function Consume(w: World): World
  {
    if w.faults == [] then w else w.(faults := w.faults[1..])
  }

  /** None of the next n fallible calls is scripted to raise. */
  predicate Calm(w: World, n: nat)
  {
    forall i :: 0 <= i < n && i < |w.faults| ==> !w.faults[i]
  }

  /** No fallible call will ever be scripted to raise. */
  predicate FaultFree(w: World)
  {
    forall i :: 0 <= i < |w.faults| ==> !w.faults[i]
  }

  /** os.remove(p): raises when p does not exist or the script says so. */
  function RemoveFile(w: World, p: Path): Call
  {
    var v := Consume(w);
    if p in w.files && !FaultNext(w) then Call(v.(files := w.files - {p}), true)
    else Call(v, false)
  }

  /** shutil.copy2(src, dst): raises when src does not exist, when src and
      dst are the same file (SameFileError) or when the script says so;
      otherwise dst holds src's bytes, whatever it held before. */
  function CopyFile(w: World, src: Path, dst: Path): Call
  {
    var v := Consume(w);
    if src in w.files && src != dst && !FaultNext(w) then Call(v.(files := w.files[dst := w.files[src]]), true)
    else Call(v, false)
  }

  /** time.sleep(retry_delay), counted rather than timed. */
  function Delay(w: World): World
  {
    w.(sleeps := w.sleeps + 1)
  }

  /** Consuming decisions keeps a fault-free script fault-free. */
  lemma CalmAfterConsume(w: World, n: nat)
    requires Calm(w, n + 1)
    ensures Calm(Consume(w), n)
  {
    if w.faults != [] {
      forall i | 0 <= i < n && i < |Consume(w).faults|
        ensures !Consume(w).faults[i]
      {
        assert Consume(w).faults[i] == w.faults[i + 1];
      }
    }
  }

  /** A fault-free script stays fault-free as decisions are used up. */
  lemma FaultFreeConsume(w: World)
    requires FaultFree(w)
    ensures FaultFree(Consume(w)) && Calm(w, 3)
  {
    if w.faults != [] {
      assert forall i :: 0 <= i < |w.faults| - 1 ==> w.faults[1..][i] == w.faults[i + 1];
    }
  }

  /** os.path.join(dir, name) with POSIX rules: an absolute name replaces
      the directory, and no separator is doubled. */
  function Join(dir: Path, name: string): Path
  {
    if |name| > 0 && name[0] == '/' then name
    else if dir == [] || dir[|dir| - 1] == '/' then dir + name
    else dir + "/" + name
  }

  /** A relative name is placed after the directory and ends the path; an
      absolute name is the whole result. */
  lemma JoinPlacesName(dir: Path, name: string)
    ensures |name| > 0 && name[0] == '/' ==> Join(dir, name) == name
    ensures (|name| == 0 || name[0] != '/') ==>
      var p := Join(dir, name);
      |dir| + |name| <= |p| && p[..|dir|] == dir && p[|p| - |name|..] == name
  {
  }

  /** A folder path that is not empty and does not end in '/'. */
  predicate PlainFolder(d: Path)
  {
    d != [] && d[|d| - 1] != '/'
  }

  /** A directory entry's name: not empty, and without '/'. */
  predicate PlainName(n: string)
  {
    n != [] && '/' !in n
  }

  /** Joining a plain name to a plain folder determines both: distinct
      folders, or distinct names, give distinct paths. */
  lemma JoinInjective(d: Path, e: Path, n: string, m: string)
    requires PlainFolder(d) && PlainFolder(e) && PlainName(n) && PlainName(m)
    ensures Join(d, n) == Join(e, m) ==> d == e && n == m
  {
    assert n[0] in n && m[0] in m;
    var p := Join(d, n);
    if p == Join(e, m) {
      assert p == d + "/" + n && p == e + "/" + m;
      // the separator before the name is the last '/' of the path
      assert forall k :: |d| < k < |p| ==> p[k] == n[k - |d| - 1];
      assert forall k :: |e| < k < |p| ==> p[k] == m[k - |e| - 1];
      assert p[|d|] == '/' && p[|e|] == '/';
      assert d == p[..|d|] && e == p[..|e|];
      assert n == p[|d| + 1..] && m == p[|e| + 1..];
    }
  }

  /** os.path.basename(p): everything after the last '/'. */
  function Basename(p: Path): string
    decreases |p|
  {
    if p == [] || p[|p| - 1] == '/' then []
    else Basename(p[..|p| - 1]) + [p[|p| - 1]]
  }

  /** The basename is the last path segment: a suffix of p without any
      '/', preceded by a '/' unless it is all of p. */
  lemma {:induction false} BasenameIsLastSegment(p: Path)
    ensures var b := Basename(p);
      && |b| <= |p| && b == p[|p| - |b|..]
      && '/' !in b
      && (|b| < |p| ==> p[|p| - |b| - 1] == '/')
    decreases |p|
  {
    if p != [] && p[|p| - 1] != '/' {
      var q := p[..|p| - 1];
      BasenameIsLastSegment(q);
      var b := Basename(q);
      assert q[|q| - |b|..] + [p[|p| - 1]] == p[|p| - |b| - 1..];
    }
  }

  /** The file store and fault oracle as the mutable object the engine
      calls into. */
  class FileSystem {
    var files: map<Path, Bytes>
    var faults: seq<bool>
    var sleeps: nat

    function State(): World
      reads this
    {
      World(files, faults, sleeps)
    }

    constructor (files: map<Path, Bytes>, faults: seq<bool>)
      ensures State() == World(files, faults, 0)
    {
      this.files := files;
      this.faults := faults;
      this.sleeps := 0;
    }

    /** os.path.exists(p). */
    method Exists(p: Path) returns (b: bool)
      ensures b <==> p in files
    {
      b := p in files;
    }

    /** os.remove(p); ok is false where Python raises. */
    method Remove(p: Path) returns (ok: bool)
      modifies this
      ensures Call(State(), ok) == RemoveFile(old(State()), p)
    {
      var fault := faults != [] && faults[0];
      if faults != [] {
        faults := faults[1..];
      }
      ok := p in files && !fault;
      if ok {
        files := files - {p};
      }
    }

    /** shutil.copy2(src, dst); ok is false where Python raises. */
    method Copy2(src: Path, dst: Path) returns (ok: bool)
      modifies this
      ensures Call(State(), ok) == CopyFile(old(State()), src, dst)
    {
      var fault := faults != [] && faults[0];
      if faults != [] {
        faults := faults[1..];
      }
      ok := src in files && src != dst && !fault;
      if ok {
        files := files[dst := files[src]];
      }
    }

    /** time.sleep(retry_delay). */
    method Sleep()
      modifies this
      ensures State() == Delay(old(State()))
    {
      sleeps := sleeps + 1;
    }
  }
}
