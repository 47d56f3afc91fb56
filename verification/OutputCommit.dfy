// All-or-nothing writing of the OpenAPI outputs
// (internal/generator/openapi/generate.go, commitGeneratedOutputs).
module OutputCommit {
  type Bytes = string
  type Files = map<string, File>

  datatype File = File(contents: Bytes, mode: nat)

  datatype Option<+T> = None | Some(value: T)

  datatype Output = Output(path: string, contents: Bytes)

  datatype Verdict = Unreadable | Written | Failed(rollbackFailures: nat)

  // The mode of a file that comes into being as a temporary file.
  const TEMPORARY_MODE := 0x180

  // writeManaged and atomicWrite: an existing file keeps its mode.
  function Rewritten(files: Files, path: string, contents: Bytes): File {
    File(contents, if path in files then files[path].mode else TEMPORARY_MODE)
  }

  // The files after the first n outputs were written.
  function WriteAll(files: Files, outputs: seq<Output>, n: nat): Files
    requires n <= |outputs|
  {
    if n == 0 then files else
      var before := WriteAll(files, outputs, n - 1);
      before[outputs[n - 1].path := Rewritten(before, outputs[n - 1].path, outputs[n - 1].contents)]
  }

  function Paths(outputs: seq<Output>): set<string> {
    set o | o in outputs :: o.path
  }

  ghost predicate SameOutside(files: Files, after: Files, paths: set<string>) {
    forall p :: p !in paths ==> (p in files <==> p in after) && (p in files ==> after[p] == files[p])
  }

  lemma {:induction false} WriteAllStaysInside(files: Files, outputs: seq<Output>, n: nat)
    requires n <= |outputs|
    ensures SameOutside(files, WriteAll(files, outputs, n), Paths(outputs))
  {
    if n > 0 { WriteAllStaysInside(files, outputs, n - 1); }
  }

  lemma {:induction false} WriteAllKeepsModes(files: Files, outputs: seq<Output>, n: nat)
    requires n <= |outputs|
    ensures forall p :: p in files ==>
                          p in WriteAll(files, outputs, n) && WriteAll(files, outputs, n)[p].mode == files[p].mode
  {
    if n > 0 { WriteAllKeepsModes(files, outputs, n - 1); }
  }

  // Every path that is listed holds the contents of its last listing, an
  // existing file with the mode it had.
  lemma {:induction false} WrittenOutputs(files: Files, outputs: seq<Output>, n: nat, i: nat)
    requires i < n <= |outputs| && forall k :: i < k < n ==> outputs[k].path != outputs[i].path
    ensures outputs[i].path in WriteAll(files, outputs, n)
    ensures WriteAll(files, outputs, n)[outputs[i].path] ==
              File(outputs[i].contents,
                   if outputs[i].path in files then files[outputs[i].path].mode else TEMPORARY_MODE)
  {
    if i == n - 1 {
      ModeOfWritten(files, outputs, n - 1, outputs[i].path);
    } else {
      WrittenOutputs(files, outputs, n - 1, i);
    }
  }

  lemma {:induction false} ModeOfWritten(files: Files, outputs: seq<Output>, n: nat, p: string)
    requires n <= |outputs|
    ensures p in WriteAll(files, outputs, n) ==>
              WriteAll(files, outputs, n)[p].mode == if p in files then files[p].mode else TEMPORARY_MODE
    ensures p in files ==> p in WriteAll(files, outputs, n)
  {
    if n > 0 { ModeOfWritten(files, outputs, n - 1, p); }
  }

  // Whether the state of p goes back: an atomic write needs the file to be
  // there, and a removal forgives a missing file.
  predicate GoesBack(before: Files, left: Files, p: string, stuck: set<string>) {
    if p in before then p in left && p !in stuck else p in left ==> p !in stuck
  }

  ghost predicate SameAt(files: Files, after: Files, p: string) {
    (p in files <==> p in after) && (p in files ==> after[p] == files[p])
  }

  // The file p is there as before, or absent as before. The snapshot holds no
  // mode, so the mode is the one that the failed commit left.
  ghost predicate ContentsAt(before: Files, left: Files, files: Files, p: string) {
    && (p in before <==> p in files)
    && (p in before ==> p in left && files[p] == File(before[p].contents, left[p].mode))
  }

  // A failing write may leave its own path in any state.
  function Spoil(files: Files, p: string, damage: Option<File>): Files {
    match damage
    case None => files - {p}
    case Some(file) => files[p := file]
  }

  function FileAt(files: Files, p: string): Option<File> {
    if p in files then Some(files[p]) else None
  }

  // An atomic write that fails leaves its path as it was: the program's own
  // writers spoil no mode.
  lemma AtomicWritesKeepModes(before: Files, outputs: seq<Output>, n: nat)
    requires n < |outputs|
    ensures !SpoilsMode(before, outputs[n].path, FileAt(WriteAll(before, outputs, n), outputs[n].path))
  {
    WriteAllKeepsModes(before, outputs, n);
  }

  predicate SpoilsMode(before: Files, p: string, damage: Option<File>) {
    p in before && damage.Some? && damage.value.mode != before[p].mode
  }

  class Disk {
    var files: Files

    // failsAt is the index of the write that fails, if any; damage is what it
    // leaves at its path (for the program's own writers, which write through a
    // temporary file, what was there); unreadable and stuck are the paths on
    // which a read, or a write or removal during rollback, fails.
    method Commit(outputs: seq<Output>, unreadable: set<string>, failsAt: Option<nat>, damage: Option<File>,
        stuck: set<string>)
        returns (v: Verdict)
      requires failsAt.Some? ==> failsAt.value < |outputs|
      modifies this
      ensures v.Unreadable? <==> exists o :: o in outputs && o.path in unreadable && o.path in old(files)
      ensures v.Unreadable? ==> files == old(files)
      ensures v.Written? ==> failsAt.None? && files == WriteAll(old(files), outputs, |outputs|)
      ensures v.Failed? ==> failsAt.Some? && SameOutside(old(files), files, Paths(outputs))
      ensures v.Failed? ==>
                var left := Spoil(WriteAll(old(files), outputs, failsAt.value), outputs[failsAt.value].path, damage);
                && (v.rollbackFailures == 0 <==> forall o :: o in outputs ==> GoesBack(old(files), left, o.path, stuck))
                && (forall o :: o in outputs && GoesBack(old(files), left, o.path, stuck) ==>
                    ContentsAt(old(files), left, files, o.path))
      ensures v.Failed? && v.rollbackFailures == 0 ==>
                (files == old(files) <==> !SpoilsMode(old(files), outputs[failsAt.value].path, damage))
      ensures v.Failed? && v.rollbackFailures == 0 &&
              damage == FileAt(WriteAll(old(files), outputs, failsAt.value), outputs[failsAt.value].path) ==>
                files == old(files)
    {
      hide WriteAll;
      var snapshots: map<string, Option<Bytes>> := map[];
      for i := 0 to |outputs|
        invariant forall j :: 0 <= j < i ==> outputs[j].path in files ==> outputs[j].path !in unreadable
        invariant forall j :: 0 <= j < i ==> outputs[j].path in snapshots
        invariant forall p :: p in snapshots ==> snapshots[p] == if p in files then Some(files[p].contents) else None
      {
        var path := outputs[i].path;
        if path !in files {
          snapshots := snapshots[path := None];
        } else {
          if path in unreadable { return Unreadable; }
          snapshots := snapshots[path := Some(files[path].contents)];
        }
      }
      ghost var before := files;
      NothingWrittenYet(files, outputs);
      for i := 0 to |outputs|
        invariant files == WriteAll(before, outputs, i)
        invariant failsAt.Some? ==> i <= failsAt.value
      {
        if failsAt == Some(i) {
          WriteAllStaysInside(before, outputs, i);
          AtomicWritesKeepModes(before, outputs, i);
          files := Spoil(files, outputs[i].path, damage);
          ghost var left := files;
          var failures := Rollback(outputs, snapshots, stuck, before);
          if failures == 0 { AllBack(before, left, files, outputs, failsAt.value, damage); }
          return Failed(failures);
        }
        WriteOne(before, outputs, i);
        files := files[outputs[i].path := Rewritten(files, outputs[i].path, outputs[i].contents)];
      }
      return Written;
    }

    method Rollback(outputs: seq<Output>, snapshots: map<string, Option<Bytes>>, stuck: set<string>,
        ghost before: Files)
        returns (failures: nat)
      requires forall o :: o in outputs ==> o.path in snapshots
      requires forall p :: p in snapshots ==> snapshots[p] == if p in before then Some(before[p].contents) else None
      requires SameOutside(before, files, Paths(outputs))
      modifies this
      ensures SameOutside(before, files, Paths(outputs))
      ensures failures == 0 <==> forall o :: o in outputs ==> GoesBack(before, old(files), o.path, stuck)
      ensures forall o :: o in outputs && GoesBack(before, old(files), o.path, stuck) ==>
                            ContentsAt(before, old(files), files, o.path)
    {
      hide SameAt, ContentsAt, GoesBack, Halfway, SameOutside, TakenBack;
      failures := 0;
      ghost var left := files;
      Unstarted(before, left, stuck);
      for i := 0 to |outputs|
        invariant failures == 0 <==> forall j :: 0 <= j < i ==> GoesBack(before, left, outputs[j].path, stuck)
        invariant forall j :: 0 <= j < i && GoesBack(before, left, outputs[j].path, stuck) ==>
                                ContentsAt(before, left, files, outputs[j].path)
        invariant Halfway(before, left, files, stuck)
        invariant SameOutside(before, files, Paths(outputs))
      {
        var path := outputs[i].path;
        assert outputs[i] in outputs;
        TakeBackMeans(before, left, files, path, snapshots[path], stuck, Paths(outputs));
        ghost var was := files;
        var after, failed := TakeBack(files, path, snapshots[path], stuck);
        files := after;
        forall j | 0 <= j < i && ContentsAt(before, left, was, outputs[j].path)
          ensures ContentsAt(before, left, files, outputs[j].path)
        {
          TakeBackKeeps(before, left, was, path, snapshots[path], stuck, outputs[j].path);
        }
        if failed { failures := failures + 1; }
      }
    }
  }

  // One turn of the rollback loop: the files after it, and whether it failed.
  method TakeBack(files: Files, path: string, state: Option<Bytes>, stuck: set<string>) returns (after: Files,
      failed: bool)
    ensures (after, failed) == TakenBack(files, path, state, stuck)
  {
    after, failed := files, false;
    if state.None? {
      if path in files {
        if path in stuck { failed := true; } else { after := files - {path}; }
      } else {
        assert files - {path} == files;
      }
    } else if path !in files || path in stuck {
      failed := true;
    } else {
      after := files[path := Rewritten(files, path, state.value)];
    }
  }

  function TakenBack(files: Files, path: string, state: Option<Bytes>, stuck: set<string>): (Files, bool) {
    var failed := if state.None? then path in files && path in stuck else path !in files || path in stuck;
    (if failed then files else if state.None? then files - {path}
        else files[path := Rewritten(files, path, state.value)], failed)
  }

  // Every path is as the failed write left it, or already back.
  ghost predicate Halfway(before: Files, left: Files, files: Files, stuck: set<string>) {
    forall p :: SameAt(left, files, p) || (ContentsAt(before, left, files, p) && GoesBack(before, left, p, stuck))
  }

  lemma Unstarted(before: Files, left: Files, stuck: set<string>)
    ensures Halfway(before, left, left, stuck)
  {
  }

  lemma TakeBackMeans(before: Files, left: Files, files: Files, path: string, state: Option<Bytes>,
      stuck: set<string>, paths: set<string>)
    requires Halfway(before, left, files, stuck) && SameOutside(before, files, paths) && path in paths
    requires state == if path in before then Some(before[path].contents) else None
    ensures var (after, failed) := TakenBack(files, path, state, stuck);
            && (failed <==> !GoesBack(before, left, path, stuck))
            && (!failed ==> ContentsAt(before, left, after, path))
            && Halfway(before, left, after, stuck)
            && SameOutside(before, after, paths)
  {
    var (after, failed) := TakenBack(files, path, state, stuck);
    assert SameAt(left, files, path) || (ContentsAt(before, left, files, path) && GoesBack(before, left, path, stuck));
    forall p
      ensures SameAt(left, after, p) || (ContentsAt(before, left, after, p) && GoesBack(before, left, p, stuck))
    {
      assert SameAt(left, files, p) || (ContentsAt(before, left, files, p) && GoesBack(before, left, p, stuck));
      assert p != path ==> SameAt(files, after, p);
    }
  }

  lemma TakeBackKeeps(before: Files, left: Files, files: Files, path: string, state: Option<Bytes>,
      stuck: set<string>, p: string)
    requires ContentsAt(before, left, files, p)
    requires state == if path in before then Some(before[path].contents) else None
    ensures ContentsAt(before, left, TakenBack(files, path, state, stuck).0, p)
  {
  }

  // With every output back, all is as before but for a mode that the failing
  // write itself changed.
  lemma AllBack(before: Files, left: Files, files: Files, outputs: seq<Output>, failsAt: nat, damage: Option<File>)
    requires failsAt < |outputs| && SameOutside(before, files, Paths(outputs))
    requires left == Spoil(WriteAll(before, outputs, failsAt), outputs[failsAt].path, damage)
    requires forall o :: o in outputs ==> ContentsAt(before, left, files, o.path)
    ensures files == before <==> !SpoilsMode(before, outputs[failsAt].path, damage)
  {
    WriteAllKeepsModes(before, outputs, failsAt);
    hide WriteAll;
    assert ContentsAt(before, left, files, outputs[failsAt].path);
    if !SpoilsMode(before, outputs[failsAt].path, damage) {
      forall p ensures SameAt(before, files, p) {
        if p in Paths(outputs) {
          var o :| o in outputs && o.path == p;
          assert ContentsAt(before, left, files, p);
        }
      }
      SameEverywhere(before, files);
    }
  }

  lemma SameEverywhere(files: Files, after: Files)
    requires forall p :: SameAt(files, after, p)
    ensures after == files
  {
    assert forall p :: SameAt(files, after, p) ==> (p in files <==> p in after);
  }

  lemma NothingWrittenYet(files: Files, outputs: seq<Output>)
    ensures WriteAll(files, outputs, 0) == files
  {
  }

  lemma WriteOne(files: Files, outputs: seq<Output>, n: nat)
    requires n < |outputs|
    ensures WriteAll(files, outputs, n + 1) == WriteAll(files, outputs, n)[
                outputs[n].path := Rewritten(WriteAll(files, outputs, n), outputs[n].path, outputs[n].contents)]
  {
  }
}
