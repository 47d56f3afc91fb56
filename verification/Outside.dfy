// What a restore does outside the managed region when no link stands above a
// managed path: it makes missing directories above originally present paths,
// and a link that stands where a file was recorded makes it write the recorded
// file to the place the link leads to.
module Outside {
  import opened FileTree
  import opened Snapshots
  import opened Straying
  import opened Shelter

  // Outside the managed region nothing changes, except that missing
  // ancestors of an originally present managed path become directories.
  ghost predicate OutsideKept(s: Snapshot, t: Tree, u: Tree) {
    && (forall p :: p in t && !Managed(s.paths, p) ==> p in u && u[p] == t[p])
    && (forall p :: p in u && p !in t && !Managed(s.paths, p) ==>
          u[p] == Dir(NEW_DIRECTORY_MODE) && exists m :: m in s.existed && p < m)
  }

  lemma OutsideKeptTransitive(s: Snapshot, t: Tree, u: Tree, v: Tree)
    requires OutsideKept(s, t, u) && OutsideKept(s, u, v)
    ensures OutsideKept(s, t, v)
  {
    forall p | p in v && p !in t && !Managed(s.paths, p)
      ensures v[p] == Dir(NEW_DIRECTORY_MODE) && exists m :: m in s.existed && p < m
    {
      if p in u { assert v[p] == u[p]; }
    }
  }

  // No recorded path has a link above it.
  ghost predicate KeysStraight(s: Snapshot, t: Tree) {
    forall k :: k in Keys(s) ==> Straight(t, k)
  }

  lemma KeySorts(s: Snapshot, k: Path)
    requires Coherent(s) && (k in s.files || k in s.links)
    ensures Managed(s.paths, k) && k !in s.dirs && k != []
  {
    assert k in Keys(s);
  }

  // ---------------------------------------------------------------------
  // One turn of the file loop and of the link loop
  // ---------------------------------------------------------------------

  function FileUpdate(t: Tree, f: Path, saved: SavedFile): Outcome {
    var written := WriteFile(t, f, saved.contents, saved.mode);
    if written.error.Some? then written else Chmod(written.tree, f, saved.mode)
  }

  function RewriteFile(t: Tree, f: Path, saved: SavedFile): Outcome
    requires f != []
  {
    var made := MkdirAll(t, Parent(f));
    if made.error.Some? then made else FileUpdate(made.tree, f, saved)
  }

  function RelinkTree(t: Tree, l: Path, target: Target): Outcome
    requires l != []
  {
    if Lstat(t, l) == Found(Link(target)) then Outcome(t, None)
    else
      var removed := RemoveAll(t, l);
      if removed.error.Some? then removed
      else
        var made := MkdirAll(removed.tree, Parent(l));
        if made.error.Some? then made else Symlink(made.tree, target, l)
  }

  // ---------------------------------------------------------------------
  // Links that lead out of the region
  // ---------------------------------------------------------------------

  // The place that the link at f leads to.
  ghost function Aim(t: Tree, f: Path): Path {
    if f in t && t[f].Link? && f != [] then LeadsTo(t[f].target, Parent(f)) else []
  }

  // A place outside the region where a file can be written: a file, or nothing
  // in a directory, and not above an originally present managed path.
  ghost predicate Writable(s: Snapshot, t: Tree, q: Path) {
    && !Managed(s.paths, q) && q != [] && Reachable(t, q)
    && if q in t then t[q].File? else forall m :: m in s.existed ==> !(q < m)
  }

  // Links that stand where files were recorded lead to such places, different
  // ones to different places.
  ghost predicate LinksLeadOut(s: Snapshot, t: Tree) {
    && (forall f :: LinkForFile(s, t, f) ==> Writable(s, t, Aim(t, f)))
    && (forall f, g :: LinkForFile(s, t, f) && LinkForFile(s, t, g) && f != g ==> Aim(t, f) != Aim(t, g))
  }

  ghost predicate NoFileLinks(s: Snapshot, t: Tree) {
    forall f :: !LinkForFile(s, t, f)
  }

  // The recorded file f at the place p.
  ghost predicate HoldsFile(s: Snapshot, t: Tree, f: Path, p: Path)
    requires f in s.files
  {
    p in t && t[p] == File(s.files[f].contents, s.files[f].mode)
  }

  ghost predicate AimedAt(s: Snapshot, t: Tree, done: set<Path>, p: Path) {
    exists f :: f in done && LinkForFile(s, t, f) && Aim(t, f) == p
  }

  // The places that the links at the recorded files in `done` lead to hold
  // those files; nothing else changed outside the region.
  ghost predicate WrittenThrough(s: Snapshot, t: Tree, u: Tree, done: set<Path>) {
    && (forall f :: f in done && LinkForFile(s, t, f) ==> HoldsFile(s, u, f, Aim(t, f)))
    && (forall p :: p in t && !Managed(s.paths, p) && !AimedAt(s, t, done, p) ==> p in u && u[p] == t[p])
    && (forall p :: p in u && p !in t && !Managed(s.paths, p) && !AimedAt(s, t, done, p) ==>
          u[p] == Dir(NEW_DIRECTORY_MODE) && exists m :: m in s.existed && p < m)
  }

  // The links lead to copies of the recorded files.
  ghost predicate LinksLeadToCopies(s: Snapshot, t: Tree) {
    forall f :: LinkForFile(s, t, f) ==> HoldsFile(s, t, f, Aim(t, f))
  }

  // Then, and only then, the outside is kept.
  lemma OutsideKeptExactly(s: Snapshot, t: Tree, u: Tree)
    requires LinksLeadOut(s, t) && WrittenThrough(s, t, u, s.files.Keys)
    ensures OutsideKept(s, t, u) <==> LinksLeadToCopies(s, t)
  {
    hide Reachable, Managed, Aim;
    if LinksLeadToCopies(s, t) {
      forall p | p in t && !Managed(s.paths, p) ensures p in u && u[p] == t[p] {
        if AimedAt(s, t, s.files.Keys, p) {
          var f :| f in s.files && LinkForFile(s, t, f) && Aim(t, f) == p;
          assert HoldsFile(s, t, f, p) && HoldsFile(s, u, f, p);
        }
      }
    }
    if OutsideKept(s, t, u) {
      forall f | LinkForFile(s, t, f) ensures HoldsFile(s, t, f, Aim(t, f)) {
        assert HoldsFile(s, u, f, Aim(t, f)) && !Managed(s.paths, Aim(t, f));
      }
    }
  }

  lemma NothingWrittenThrough(s: Snapshot, t: Tree)
    ensures WrittenThrough(s, t, t, {})
  {
  }

  // ---------------------------------------------------------------------
  // Single calls
  // ---------------------------------------------------------------------

  lemma MkdirOutside(s: Snapshot, t: Tree, k: Path, p: Path)
    requires Coherent(s) && Wf(t) && k in Keys(s) && p < k && Straight(t, k)
    ensures OutsideKept(s, t, MkdirAll(t, p).tree) && Wf(MkdirAll(t, p).tree)
    ensures MkdirAll(t, p).error.None? ==> p in MkdirAll(t, p).tree
  {
    hide Wf, Coherent, Keys;
    MkdirAllKeepsKinds(t, p);
    HereStraight(t, p);
    ThereStraight(t, p);
    if Blocked(t, p) {
      MkdirAllBlocked(t, p);
    } else if p !in t || t[p].Dir? {
      MkdirAllStraight(t, p);
      var u := MkdirAll(t, p).tree;
      forall q | q in u && q !in t && !Managed(s.paths, q)
        ensures u[q] == Dir(NEW_DIRECTORY_MODE) && exists m :: m in s.existed && q < m
      {
        AboveKey(s, k, q);
        if q in s.dirs { DirIsManaged(s, q); }
      }
    }
  }

  lemma DirIsManaged(s: Snapshot, d: Path)
    requires Coherent(s) && d in s.dirs
    ensures Managed(s.paths, d)
  {
    assert d in Keys(s);
  }

  // A file that is no link is written at its own path or not at all.
  lemma FileOutside(s: Snapshot, t: Tree, f: Path)
    requires Coherent(s) && Wf(t) && f in s.files && Straight(t, f) && !LinkForFile(s, t, f)
    ensures f != [] && OutsideKept(s, t, RewriteFile(t, f, s.files[f]).tree)
  {
    hide Wf, Coherent, MkdirAll, Locate;
    var saved := s.files[f];
    KeySorts(s, f);
    assert f in Keys(s) && Parent(f) < f;
    MkdirOutside(s, t, f, Parent(f));
    MkdirAllKeepsKinds(t, Parent(f));
    var u := MkdirAll(t, Parent(f)).tree;
    KindsKeptStraight(t, u, f);
    WritesItself(u, f, saved.contents, saved.mode);
    var v := WriteFile(u, f, saved.contents, saved.mode).tree;
    OutsideKeptTransitive(s, t, u, Chmod(v, f, saved.mode).tree);
  }

  lemma KindsKeptStraight(t: Tree, u: Tree, p: Path)
    requires KindsKept(t, u) && Straight(t, p)
    ensures Straight(u, p)
  {
    forall a | a in u && a < p ensures !u[a].Link? {
      if a in t { assert !t[a].Link?; }
    }
  }

  lemma WritesItself(t: Tree, p: Path, contents: Bytes, mode: nat)
    requires Wf(t) && Straight(t, p) && (p in t ==> !t[p].Link?)
    ensures
      var u := WriteFile(t, p, contents, mode).tree;
      forall q :: q != p ==>
        && (q in t <==> q in u && q in Chmod(u, p, mode).tree)
        && (q in t ==> u[q] == t[q] == Chmod(u, p, mode).tree[q])
        && (q in Chmod(u, p, mode).tree ==> q in t)
  {
    hide Locate, Wf;
    HereStraight(t, p);
    ThereStraight(t, p);
    var u := WriteFile(t, p, contents, mode).tree;
    WriteFileKeepsKinds(t, p, contents, mode);
    KindsKeptStraight(t, u, p);
    HereStraight(u, p);
    ThereStraight(u, p);
  }

  // Where a link stands, the file is written to the place it leads to.
  lemma FileThrough(s: Snapshot, t: Tree, f: Path)
    requires Coherent(s) && Wf(t) && LinkForFile(s, t, f) && Writable(s, t, Aim(t, f))
    ensures f != []
    ensures RewriteFile(t, f, s.files[f]).tree == t[Aim(t, f) := File(s.files[f].contents, s.files[f].mode)]
  {
    hide Coherent, Managed, Locate;
    KeySorts(s, f);
    var q, saved := Aim(t, f), s.files[f];
    AncestorsAreDirs(t, f);
    assert Parent(f) == f[..|f| - 1];
    DirectoryIsThere(t, Parent(f));
    LinkLeadsThere(t, f, q);
    WriteFileThere(t, f, q, saved.contents, saved.mode);
    var u := WriteFile(t, f, saved.contents, saved.mode).tree;
    hide MkdirAll, WriteFile;
    assert q != f;
    AddLeafWf(t, q, u[q]);
    StillReachable(t, q, u[q]);
    LinkLeadsThere(u, f, q);
  }

  lemma DirectoryIsThere(t: Tree, p: Path)
    requires Wf(t) && p in t && t[p].Dir?
    ensures MkdirAll(t, p) == Outcome(t, None)
  {
    AncestorsAreDirs(t, p);
    HereStraight(t, p);
    ThereStraight(t, p);
  }

  lemma LinkLeadsThere(t: Tree, f: Path, q: Path)
    requires Wf(t) && f in t && f != [] && t[f].Link? && q == LeadsTo(t[f].target, Parent(f))
    requires Reachable(t, q) && (q in t ==> !t[q].Link?)
    ensures There(t, f) == At(q)
  {
    AncestorsAreDirs(t, f);
    assert [] + f == f;
    CrossesLast(t, [], f, MAX_LINKS);
  }

  lemma {:induction false} CrossesLast(t: Tree, at: Path, rest: Path, hops: nat)
    requires rest != [] && at + rest in t && t[at + rest].Link? && Reachable(t, at + rest) && hops > 0
    requires
      var q := LeadsTo(t[at + rest].target, Parent(at + rest));
      Reachable(t, q) && (q in t ==> !t[q].Link?)
    ensures Locate(t, at, rest, true, hops) == At(LeadsTo(t[at + rest].target, Parent(at + rest)))
    decreases |rest|
  {
    var next := at + [rest[0]];
    if |rest| == 1 {
      assert next == at + rest && Parent(at + rest) == at;
      var target := t[next].target;
      var base := if target.absolute then [] else Climb(at, target.ups);
      assert target.segments + rest[1..] == target.segments;
      LocateReachable(t, base, target.segments, true, hops - 1);
    } else {
      assert next == (at + rest)[..|at| + 1];
      assert at + rest == next + rest[1..];
      CrossesLast(t, next, rest[1..], hops);
    }
  }

  lemma WriteFileThere(t: Tree, f: Path, q: Path, contents: Bytes, mode: nat)
    requires There(t, f) == At(q) && (q in t ==> t[q].File?)
    ensures WriteFile(t, f, contents, mode) == Outcome(t[q := File(contents, if q in t then t[q].mode else mode)], None)
  {
  }

  lemma StillReachable(t: Tree, q: Path, node: Node)
    requires Reachable(t, q)
    ensures Reachable(t[q := node], q)
  {
    forall n: nat | n < |q| ensures q[..n] in t[q := node] && t[q := node][q[..n]].Dir? {
      assert |q[..n]| < |q|;
    }
  }

  // ---------------------------------------------------------------------
  // The file loop
  // ---------------------------------------------------------------------

  // Inside the loop, a link that stands where a file was recorded leads where
  // it led before, and only files already rewritten were written there.
  lemma StaysWritable(s: Snapshot, before: Tree, t: Tree, done: set<Path>, f: Path)
    requires Wf(before) && KindsKept(before, t) && LinksLeadOut(s, before) && WrittenThrough(s, before, t, done)
    requires f !in done && LinkForFile(s, before, f)
    ensures Aim(t, f) == Aim(before, f) && Writable(s, t, Aim(t, f))
  {
    hide Aim;
    assert Aim(t, f) == Aim(before, f) by { SameAim(before, t, f); }
    var q := Aim(before, f);
    assert Writable(s, before, q);
    forall n: nat | n < |q| ensures q[..n] in t && t[q[..n]].Dir? {
      assert q[..n] in before && before[q[..n]].Dir?;
    }
    OthersAimElsewhere(s, before, done, f);
  }

  lemma OthersAimElsewhere(s: Snapshot, t: Tree, done: set<Path>, f: Path)
    requires LinksLeadOut(s, t) && LinkForFile(s, t, f) && f !in done
    ensures !AimedAt(s, t, done, Aim(t, f))
  {
    hide Aim, Writable;
  }

  lemma SameAim(before: Tree, t: Tree, f: Path)
    requires KindsKept(before, t) && f in before && before[f].Link?
    ensures f in t && t[f] == before[f] && Aim(t, f) == Aim(before, f)
  {
  }

  lemma FileTurnOutside(s: Snapshot, before: Tree, t: Tree, done: set<Path>, f: Path)
    requires Coherent(s) && Wf(before) && Wf(t) && KindsKept(before, t) && KeysStraight(s, t)
    requires LinksLeadOut(s, before) && WrittenThrough(s, before, t, done)
    requires f in s.files && f !in done
    ensures f != []
    ensures WrittenThrough(s, before, RewriteFile(t, f, s.files[f]).tree, done + {f})
  {
    hide Coherent, Wf, Aim, Reachable, Managed, RewriteFile;
    KeySorts(s, f);
    var u := RewriteFile(t, f, s.files[f]).tree;
    if LinkForFile(s, before, f) {
      StaysWritable(s, before, t, done, f);
      SameAim(before, t, f);
      FileThrough(s, t, f);
      WroteOneMore(s, before, t, u, done, f);
    } else {
      assert f in Keys(s);
      assert !LinkForFile(s, t, f);
      FileOutside(s, t, f);
      WroteInside(s, before, t, u, done, f);
    }
  }

  lemma WroteOneMore(s: Snapshot, before: Tree, t: Tree, u: Tree, done: set<Path>, f: Path)
    requires LinksLeadOut(s, before) && WrittenThrough(s, before, t, done)
    requires f !in done && LinkForFile(s, before, f)
    requires u == t[Aim(before, f) := File(s.files[f].contents, s.files[f].mode)]
    ensures WrittenThrough(s, before, u, done + {f})
  {
    hide Aim, Writable, Managed;
    var now := done + {f};
    forall g | g in now && LinkForFile(s, before, g) ensures HoldsFile(s, u, g, Aim(before, g)) {
      if g != f { assert HoldsFile(s, t, g, Aim(before, g)); }
    }
    assert AimedAt(s, before, now, Aim(before, f));
    forall p | AimedAt(s, before, done, p) ensures AimedAt(s, before, now, p) {
      var g :| g in done && LinkForFile(s, before, g) && Aim(before, g) == p;
      assert g in now;
    }
  }

  lemma WroteInside(s: Snapshot, before: Tree, t: Tree, u: Tree, done: set<Path>, f: Path)
    requires LinksLeadOut(s, before) && WrittenThrough(s, before, t, done)
    requires !LinkForFile(s, before, f) && OutsideKept(s, t, u)
    ensures WrittenThrough(s, before, u, done + {f})
  {
    hide Aim, Managed, Reachable;
    var now := done + {f};
    forall g | g in now && LinkForFile(s, before, g) ensures HoldsFile(s, u, g, Aim(before, g)) {
      assert g in done && HoldsFile(s, t, g, Aim(before, g));
      assert Writable(s, before, Aim(before, g));
    }
    forall p ensures AimedAt(s, before, done, p) <==> AimedAt(s, before, now, p) {
      if g :| g in now && LinkForFile(s, before, g) && Aim(before, g) == p { assert g in done; }
      if g :| g in done && LinkForFile(s, before, g) && Aim(before, g) == p { assert g in now; }
    }
    forall p | p in u && p !in before && !Managed(s.paths, p) && !AimedAt(s, before, now, p)
      ensures u[p] == Dir(NEW_DIRECTORY_MODE) && exists m :: m in s.existed && p < m
    {
      if p in t { assert u[p] == t[p]; }
    }
  }

  // ---------------------------------------------------------------------
  // The link loop, and the phases together
  // ---------------------------------------------------------------------

  lemma RelinkOutside(s: Snapshot, t: Tree, l: Path)
    requires Coherent(s) && Wf(t) && l in s.links && KeysStraight(s, t)
    ensures l != [] && OutsideKept(s, t, RelinkTree(t, l, s.links[l]).tree)
  {
    hide Wf, Coherent, MkdirAll, Locate, Lstat, RemoveAll, Symlink;
    KeySorts(s, l);
    assert l in Keys(s) && Parent(l) < l;
    RemoveAllStraight(t, l);
    var u := RemoveAll(t, l).tree;
    assert OutsideKept(s, t, u);
    assert Straight(u, l);
    MkdirOutside(s, u, l, Parent(l));
    MkdirAllKeepsKinds(u, Parent(l));
    var v := MkdirAll(u, Parent(l)).tree;
    KindsKeptStraight(u, v, l);
    LinksItself(v, s.links[l], l);
    OutsideKeptTransitive(s, t, u, v);
    OutsideKeptTransitive(s, t, v, Symlink(v, s.links[l], l).tree);
  }

  lemma LinksItself(t: Tree, target: Target, l: Path)
    requires Wf(t) && Straight(t, l)
    ensures forall q :: q != l ==>
      && (q in t <==> q in Symlink(t, target, l).tree)
      && (q in t ==> Symlink(t, target, l).tree[q] == t[q])
  {
    hide Locate, Wf;
    HereStraight(t, l);
  }

  // The phases before the file loop leave such links and what they lead to.
  lemma LinksStillLeadOut(s: Snapshot, t: Tree, u: Tree)
    requires LinksLeadOut(s, t) && OutsideKept(s, t, u) && SameFileLinks(s, t, u)
    ensures LinksLeadOut(s, u)
  {
    hide LeadsTo;
    forall f | LinkForFile(s, u, f) ensures Writable(s, u, Aim(u, f)) {
      assert LinkForFile(s, t, f) && Aim(u, f) == Aim(t, f);
      var q := Aim(t, f);
      assert Writable(s, t, q);
      forall n: nat | n < |q| ensures q[..n] in u && u[q[..n]].Dir? {
        NotAboveRegion(s, q, q[..n]);
        assert q[..n] in t && t[q[..n]].Dir?;
      }
    }
  }

  lemma NotAboveRegion(s: Snapshot, q: Path, a: Path)
    requires !Managed(s.paths, q) && a <= q
    ensures !Managed(s.paths, a)
  {
    forall m | m in s.paths ensures !(m <= a) {
      assert m <= a ==> m <= q;
    }
  }

  ghost predicate SameFileLinks(s: Snapshot, t: Tree, u: Tree) {
    && (forall f :: LinkForFile(s, t, f) <==> LinkForFile(s, u, f))
    && (forall f :: LinkForFile(s, t, f) ==> f in u && u[f] == t[f])
  }

  // What holds after the directories holds from the beginning, and what the
  // links keep is kept to the end.
  lemma OutsideThroughout(s: Snapshot, t0: Tree, t3: Tree, t4: Tree, t5: Tree)
    requires LinksLeadOut(s, t0) && OutsideKept(s, t0, t3) && OutsideKept(s, t4, t5)
    requires SameFileLinks(s, t0, t3)
    requires WrittenThrough(s, t3, t4, s.files.Keys)
    ensures WrittenThrough(s, t0, t5, s.files.Keys)
  {
    hide Managed, LeadsTo;
  }
}
