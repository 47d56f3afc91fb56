// Projects in which generators left links at or above managed paths, and what
// the restore makes of them.
module LinkExamples {
  import opened FileTree
  import opened Snapshots
  import opened Straying
  import opened Shelter
  import opened Outside
  import opened Phases
  import opened Mirror
  import opened MirroredCalls
  import opened Rollback
  import opened Generators

  // ---------------------------------------------------------------------
  // A link where a file was recorded
  // ---------------------------------------------------------------------

  const GO_MOD: Path := ["go.mod"]
  const NOTES: Path := ["notes.txt"]

  // A project whose go.mod was replaced by a link to a file of the user.
  const PROJECT: Tree := map[[] := Dir(NEW_DIRECTORY_MODE), GO_MOD := File("module example", 0x1A4)]

  const LINKED: Tree := map[
    [] := Dir(NEW_DIRECTORY_MODE), GO_MOD := Link(Target(false, 0, NOTES)), NOTES := File("notes", 0x1A4)]

  const RECORDED: Snapshot :=
    Snapshot(PATHS, {GO_MOD}, map[GO_MOD := SavedFile("module example", 0x1A4)], map[], map[])

  lemma HeadsOfPaths(m: Path)
    requires m in PATHS
    ensures m != [] && m[0] != "notes.txt" && (m[0] == "go.mod" ==> m == GO_MOD)
  {
  }

  lemma FlatTree(t: Tree)
    requires [] in t && t[[]].Dir? && forall p :: p in t ==> p in {[], GO_MOD, NOTES}
    ensures Wf(t) && AllStraight(t, PATHS)
    ensures Managed(PATHS, GO_MOD) && !Managed(PATHS, NOTES) && !Managed(PATHS, [])
    ensures forall m :: m in PATHS && m in t ==> m == GO_MOD
    ensures forall m, p :: m in PATHS && p in t && m <= p ==> p == GO_MOD
    ensures forall m :: m in PATHS ==> !Blocked(t, m)
  {
    forall p, n: nat | p in t && n < |p| ensures p[..n] == [] {}
    forall m | m in PATHS ensures !(m <= NOTES) && !(m <= []) { HeadsOfPaths(m); }
    forall m, p | m in PATHS && p in t && m <= p ensures p == GO_MOD { HeadsOfPaths(m); }
    forall m, p | m in PATHS && p in t && p < m ensures p == [] { HeadsOfPaths(m); }
    assert GO_MOD in PATHS;
  }

  // A managed file that was replaced by a link cannot come back.
  lemma LinkForFileStays()
    ensures Wf(PROJECT) && Wf(LINKED) && AllStraight(PROJECT, PATHS) && AllStraight(LINKED, PATHS)
    ensures Acceptable(PROJECT, PATHS) && Coherent(RECORDED) && Captures(RECORDED, PROJECT)
    ensures !CanComeBack(PROJECT, LINKED) && !Restorable(RECORDED, LINKED)
  {
    FlatTree(PROJECT);
    FlatTree(LINKED);
    hide Wf, Coherent, Managed, AllStraight, Blocked, PATHS;
    forall m | m in PATHS ensures AcceptableAt(PROJECT, m) {
      HeadsOfPaths(m);
      assert Straight(PROJECT, m) by { AlsoStraight(PROJECT, m); }
      AcceptableStraight(PROJECT, m);
    }
    RecordedIsCaptured();
    PathsAreSeparate();
    TreeIsClosed(PROJECT, PATHS);
    CapturesIsCoherent(RECORDED, PROJECT);
  }

  lemma AlsoStraight(t: Tree, m: Path)
    requires AllStraight(t, PATHS) && m in PATHS
    ensures Straight(t, m)
  {
  }

  lemma RecordedIsCaptured()
    ensures Captures(RECORDED, PROJECT)
  {
    FlatTree(PROJECT);
    GoModIsManaged();
    hide Managed, PATHS;
    var region := Region(PATHS, PROJECT);
    assert region == {GO_MOD};
    assert FilesOf(PROJECT, region) == RECORDED.files;
    assert LinksOf(PROJECT, region) == map[] && DirsOf(PROJECT, region) == map[];
    assert (set m | m in PATHS && m in PROJECT) == {GO_MOD};
  }

  lemma GoModIsManaged()
    ensures GO_MOD in PATHS
  {
  }

  // The restore writes the old go.mod through the link, over the file of the
  // user.
  method LinkForFileOverwrites() returns (disk: Workspace)
    ensures !Managed(PATHS, NOTES) && NOTES in LINKED && LINKED[NOTES].contents == "notes"
    ensures NOTES in disk.tree && disk.tree[NOTES] == File("module example", 0x1A4)
    ensures !OutsideKept(RECORDED, LINKED, disk.tree) && !Captures(RECORDED, disk.tree)
  {
    hide Wf, Coherent, Captures, Managed, Restorable, LinksLeadOut, WrittenThrough, LinksLeadToCopies, OutsideKept;
    LinkForFileStays();
    LinkedLeadsOut();
    disk := new Workspace(LINKED);
    var errors := disk.Restore(RECORDED);
    NotesHold(disk.tree);
  }

  lemma LinkedAims()
    ensures forall f :: LinkForFile(RECORDED, LINKED, f) <==> f == GO_MOD
    ensures Aim(LINKED, GO_MOD) == NOTES
    ensures !HoldsFile(RECORDED, LINKED, GO_MOD, NOTES)
  {
    hide PATHS;
    assert Parent(GO_MOD) == [];
  }

  lemma NotesIsWritable()
    ensures Writable(RECORDED, LINKED, NOTES)
  {
    FlatTree(LINKED);
    hide Managed, PATHS;
    assert NOTES[..0] == [];
  }

  lemma LinkedLeadsOut()
    ensures LinksLeadOut(RECORDED, LINKED) && !LinksLeadToCopies(RECORDED, LINKED)
    ensures !Managed(PATHS, NOTES)
  {
    LinkedAims();
    NotesIsWritable();
    hide Managed, PATHS, LinkForFile, Aim, Reachable, HoldsFile;
  }

  lemma NotesHold(t: Tree)
    requires WrittenThrough(RECORDED, LINKED, t, RECORDED.files.Keys)
    ensures NOTES in t && t[NOTES] == File("module example", 0x1A4)
  {
    LinkedAims();
    hide Managed, PATHS, LinkForFile, Aim;
    assert HoldsFile(RECORDED, t, GO_MOD, NOTES);
  }

  // ---------------------------------------------------------------------
  // A link above an absent managed path
  // ---------------------------------------------------------------------

  // An empty service whose generators made `gen` a link to a directory of the
  // user. What they left violates none of the conditions on files.
  const GEN: Path := ["gen"]
  const DOCS: Path := ["docs"]
  const DOCS_HTTP: Path := ["docs", "http"]

  const BEFORE: Tree := map[[] := Dir(NEW_DIRECTORY_MODE)]

  const LEFT: Tree := map[
    [] := Dir(NEW_DIRECTORY_MODE), GEN := Link(Target(false, 0, DOCS)), DOCS := Dir(NEW_DIRECTORY_MODE),
    DOCS_HTTP := File("notes", 0x1A4)]

  const NOTHING: Snapshot := Snapshot(PATHS, {}, map[], map[], map[])

  lemma LeftIsTree()
    ensures Wf(BEFORE) && Wf(LEFT) && Coherent(NOTHING) && Captures(NOTHING, BEFORE)
    ensures forall p :: p in {GEN, DOCS, DOCS_HTTP, []} ==> !Managed(PATHS, p)
  {
    PathsAreSeparate();
    LeftIsUnmanaged();
    hide PATHS;
    assert GEN[..0] == [] && DOCS[..0] == [] && DOCS_HTTP[..0] == [] && DOCS_HTTP[..1] == DOCS;
    NothingIsCaptured();
    NothingIsCoherent();
  }

  lemma LeftIsUnmanaged()
    ensures forall p :: p in {GEN, DOCS, DOCS_HTTP, []} ==> !Managed(PATHS, p)
  {
    PathsAreSeparate();
    forall m | m in PATHS ensures !(m <= []) && !(m <= GEN) && !(m <= DOCS) && !(m <= DOCS_HTTP) {
      SameHead(m, DOCS_HTTP);
      SameHead(m, DOCS);
      assert |m| > 1 || m[0] != "gen";
      SameHead(m, GEN);
    }
  }

  lemma NothingIsCaptured()
    ensures Captures(NOTHING, BEFORE)
  {
    LeftIsUnmanaged();
    hide Managed;
    forall m | m in PATHS ensures m != [] { HeadsOfPaths(m); }
    hide PATHS;
    assert Region(PATHS, BEFORE) == {};
    assert FilesOf(BEFORE, {}) == map[] && LinksOf(BEFORE, {}) == map[] && DirsOf(BEFORE, {}) == map[];
    assert (set m | m in PATHS && m in BEFORE) == {};
  }

  lemma NothingIsCoherent()
    ensures Coherent(NOTHING)
  {
    PathsAreSeparate();
    hide Separate, Managed, PATHS;
    assert Keys(NOTHING) == {};
  }

  lemma SameHead(m: Path, p: Path)
    requires m != [] && p != []
    ensures m <= p ==> m[0] == p[0] && |m| <= |p|
  {
  }

  // Where a link stands above an absent managed path, the restore removes what
  // the link leads to: here a file outside the managed region is lost,
  // although the region itself comes back.
  method LinkAboveLosesOutside() returns (disk: Workspace)
    ensures Restorable(NOTHING, LEFT) && ExistedStraight(NOTHING, LEFT) && Captures(NOTHING, disk.tree)
    ensures !Managed(PATHS, DOCS_HTTP) && DOCS_HTTP in LEFT && DOCS_HTTP !in disk.tree
    ensures !OutsideKept(NOTHING, LEFT, disk.tree)
  {
    hide Wf, Coherent, Captures, Managed, Vanished, OutOfReach, Shrunk;
    LeftIsTree();
    disk := new Workspace(LEFT);
    var errors := disk.Restore(NOTHING);
    GenIsOutOfReach();
    assert Spares(NOTHING, LEFT, disk.tree, GEN);
    assert GEN + ["http"] == PATHS[3];
    assert LeadsTo(LEFT[GEN].target, Parent(GEN)) + ["http"] == DOCS_HTTP;
    LinkAboveLoses(NOTHING, disk.tree, GEN, ["http"]);
  }

  lemma GenIsOutOfReach()
    ensures OutOfReach(NOTHING, LEFT, GEN)
  {
    LeftIsTree();
    hide Managed;
    assert LeadsTo(LEFT[GEN].target, Parent(GEN)) == DOCS;
    assert DOCS[0] != GEN[0];
  }

  // ---------------------------------------------------------------------
  // A link above a managed path that was there from the beginning
  // ---------------------------------------------------------------------

  // A project in which gen leads to docs from the beginning, and whose
  // generators rewrote what gen/http shows: it can show the same again.
  const CHANGED: Tree := LEFT[DOCS_HTTP := File("other", 0x1A4)]

  const GEN_HTTP: Path := ["gen", "http"]

  // The trees with the nodes of LEFT.
  ghost predicate LikeLeft(t: Tree) {
    && t.Keys == LEFT.Keys && t[[]].Dir? && t[GEN] == LEFT[GEN] && t[DOCS].Dir? && t[DOCS_HTTP].File?
  }

  lemma BehindGen(t: Tree, x: Name)
    requires LikeLeft(t)
    ensures Here(t, [GEN[0], x]) == At([DOCS[0], x])
    ensures Visits(t, [], [GEN[0], x], MAX_LINKS) == {GEN, DOCS}
  {
    var m := [GEN[0], x];
    var rest := [DOCS[0], x];
    assert [] + [m[0]] == GEN && DOCS + m[1..] == rest;
    assert Climb([], 0) == [];
    assert [] + [rest[0]] == DOCS && rest[1..] == [x];
    assert Locate(t, DOCS, [x], false, MAX_LINKS - 1) == At(rest);
    assert Locate(t, [], rest, false, MAX_LINKS - 1) == At(rest);
    assert Visits(t, DOCS, [x], MAX_LINKS - 1) == {};
    assert Visits(t, [], rest, MAX_LINKS - 1) == {DOCS};
  }

  lemma Elsewhere(t: Tree, m: Path)
    requires LikeLeft(t) && m in PATHS && m[0] != GEN[0]
    ensures |m| > 1 ==> Here(t, m) == Failed(ENOENT) && Visits(t, [], m, MAX_LINKS) == {[m[0]]}
    ensures |m| == 1 ==> Here(t, m) == At(m) && Visits(t, [], m, MAX_LINKS) == {}
  {
    assert m[0] != DOCS[0];
    assert [] + [m[0]] == [m[0]];
    assert [m[0]] !in t;
    if |m| == 1 { assert m == [m[0]]; }
  }

  lemma PathsOfGen(m: Path)
    requires m in PATHS && m[0] == GEN[0]
    ensures |m| == 2 && m == [GEN[0], m[1]]
  {
  }

  lemma PlacesOfPaths(t: Tree, m: Path)
    requires LikeLeft(t) && m in PATHS
    ensures Leads(t, m) ==> Place(t, m) == if m[0] == GEN[0] then [DOCS[0], m[1]] else m
    ensures Leads(t, m) ==> m[0] == GEN[0] || |m| == 1
    ensures Leads(t, m) ==> m[0] != DOCS[0] && m != []
    ensures forall x :: x in Visits(t, [], m, MAX_LINKS) ==> |x| == 1
    ensures forall x :: x in Visits(t, [], m, MAX_LINKS) ==> x in {GEN, DOCS} || (|m| > 1 && x == [m[0]])
  {
    HeadsOfPaths(m);
    if m[0] == GEN[0] {
      PathsOfGen(m);
      BehindGen(t, m[1]);
    } else {
      Elsewhere(t, m);
    }
  }

  lemma LikeLeftIsSound(t: Tree)
    requires LikeLeft(t)
    ensures Sound(PATHS, t)
  {
    hide Here, Visits, PATHS;
    PathsAreSeparate();
    assert GEN[..0] == [] && DOCS[..0] == [] && DOCS_HTTP[..0] == [] && DOCS_HTTP[..1] == DOCS;
    assert Wf(t);
    forall m, n | m in PATHS && n in PATHS && Leads(t, m) && Leads(t, n) && m != n
      ensures !(Place(t, m) <= Place(t, n))
    {
      PlacesOfPaths(t, m);
      PlacesOfPaths(t, n);
      ShortPaths(m, n);
      PlacesDiffer(m, n, Place(t, m), Place(t, n));
    }
    forall m, x, n | m in PATHS && x in Visits(t, [], m, MAX_LINKS) && n in PATHS && Leads(t, n)
      ensures !(Place(t, n) <= x)
    {
      PlacesOfPaths(t, m);
      PlacesOfPaths(t, n);
      ShortPaths(m, n);
      OffTheWay(m, n, x, Place(t, n));
    }
  }

  // What is needed of the managed paths in such a tree.
  lemma ShortPaths(m: Path, n: Path)
    requires m in PATHS && n in PATHS && m != [] && n != []
    ensures |n| == 1 && |m| > 1 ==> n[0] != m[0]
    ensures |n| == 1 ==> n != GEN && n != DOCS
    ensures m[0] == GEN[0] ==> |m| == 2
    ensures n[0] == GEN[0] ==> |n| == 2
  {
  }

  lemma PlacesDiffer(m: Path, n: Path, p: Path, q: Path)
    requires m != [] && n != [] && m != n && m[0] != DOCS[0] && n[0] != DOCS[0]
    requires if m[0] == GEN[0] then |m| == 2 && p == [DOCS[0], m[1]] else |m| == 1 && p == m
    requires if n[0] == GEN[0] then |n| == 2 && q == [DOCS[0], n[1]] else |n| == 1 && q == n
    ensures !(p <= q)
  {
    PrefixHeads(p, q);
    if |m| == 2 && |n| == 2 {
      assert p[1] == m[1] && q[1] == n[1];
    } else if |m| == 1 && |n| == 1 {
      assert p != q;
    }
  }

  lemma PrefixHeads(p: Path, q: Path)
    ensures p <= q && p != [] ==> p[0] == q[0]
    ensures p <= q && |p| == |q| ==> p == q
  {
  }

  lemma OffTheWay(m: Path, n: Path, x: Path, q: Path)
    requires m != [] && n != [] && n[0] != DOCS[0]
    requires x == GEN || x == DOCS || (|m| > 1 && x == [m[0]])
    requires if n[0] == GEN[0] then |n| == 2 && q == [DOCS[0], n[1]] else |n| == 1 && q == n
    requires |n| == 1 && |m| > 1 ==> n[0] != m[0]
    ensures !(q <= x)
  {
    PrefixHeads(q, x);
  }

  lemma LinkAboveIsNoObstacle()
    ensures Wf(LEFT) && Wf(CHANGED) && CanShowAgain(LEFT, CHANGED)
    ensures GEN_HTTP in View(LEFT, PATHS) && View(LEFT, PATHS)[GEN_HTTP] == File("notes", 0x1A4)
    ensures GEN_HTTP in View(CHANGED, PATHS) && View(CHANGED, PATHS)[GEN_HTTP] == File("other", 0x1A4)
  {
    hide PATHS, View, Here, Visits;
    LikeLeftIsSound(LEFT);
    LikeLeftIsSound(CHANGED);
    ShownInLeft(LEFT);
    ShownInLeft(CHANGED);
  }

  lemma WalkOfLeft(t: Tree, m: Path, p: Path)
    requires LikeLeft(t) && m in PATHS && p in Walk(t, m)
    ensures p == m == GEN_HTTP
  {
    PlacesOfPaths(t, m);
    if m[0] == GEN[0] { PathsOfGen(m); }
    ShortPaths(m, m);
    hide PATHS, Here, Visits;
    var q := Place(t, m);
    var x :| x in t && q <= x && p == m + x[|q|..];
    OnlyBehindGen(t, m, q, x);
    assert x[|q|..] == [];
  }

  lemma OnlyBehindGen(t: Tree, m: Path, q: Path, x: Path)
    requires t.Keys == LEFT.Keys && x in t && q <= x && m != [] && m[0] != DOCS[0]
    requires if m[0] == GEN[0] then |m| == 2 else |m| == 1
    requires q == if m[0] == GEN[0] then [DOCS[0], m[1]] else m
    ensures x == q == DOCS_HTTP && m == GEN_HTTP
  {
    assert x in LEFT.Keys;
    assert q[0] == x[0];
    assert m[0] != GEN[0] ==> m == q;
  }

  // gen/http is the only managed name that shows something.
  lemma ShownInLeft(t: Tree)
    requires LikeLeft(t) && Sound(PATHS, t)
    ensures forall p :: p in View(t, PATHS) <==> p == GEN_HTTP
    ensures View(t, PATHS)[GEN_HTTP] == t[DOCS_HTTP]
    ensures Leads(t, GEN_HTTP)
  {
    GenHttpIsManaged();
    BehindGen(t, GEN_HTTP[1]);
    assert DOCS_HTTP == [DOCS[0], GEN_HTTP[1]];
    assert GEN_HTTP == GEN_HTTP + DOCS_HTTP[|DOCS_HTTP|..];
    assert GEN_HTTP in Walk(t, GEN_HTTP) && Lstat(t, GEN_HTTP) == Found(t[DOCS_HTTP]);
    hide PATHS, Here, Visits, Sound, Walk, Lstat;
    forall m, p | m in PATHS && p in Walk(t, m) ensures p == GEN_HTTP { WalkOfLeft(t, m, p); }
  }

  lemma GenHttpIsManaged()
    ensures GEN_HTTP in PATHS && GEN_HTTP == [GEN[0], GEN_HTTP[1]]
  {
  }
}
