// Each system call of a restore acts on what the managed names show as it acts
// on the tree behind them.
module MirroredCalls {
  import opened FileTree
  import opened Snapshots
  import opened Straying
  import opened Outside
  import opened Mirror

  // A tree in which managed names can be worked on through links.
  ghost predicate Sound(paths: seq<Path>, t: Tree) {
    Wf(t) && Separate(paths) && Apart(paths, t)
  }

  // The managed name k, at or below m, with no link above it.
  ghost predicate Ready(paths: seq<Path>, t: Tree, m: Path, k: Path) {
    Sound(paths, t) && m in paths && m <= k && Leads(t, m) && Straight(Seen(paths, t), k)
  }

  // u is t with changes at the places and below them only, and shows v.
  ghost predicate Becomes(paths: seq<Path>, t: Tree, u: Tree, v: Tree) {
    && Sound(paths, u) && SameOffPlaces(paths, t, u) && SamePlaces(paths, t, u)
    && Seen(paths, u) == v
  }

  lemma BecomesItself(paths: seq<Path>, t: Tree)
    requires Sound(paths, t)
    ensures Becomes(paths, t, t, Seen(paths, t))
  {
    hide Here, Seen;
  }

  lemma BecomesTransitive(paths: seq<Path>, t: Tree, u: Tree, w: Tree, v: Tree)
    requires Becomes(paths, t, u, Seen(paths, u)) && Becomes(paths, u, w, v)
    ensures Becomes(paths, t, w, v)
  {
    hide Here, Seen, Wf;
    SamePlacesOff(paths, t, u);
    forall p | OffPlaces(paths, t, p) ensures SameAt(t, w, p) {
      assert SameAt(t, u, p) && SameAt(u, w, p);
    }
  }

  lemma SeenReflects(paths: seq<Path>, t: Tree, m: Path)
    requires Sound(paths, t) && m in paths && Leads(t, m)
    ensures Reflects(t, Seen(paths, t), m)
  {
    hide Here, Seen, Wf, Shows, Apart, Reachable;
    SeparateIsProper(paths, m);
    SeenIsTree(paths, t);
    SeenMirrors(paths, t);
  }

  // The place of the name k at or below m.
  ghost function PlaceOf(t: Tree, m: Path, k: Path): Path
    requires m <= k
  {
    Place(t, m) + k[|m|..]
  }

  lemma NamesAndPlaces(t: Tree, m: Path, k: Path, l: Path)
    requires m <= k && m <= l
    ensures k <= l <==> PlaceOf(t, m, k) <= PlaceOf(t, m, l)
    ensures k == l <==> PlaceOf(t, m, k) == PlaceOf(t, m, l)
    ensures Place(t, m) <= PlaceOf(t, m, k)
  {
    hide Here;
    var q := Place(t, m);
    assert k == m + k[|m|..] && l == m + l[|m|..];
    assert PlaceOf(t, m, k)[|q|..] == k[|m|..] && PlaceOf(t, m, l)[|q|..] == l[|m|..];
    SamePrefix(m, k[|m|..], l[|m|..]);
    SamePrefix(q, k[|m|..], l[|m|..]);
  }

  lemma SamePrefix(p: Path, x: Path, y: Path)
    ensures p + x <= p + y <==> x <= y
  {
    assert (p + x)[|p|..] == x && (p + y)[|p|..] == y;
    if p + x <= p + y {
      assert (p + y)[..|p + x|] == p + x;
      assert y[..|x|] == (p + y)[|p|..|p| + |x|] == x;
    }
    if x <= y { assert p + y == p + x + y[|x|..]; }
  }

  // Every node below a place has a name.
  lemma NamedBelow(t: Tree, m: Path, y: Path) returns (k: Path)
    requires Place(t, m) <= y
    ensures m <= k && PlaceOf(t, m, k) == y
  {
    hide Here;
    k := m + y[|Place(t, m)|..];
    assert k[|m|..] == y[|Place(t, m)|..];
  }

  // ---------------------------------------------------------------------
  // Changes at one place
  // ---------------------------------------------------------------------

  // A change at and below one place, and the same change in the mirror.
  ghost predicate ChangedAlike(paths: seq<Path>, t: Tree, u: Tree, v: Tree, m: Path) {
    && (forall p :: !(Place(t, m) <= p) ==> SameAt(t, u, p))
    && (forall p :: !(m <= p) ==> SameAt(Seen(paths, t), v, p))
    && (forall k :: m <= k ==> SameNode(v, k, u, PlaceOf(t, m, k)))
  }

  lemma ChangeMirrors(paths: seq<Path>, t: Tree, u: Tree, v: Tree, m: Path)
    requires Sound(paths, t) && Wf(u) && m in paths && Leads(t, m) && ChangedAlike(paths, t, u, v, m)
    ensures Becomes(paths, t, u, v)
  {
    hide Here, Seen, Wf, Apart, Separate;
    forall p | OffPlaces(paths, t, p) ensures SameAt(t, u, p) {
      assert !(Place(t, m) <= p);
    }
    PlacesStay(paths, t, u);
    SamePlacesOff(paths, t, u);
    SeenMirrors(paths, t);
    var w := Seen(paths, t);
    forall n, k | n in paths && n <= k ensures Shows(u, n, v, k) {
      assert Shows(t, n, w, k);
      StillShows(paths, t, u, v, m, n, k);
    }
    forall a | Above(paths, a) ensures a in v && v[a] == Dir(NEW_DIRECTORY_MODE) {
      NotBelowName(paths, m, a);
      assert SameAt(w, v, a);
    }
    forall p | p in v ensures Managed(paths, p) || Above(paths, p) {
      if !(m <= p) { assert SameAt(w, v, p); }
    }
    MirrorIsSeen(paths, u, v);
  }

  lemma StillShows(paths: seq<Path>, t: Tree, u: Tree, v: Tree, m: Path, n: Path, k: Path)
    requires Separate(paths) && Apart(paths, t) && SamePlaces(paths, t, u) && ChangedAlike(paths, t, u, v, m)
    requires m in paths && n in paths && n <= k && Leads(t, m) && Shows(t, n, Seen(paths, t), k)
    ensures Shows(u, n, v, k)
  {
    hide Here, Seen, Apart, Separate;
    assert Place(u, n) == Place(t, n) && (Leads(u, n) <==> Leads(t, n));
    var y := PlaceOf(t, n, k);
    if n == m {
      assert SameNode(v, k, u, y);
    } else {
      OtherName(paths, m, n, k);
      assert SameAt(Seen(paths, t), v, k);
      if Leads(t, n) {
        OtherPlace(paths, t, m, n, k);
        assert SameAt(t, u, y);
      }
    }
  }

  lemma NotBelowName(paths: seq<Path>, m: Path, a: Path)
    requires Separate(paths) && m in paths && Above(paths, a)
    ensures !(m <= a)
  {
    var n :| n in paths && a < n;
    assert m <= a ==> m <= n;
  }

  lemma OtherName(paths: seq<Path>, m: Path, n: Path, k: Path)
    requires Separate(paths) && m in paths && n in paths && m != n && n <= k
    ensures !(m <= k)
  {
    Comparable(m, n, k);
  }

  lemma OtherPlace(paths: seq<Path>, t: Tree, m: Path, n: Path, k: Path)
    requires Apart(paths, t) && m in paths && n in paths && m != n && n <= k && Leads(t, m) && Leads(t, n)
    ensures !(Place(t, m) <= PlaceOf(t, n, k))
  {
    hide Here;
    var p, q, y := Place(t, m), Place(t, n), PlaceOf(t, n, k);
    assert q <= y;
    Comparable(p, q, y);
  }

  lemma Comparable(p: Path, q: Path, y: Path)
    ensures p <= y && q <= y ==> p <= q || q <= p
  {
    if p <= y && q <= y {
      assert p == y[..|p|] && q == y[..|q|];
      assert if |p| <= |q| then p <= q else q <= p;
    }
  }

  lemma PutMirrors(paths: seq<Path>, t: Tree, m: Path, k: Path, node: Node)
    requires Sound(paths, t) && m in paths && m <= k && Leads(t, m) && Wf(t[PlaceOf(t, m, k) := node])
    ensures Becomes(paths, t, t[PlaceOf(t, m, k) := node], Seen(paths, t)[k := node])
  {
    hide Here, Seen, Wf, Apart, Separate;
    var u, v := t[PlaceOf(t, m, k) := node], Seen(paths, t)[k := node];
    SeenMirrors(paths, t);
    NamesAndPlaces(t, m, k, k);
    forall l | m <= l ensures SameNode(v, l, u, PlaceOf(t, m, l)) {
      NamesAndPlaces(t, m, k, l);
      assert Shows(t, m, Seen(paths, t), l);
    }
    ChangeMirrors(paths, t, u, v, m);
  }

  lemma DropMirrors(paths: seq<Path>, t: Tree, m: Path, k: Path)
    requires Sound(paths, t) && m in paths && m <= k && Leads(t, m) && Wf(Without(t, PlaceOf(t, m, k)))
    ensures Becomes(paths, t, Without(t, PlaceOf(t, m, k)), Without(Seen(paths, t), k))
  {
    hide Here, Seen, Wf, Apart, Separate;
    var u, v := Without(t, PlaceOf(t, m, k)), Without(Seen(paths, t), k);
    SeenMirrors(paths, t);
    NamesAndPlaces(t, m, k, k);
    forall l | m <= l ensures SameNode(v, l, u, PlaceOf(t, m, l)) {
      NamesAndPlaces(t, m, k, l);
      assert Shows(t, m, Seen(paths, t), l);
    }
    forall p | !(m <= p) ensures SameAt(Seen(paths, t), v, p) {
      assert !(k <= p);
    }
    ChangeMirrors(paths, t, u, v, m);
  }

  // ---------------------------------------------------------------------
  // Looking
  // ---------------------------------------------------------------------

  lemma WayThrough(paths: seq<Path>, t: Tree, m: Path, k: Path, follow: bool)
    requires Ready(paths, t, m, k) && (follow && k in Seen(paths, t) ==> !Seen(paths, t)[k].Link?)
    ensures
      var there := Locate(Seen(paths, t), [], k, follow, MAX_LINKS);
      && (there.At? ==> there.path == k)
      && Locate(t, [], k, follow, MAX_LINKS) == if there.At? then At(PlaceOf(t, m, k)) else there
    ensures SameNode(Seen(paths, t), k, t, PlaceOf(t, m, k))
    ensures PlaceOf(t, m, k) != [] && Reachable(t, Place(t, m))
  {
    hide Seen, Wf, Locate, Apart, Separate, Reachable, Straight;
    SeenReflects(paths, t, m);
    Through(t, Seen(paths, t), m, k, follow);
    assert Shows(t, m, Seen(paths, t), k);
    SeparateIsProper(paths, m);
    LocateIsProper(t, [], m, MAX_LINKS);
    PlaceIsReachable(t, m);
  }

  lemma LstatMirrors(paths: seq<Path>, t: Tree, m: Path, k: Path)
    requires Ready(paths, t, m, k)
    ensures Lstat(t, k) == Lstat(Seen(paths, t), k)
  {
    hide Seen, Locate, Ready, Place;
    WayThrough(paths, t, m, k, false);
  }

  lemma StatMirrors(paths: seq<Path>, t: Tree, m: Path, k: Path)
    requires Ready(paths, t, m, k) && (k in Seen(paths, t) ==> !Seen(paths, t)[k].Link?)
    ensures Stat(t, k) == Stat(Seen(paths, t), k)
  {
    hide Seen, Locate, Ready, Place;
    WayThrough(paths, t, m, k, true);
  }

  lemma NothingLedTo(paths: seq<Path>, t: Tree, m: Path)
    requires Sound(paths, t) && m in paths && !Leads(t, m)
    ensures forall k :: k in Seen(paths, t) ==> !(m <= k)
    ensures Walk(t, m) == {} && RemoveAll(t, m).tree == t
  {
    hide Seen, Wf, Apart, Separate;
    SeenMirrors(paths, t);
    forall k | m <= k ensures k !in Seen(paths, t) { assert Shows(t, m, Seen(paths, t), k); }
  }

  lemma WalkMirrors(paths: seq<Path>, t: Tree, m: Path)
    requires Sound(paths, t) && m in paths
    ensures Walk(t, m) == Walk(Seen(paths, t), m)
    ensures Walk(t, m) == set k | k in Seen(paths, t) && m <= k
  {
    hide Seen, Wf, Locate, Apart, Separate, Shows, Straight, Reachable;
    var v := Seen(paths, t);
    SeenIsTree(paths, t);
    assert Straight(v, m) by { AlsoStraight(v, paths, m); }
    WalkStraight(v, m);
    if Leads(t, m) {
      SeenMirrors(paths, t);
      forall k ensures k in Walk(t, m) <==> k in v && m <= k { WalkMirrorsAt(paths, t, m, k); }
    } else {
      NothingLedTo(paths, t, m);
    }
  }

  lemma AlsoStraight(v: Tree, paths: seq<Path>, m: Path)
    requires AllStraight(v, paths) && m in paths
    ensures Straight(v, m)
  {
  }

  lemma WalkMirrorsAt(paths: seq<Path>, t: Tree, m: Path, k: Path)
    requires Sound(paths, t) && m in paths && Leads(t, m) && Mirrors(paths, t, Seen(paths, t))
    ensures k in Walk(t, m) <==> k in Seen(paths, t) && m <= k
  {
    hide Seen, Wf, Locate, Apart, Separate;
    var q := Place(t, m);
    if k in Walk(t, m) {
      var y :| y in t && q <= y && k == m + y[|q|..];
      assert Shows(t, m, Seen(paths, t), k) && q + k[|m|..] == y;
    }
    if k in Seen(paths, t) && m <= k {
      assert Shows(t, m, Seen(paths, t), k);
      var y := q + k[|m|..];
      assert q <= y && k == m + y[|q|..];
      if q != y { AncestorIsDir(t, q, y); }
    }
  }

  // ---------------------------------------------------------------------
  // Removing
  // ---------------------------------------------------------------------

  lemma RemoveAllMirrors(paths: seq<Path>, t: Tree, m: Path, k: Path)
    requires Ready(paths, t, m, k)
    ensures RemoveAll(t, k).error == RemoveAll(Seen(paths, t), k).error
    ensures Becomes(paths, t, RemoveAll(t, k).tree, RemoveAll(Seen(paths, t), k).tree)
  {
    hide Seen, Locate, Place, Wf, Apart, Becomes;
    WayThrough(paths, t, m, k, false);
    BecomesItself(paths, t);
    if Here(t, k).At? {
      NameIsProper(paths, m, k);
      WithoutWf(t, PlaceOf(t, m, k));
      DropMirrors(paths, t, m, k);
    }
  }

  lemma NameIsProper(paths: seq<Path>, m: Path, k: Path)
    requires Separate(paths) && m in paths && m <= k
    ensures k != []
  {
  }

  // Also when the name leads nowhere.
  lemma RemoveNameMirrors(paths: seq<Path>, t: Tree, m: Path)
    requires Sound(paths, t) && m in paths
    ensures Becomes(paths, t, RemoveAll(t, m).tree, Without(Seen(paths, t), m))
  {
    hide Seen, Locate, Place, Wf, Apart, Becomes, Separate, Straight, RemoveAll, Blocked;
    var v := Seen(paths, t);
    SeenIsTree(paths, t);
    AlsoStraight(v, paths, m);
    SeparateIsProper(paths, m);
    RemoveAllStraight(v, m);
    if Leads(t, m) {
      RemoveAllMirrors(paths, t, m, m);
    } else {
      NothingLedTo(paths, t, m);
      assert Without(v, m) == v;
      BecomesItself(paths, t);
    }
  }

  lemma ChildrenMirror(paths: seq<Path>, t: Tree, m: Path, k: Path)
    requires Sound(paths, t) && m in paths && Leads(t, m) && m <= k
    ensures HasChildren(t, PlaceOf(t, m, k)) <==> HasChildren(Seen(paths, t), k)
  {
    hide Seen, Here, Wf, Apart, Separate;
    var v, x := Seen(paths, t), PlaceOf(t, m, k);
    SeenMirrors(paths, t);
    NamesAndPlaces(t, m, k, k);
    if c :| c in t && x < c {
      var l := NamedBelow(t, m, c);
      NamesAndPlaces(t, m, k, l);
      assert Shows(t, m, v, l);
      assert l in v && k < l;
    }
    if l :| l in v && k < l {
      NamesAndPlaces(t, m, k, l);
      assert Shows(t, m, v, l);
      assert PlaceOf(t, m, l) in t && x < PlaceOf(t, m, l);
    }
  }

  lemma WithoutChildless(t: Tree, x: Path)
    requires !HasChildren(t, x)
    ensures Without(t, x) == t - {x}
  {
    assert forall p :: p in t && x <= p ==> p == x || x < p;
  }

  lemma RemoveMirrors(paths: seq<Path>, t: Tree, m: Path, k: Path)
    requires Ready(paths, t, m, k)
    ensures Remove(t, k).error == Remove(Seen(paths, t), k).error
    ensures Becomes(paths, t, Remove(t, k).tree, Remove(Seen(paths, t), k).tree)
  {
    hide Seen, Locate, Place, Wf, Apart, Becomes, HasChildren;
    var v, x := Seen(paths, t), PlaceOf(t, m, k);
    WayThrough(paths, t, m, k, false);
    BecomesItself(paths, t);
    NameIsProper(paths, m, k);
    ChildrenMirror(paths, t, m, k);
    if Remove(t, k).error.None? {
      WithoutChildless(t, x);
      WithoutChildless(v, k);
      WithoutWf(t, x);
      DropMirrors(paths, t, m, k);
    }
  }

  // ---------------------------------------------------------------------
  // Making and writing
  // ---------------------------------------------------------------------

  // The directory above a name that leads somewhere is there.
  lemma {:induction false} LocateParent(t: Tree, at: Path, rest: Path, hops: nat, q: Path)
    requires rest != [] && q != [] && Locate(t, at, rest, false, hops) == At(q)
    ensures Locate(t, at, rest[..|rest| - 1], true, hops) == At(Parent(q))
    decreases hops, |rest|
  {
    if |rest| > 1 {
      var next := at + [rest[0]];
      var less := rest[..|rest| - 1];
      assert less[0] == rest[0];
      if next in t && t[next].Link? {
        var target := t[next].target;
        var base := if target.absolute then [] else Climb(at, target.ups);
        var more := target.segments + rest[1..];
        assert more[..|more| - 1] == target.segments + less[1..];
        LocateParent(t, base, more, hops - 1, q);
      } else {
        assert rest[1..][..|rest[1..]| - 1] == less[1..];
        LocateParent(t, next, rest[1..], hops, q);
      }
    }
  }

  lemma ParentIsThere(paths: seq<Path>, t: Tree, m: Path)
    requires Sound(paths, t) && m in paths && Leads(t, m)
    ensures m != [] && MkdirAll(t, Parent(m)) == Outcome(t, None)
    ensures MkdirAll(Seen(paths, t), Parent(m)) == Outcome(Seen(paths, t), None)
  {
    hide Seen, Locate, Wf, Apart, Shows;
    var q := Place(t, m);
    SeparateIsProper(paths, m);
    LocateIsProper(t, [], m, MAX_LINKS);
    PlaceIsReachable(t, m);
    LocateParent(t, [], m, MAX_LINKS, q);
    assert Parent(q) == q[..|q| - 1];
    assert There(t, Parent(m)) == At(Parent(q));
    var v := Seen(paths, t);
    SeenIsTree(paths, t);
    SeenMirrors(paths, t);
    assert Parent(m) < m && Above(paths, Parent(m));
    DirectoryIsThere(v, Parent(m));
  }

  lemma StillReady(paths: seq<Path>, t: Tree, u: Tree, m: Path, k: Path)
    requires Ready(paths, t, m, k) && Becomes(paths, t, u, Seen(paths, u)) && KindsKept(Seen(paths, t), Seen(paths, u))
    ensures Ready(paths, u, m, k) && PlaceOf(u, m, k) == PlaceOf(t, m, k)
  {
    hide Seen, Here, Wf, Apart, Separate, SameOffPlaces;
    SamePlacesOff(paths, t, u);
    KindsKeptStraight(Seen(paths, t), Seen(paths, u), k);
  }

  lemma {:induction false} MkdirMirrors(paths: seq<Path>, t: Tree, m: Path, p: Path)
    requires Ready(paths, t, m, p) && (p in Seen(paths, t) ==> !Seen(paths, t)[p].Link?)
    ensures MkdirAll(t, p).error == MkdirAll(Seen(paths, t), p).error
    ensures Becomes(paths, t, MkdirAll(t, p).tree, MkdirAll(Seen(paths, t), p).tree)
    decreases |p|
  {
    hide Seen, Here, There, Wf, Apart, Separate, Becomes, Straight, Place, KindsKept;
    var v := Seen(paths, t);
    StatMirrors(paths, t, m, p);
    BecomesItself(paths, t);
    NameIsProper(paths, m, p);
    if !Stat(t, p).Found? {
      MkdirParentMirrors(paths, t, m, p);
      var above, seen := MkdirAll(t, Parent(p)), MkdirAll(v, Parent(p));
      MkdirOne(t, p);
      MkdirOne(v, p);
      hide MkdirAll;
      SeenIsTree(paths, t);
      if above.error.None? {
        MkdirAllKeepsKinds(v, Parent(p));
        BecomesSeen(paths, t, above.tree, seen.tree);
        StillReady(paths, t, above.tree, m, p);
        MadeOneMirrors(paths, above.tree, m, p);
        BecomesTransitive(paths, t, above.tree, MadeOne(above.tree, p).tree, MadeOne(seen.tree, p).tree);
      }
    }
  }

  lemma BecomesSeen(paths: seq<Path>, t: Tree, u: Tree, v: Tree)
    requires Becomes(paths, t, u, v)
    ensures v == Seen(paths, u) && Becomes(paths, t, u, Seen(paths, u))
  {
  }

  function MadeOne(t: Tree, p: Path): Outcome {
    match Here(t, p)
    case Failed(e) => Outcome(t, Some(e))
    case At(q) => if q in t then Outcome(t, Some(EEXIST)) else Outcome(t[q := Dir(NEW_DIRECTORY_MODE)], None)
  }

  lemma MkdirOne(t: Tree, p: Path)
    requires p != [] && !Stat(t, p).Found?
    ensures
      var above := MkdirAll(t, Parent(p));
      MkdirAll(t, p) == if above.error.Some? then above else MadeOne(above.tree, p)
  {
  }

  lemma MadeOneMirrors(paths: seq<Path>, t: Tree, m: Path, p: Path)
    requires Ready(paths, t, m, p)
    ensures MadeOne(t, p).error == MadeOne(Seen(paths, t), p).error
    ensures Becomes(paths, t, MadeOne(t, p).tree, MadeOne(Seen(paths, t), p).tree)
  {
    hide Seen, Locate, Wf, Apart, Separate, Becomes, Straight, Place;
    WayThrough(paths, t, m, p, false);
    BecomesItself(paths, t);
    if MadeOne(t, p).error.None? {
      LandsReachable(t, p);
      AddLeafWf(t, PlaceOf(t, m, p), Dir(NEW_DIRECTORY_MODE));
      PutMirrors(paths, t, m, p, Dir(NEW_DIRECTORY_MODE));
    }
  }

  lemma LandsReachable(t: Tree, p: Path)
    requires Wf(t)
    ensures Here(t, p).At? ==> Reachable(t, Here(t, p).path)
    ensures There(t, p).At? ==> Reachable(t, There(t, p).path)
  {
    LocateLands(t, [], p, false, MAX_LINKS);
    LocateLands(t, [], p, true, MAX_LINKS);
  }

  // The directories above a name below m, or above m itself.
  lemma {:induction false} MkdirParentMirrors(paths: seq<Path>, t: Tree, m: Path, k: Path)
    requires Ready(paths, t, m, k)
    ensures k != [] && MkdirAll(t, Parent(k)).error == MkdirAll(Seen(paths, t), Parent(k)).error
    ensures Becomes(paths, t, MkdirAll(t, Parent(k)).tree, MkdirAll(Seen(paths, t), Parent(k)).tree)
    decreases |k|, 0
  {
    hide Seen, Here, There, Wf, Apart, Separate, Becomes, Place, MkdirAll;
    NameIsProper(paths, m, k);
    if k == m {
      ParentIsThere(paths, t, m);
      BecomesItself(paths, t);
    } else {
      var p := Parent(k);
      assert p < k && m <= p;
      assert forall a :: a in Seen(paths, t) && a < p ==> a < k;
      MkdirMirrors(paths, t, m, p);
    }
  }

  lemma WriteMirrors(paths: seq<Path>, t: Tree, m: Path, k: Path, contents: Bytes, mode: nat)
    requires Ready(paths, t, m, k) && (k in Seen(paths, t) ==> !Seen(paths, t)[k].Link?)
    ensures WriteFile(t, k, contents, mode).error == WriteFile(Seen(paths, t), k, contents, mode).error
    ensures Becomes(paths, t, WriteFile(t, k, contents, mode).tree, WriteFile(Seen(paths, t), k, contents, mode).tree)
  {
    hide Seen, Locate, Wf, Apart, Separate, Becomes, Straight, Place;
    WayThrough(paths, t, m, k, true);
    BecomesItself(paths, t);
    WriteFileKeepsKinds(t, k, contents, mode);
    var x := PlaceOf(t, m, k);
    if WriteFile(t, k, contents, mode).error.None? {
      PutMirrors(paths, t, m, k, WriteFile(t, k, contents, mode).tree[x]);
    }
  }

  lemma ChmodMirrors(paths: seq<Path>, t: Tree, m: Path, k: Path, mode: nat)
    requires Ready(paths, t, m, k) && (k in Seen(paths, t) ==> !Seen(paths, t)[k].Link?)
    ensures Chmod(t, k, mode).error == Chmod(Seen(paths, t), k, mode).error
    ensures Becomes(paths, t, Chmod(t, k, mode).tree, Chmod(Seen(paths, t), k, mode).tree)
  {
    hide Seen, Locate, Wf, Apart, Separate, Becomes, Straight, Place;
    WayThrough(paths, t, m, k, true);
    BecomesItself(paths, t);
    ChmodKeepsKinds(t, k, mode);
    var x := PlaceOf(t, m, k);
    if Chmod(t, k, mode).error.None? {
      PutMirrors(paths, t, m, k, Chmod(t, k, mode).tree[x]);
    }
  }

  lemma SymlinkMirrors(paths: seq<Path>, t: Tree, m: Path, k: Path, target: Target)
    requires Ready(paths, t, m, k)
    ensures Symlink(t, target, k).error == Symlink(Seen(paths, t), target, k).error
    ensures Becomes(paths, t, Symlink(t, target, k).tree, Symlink(Seen(paths, t), target, k).tree)
  {
    hide Seen, Locate, Wf, Apart, Separate, Becomes, Straight, Place;
    WayThrough(paths, t, m, k, false);
    BecomesItself(paths, t);
    SymlinkKeepsWf(t, target, k);
    if Symlink(t, target, k).error.None? { PutMirrors(paths, t, m, k, Link(target)); }
  }

  // ---------------------------------------------------------------------
  // One turn of the file loop and of the link loop
  // ---------------------------------------------------------------------

  // A call that becomes one in the mirror, after one that does.
  lemma Both(paths: seq<Path>, t: Tree, u: Tree, w: Tree, v: Tree)
    requires Becomes(paths, t, u, Seen(paths, u)) && Becomes(paths, u, w, v)
    ensures Becomes(paths, t, w, v) && Becomes(paths, t, w, Seen(paths, w)) && v == Seen(paths, w)
  {
    hide Seen;
    BecomesTransitive(paths, t, u, w, v);
  }

  lemma RewriteMirrors(paths: seq<Path>, t: Tree, m: Path, f: Path, saved: SavedFile)
    requires Ready(paths, t, m, f) && (f in Seen(paths, t) ==> !Seen(paths, t)[f].Link?) && f != []
    ensures RewriteFile(t, f, saved).error == RewriteFile(Seen(paths, t), f, saved).error
    ensures Becomes(paths, t, RewriteFile(t, f, saved).tree, RewriteFile(Seen(paths, t), f, saved).tree)
  {
    hide Seen, Wf, Apart, Separate, Becomes, Straight, Place, KindsKept, MkdirAll, WriteFile, Chmod;
    var v := Seen(paths, t);
    SeenIsTree(paths, t);
    MkdirParentMirrors(paths, t, m, f);
    var u := MkdirAll(t, Parent(f)).tree;
    BecomesSeen(paths, t, u, MkdirAll(v, Parent(f)).tree);
    MkdirAllKeepsKinds(v, Parent(f));
    StillReady(paths, t, u, m, f);
    NoNewLink(v, Seen(paths, u), f);
    if MkdirAll(t, Parent(f)).error.None? {
      UpdateMirrors(paths, u, m, f, saved);
      Both(paths, t, u, FileUpdate(u, f, saved).tree, FileUpdate(Seen(paths, u), f, saved).tree);
    }
  }

  lemma NoNewLink(v: Tree, w: Tree, p: Path)
    requires KindsKept(v, w) && (p in v ==> !v[p].Link?)
    ensures p in w ==> !w[p].Link?
  {
  }

  lemma UpdateMirrors(paths: seq<Path>, t: Tree, m: Path, f: Path, saved: SavedFile)
    requires Ready(paths, t, m, f) && (f in Seen(paths, t) ==> !Seen(paths, t)[f].Link?)
    ensures FileUpdate(t, f, saved).error == FileUpdate(Seen(paths, t), f, saved).error
    ensures Becomes(paths, t, FileUpdate(t, f, saved).tree, FileUpdate(Seen(paths, t), f, saved).tree)
  {
    hide Seen, Wf, Apart, Separate, Becomes, Straight, Place, KindsKept, WriteFile, Chmod;
    var v := Seen(paths, t);
    SeenIsTree(paths, t);
    WriteMirrors(paths, t, m, f, saved.contents, saved.mode);
    var u := WriteFile(t, f, saved.contents, saved.mode).tree;
    BecomesSeen(paths, t, u, WriteFile(v, f, saved.contents, saved.mode).tree);
    WriteFileKeepsKinds(v, f, saved.contents, saved.mode);
    StillReady(paths, t, u, m, f);
    NoNewLink(v, Seen(paths, u), f);
    ChmodMirrors(paths, u, m, f, saved.mode);
    Both(paths, t, u, Chmod(u, f, saved.mode).tree, Chmod(Seen(paths, u), f, saved.mode).tree);
  }

  lemma RelinkMirrors(paths: seq<Path>, t: Tree, m: Path, l: Path, target: Target)
    requires Ready(paths, t, m, l) && l != []
    ensures RelinkTree(t, l, target).error == RelinkTree(Seen(paths, t), l, target).error
    ensures Becomes(paths, t, RelinkTree(t, l, target).tree, RelinkTree(Seen(paths, t), l, target).tree)
  {
    hide Seen, Wf, Apart, Separate, Becomes, Straight, Place, KindsKept, MkdirAll, RemoveAll, Symlink, Lstat;
    var v := Seen(paths, t);
    SeenIsTree(paths, t);
    LstatMirrors(paths, t, m, l);
    BecomesItself(paths, t);
    RemoveAllMirrors(paths, t, m, l);
    var u := RemoveAll(t, l).tree;
    BecomesSeen(paths, t, u, RemoveAll(v, l).tree);
    RemovedReady(paths, t, u, m, l);
    if Lstat(t, l) != Found(Link(target)) && RemoveAll(t, l).error.None? {
      PlaceMirrors(paths, u, m, l, target);
      Both(paths, t, u, Placed(u, l, target).tree, Placed(Seen(paths, u), l, target).tree);
    }
  }

  lemma RemovedReady(paths: seq<Path>, t: Tree, u: Tree, m: Path, l: Path)
    requires Ready(paths, t, m, l) && Becomes(paths, t, u, RemoveAll(Seen(paths, t), l).tree)
    ensures Ready(paths, u, m, l)
  {
    hide Seen, Here, Wf, Apart, Separate, SameOffPlaces;
    SamePlacesOff(paths, t, u);
  }

  function Placed(t: Tree, l: Path, target: Target): Outcome
    requires l != []
  {
    var made := MkdirAll(t, Parent(l));
    if made.error.Some? then made else Symlink(made.tree, target, l)
  }

  lemma PlaceMirrors(paths: seq<Path>, t: Tree, m: Path, l: Path, target: Target)
    requires Ready(paths, t, m, l) && l != []
    ensures Placed(t, l, target).error == Placed(Seen(paths, t), l, target).error
    ensures Becomes(paths, t, Placed(t, l, target).tree, Placed(Seen(paths, t), l, target).tree)
  {
    hide Seen, Wf, Apart, Separate, Becomes, Straight, Place, KindsKept, MkdirAll, Symlink;
    var v := Seen(paths, t);
    SeenIsTree(paths, t);
    MkdirParentMirrors(paths, t, m, l);
    var u := MkdirAll(t, Parent(l)).tree;
    BecomesSeen(paths, t, u, MkdirAll(v, Parent(l)).tree);
    MkdirAllKeepsKinds(v, Parent(l));
    StillReady(paths, t, u, m, l);
    if MkdirAll(t, Parent(l)).error.None? {
      SymlinkMirrors(paths, u, m, l, target);
      Both(paths, t, u, Symlink(u, target, l).tree, Symlink(Seen(paths, u), target, l).tree);
    }
  }
}
