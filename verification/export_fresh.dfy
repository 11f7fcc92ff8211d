/**
  What an export leaves behind in an empty directory: exactly one file per
  entry, with that entry's content, and the directories on the way to them.
*/
module ExportFresh {
  import opened Common
  import opened ExportBudget
  import opened ExportTree
  import opened ExportWrite
  import opened FileTree
  import opened PathText
  import opened Utf8Text

  // ---- Exactly which directories are created ----

  /** `t` with the directories from `root` down to `root + q`. */
  function AddDirs(t: Tree, root: Location, q: seq<string>): Tree {
    if q == [] then t
    else
      var u := AddDirs(t, root, q[..|q| - 1]);
      if root + q in u then u else u[root + q := Dir]
  }

  ghost predicate OnTheWay(l: Location, root: Location, q: seq<string>) { root < l <= root + q }

  lemma {:induction false} AddedDirs(t: Tree, root: Location, q: seq<string>)
    ensures var u := AddDirs(t, root, q);
            && (forall l :: l in u <==> l in t || OnTheWay(l, root, q))
            && (forall l :: l in u ==> u[l] == if l in t then t[l] else Dir)
  {
    if q != [] {
      var front := q[..|q| - 1];
      AddedDirs(t, root, front);
      forall l ensures OnTheWay(l, root, q) <==> OnTheWay(l, root, front) || l == root + q {
        assert root + q == root + front + [q[|q| - 1]];
        if root < l <= root + q && l != root + q { assert l <= root + front; }
      }
    }
  }

  /** Every entry on the way that exists is a directory, and no name on it is too long. */
  ghost predicate ClearWay(t: Tree, root: Location, q: seq<string>) {
    NamesFit(q) && forall k :: 0 < k <= |q| ==> root + q[..k] in t ==> t[root + q[..k]] == Dir
  }

  lemma ClearWayOfFront(t: Tree, root: Location, q: seq<string>)
    requires q != [] && ClearWay(t, root, q)
    ensures ClearWay(t, root, q[..|q| - 1]) && Fits(q[|q| - 1])
    ensures root + q in t ==> IsDir(t, root + q)
  {
    var front := q[..|q| - 1];
    assert forall k :: 0 < k <= |front| ==> front[..k] == q[..k];
    assert q[..|q|] == q;
  }

  lemma OneStep(t: Tree, at: Location, n: string, links: nat)
    requires IsDir(t, at) && !IsLink(t, at + [n]) && Fits(n)
    ensures Walk(t, at, [Name(n)], links, Follow) ==
            if at + [n] in t then Ok(Found(at + [n], links)) else Err(NotFound)
  {
  }

  /** Where a clear way stops existing, resolution fails for want of an entry. */
  lemma {:induction false} ClearWalk(t: Tree, root: Location, q: seq<string>, links: nat)
    requires WellFormed(t) && IsDir(t, root) && ClearWay(t, root, q)
    ensures Walk(t, root, Names(q), links, Follow) ==
            if root + q in t then Ok(Found(root + q, links)) else Err(NotFound)
  {
    hide Walk, WellFormed, ClearWay;
    if q == [] {
      assert root + q == root;
      WalkThroughDirs(t, root, q, links, Follow);
    } else {
      var front, last := q[..|q| - 1], q[|q| - 1];
      ClearWayOfFront(t, root, q);
      ClearWalk(t, root, front, links);
      SnocPath([], q);
      assert q == front + [last] && root + q == root + front + [last];
      assert Names(q) == Names(front) + [Name(last)];
      WalkConcat(t, root, Names(front), [Name(last)], links, Follow);
      if root + front in t {
        DirOnTheWay(t, root, front, links);
        OneStep(t, root + front, last, links);
      } else if root + q in t {
        FrontIsThere(t, root, q);
      }
    }
  }

  lemma FrontIsThere(t: Tree, root: Location, q: seq<string>)
    requires WellFormed(t) && q != [] && root + q in t
    ensures IsDir(t, root + q[..|q| - 1])
  {
    assert Parent(root + q) == root + q[..|q| - 1];
  }

  lemma DirOnTheWay(t: Tree, root: Location, q: seq<string>, links: nat)
    requires IsDir(t, root) && ClearWay(t, root, q) && root + q in t
    ensures IsDir(t, root + q)
  {
    if q == [] { assert root + q == root; } else { ClearWayOfFront(t, root, q); }
  }

  /** Creating the way below a target that exists creates exactly what is missing of it. */
  lemma {:induction false} CreatesExactly(t: Tree, start: Location, target: seq<Comp>, q: seq<string>, links: nat)
    requires WellFormed(t) && IsDir(t, start) && ResolvesToDir(t, start, target, links)
    requires ClearWay(t, Root(t, start, target, links).value.at, q)
    ensures CreateAll(t, start, target + Names(q), links) ==
            Created(AddDirs(t, Root(t, start, target, links).value.at, q), true)
  {
    hide Walk, WellFormed, ClearWay, AddDirs, CreateAll;
    var f := Root(t, start, target, links).value;
    var root := f.at;
    if q == [] {
      assert target + Names(q) == target;
      TargetStays(t, start, target, links);
      AddNothing(t, root);
    } else {
      ClearWayOfFront(t, root, q);
      CreatesExactly(t, start, target, q[..|q| - 1], links);
      if root + q[..|q| - 1] in t {
        CreateLast(t, start, target, q, links);
      } else {
        CreateBelowNew(t, start, target, q, links);
      }
    }
  }

  lemma {:induction false} AllThere(t: Tree, root: Location, q: seq<string>)
    requires WellFormed(t) && root + q in t
    ensures AddDirs(t, root, q) == t
  {
    if q != [] {
      assert Parent(root + q) == root + q[..|q| - 1];
      AllThere(t, root, q[..|q| - 1]);
    }
  }

  /** One step of the creation, when the parent is there already: at most one directory is missing. */
  lemma CreateLast(t: Tree, start: Location, target: seq<Comp>, q: seq<string>, links: nat)
    requires WellFormed(t) && IsDir(t, start) && ResolvesToDir(t, start, target, links) && q != []
    requires var root := Root(t, start, target, links).value.at;
             ClearWay(t, root, q) && root + q[..|q| - 1] in t
    ensures CreateAll(t, start, target + Names(q), links) ==
            Created(AddDirs(t, Root(t, start, target, links).value.at, q), true)
  {
    hide Walk, WellFormed, ClearWay;
    var f := Root(t, start, target, links).value;
    var front, last := q[..|q| - 1], q[|q| - 1];
    assert f.at + q == f.at + front + [last];
    SnocPath(target, q);
    ClearWayOfFront(t, f.at, q);
    ClearWalk(t, f.at, front, f.links);
    ClearWalk(t, f.at, q, f.links);
    WalkConcat(t, start, target, Names(front), links, Follow);
    WalkConcat(t, start, target, Names(q), links, Follow);
    DirOnTheWay(t, f.at, front, links);
    AllThere(t, f.at, front);
  }

  lemma CreateAfterParent(t: Tree, start: Location, comps: seq<Comp>, n: string, u: Tree, f: Found, links: nat)
    requires comps != [] && comps[|comps| - 1] == Name(n)
    requires Walk(t, start, comps[..|comps| - 1], links, Follow) == Err(NotFound)
    requires CreateAll(t, start, comps[..|comps| - 1], links) == Created(u, true)
    requires Walk(u, start, comps[..|comps| - 1], links, Follow) == Ok(f) && IsDir(u, f.at) && f.at + [n] !in u && Fits(n)
    ensures CreateAll(t, start, comps, links) == Created(u[f.at + [n] := Dir], true)
  {
  }

  lemma NotThereYet(t: Tree, root: Location, q: seq<string>)
    requires WellFormed(t) && q != [] && root + q[..|q| - 1] !in t
    ensures root + q !in AddDirs(t, root, q[..|q| - 1])
  {
    AddedDirs(t, root, q[..|q| - 1]);
    if root + q in t { FrontIsThere(t, root, q); }
  }

  lemma SnocLocation(root: Location, q: seq<string>)
    requires q != []
    ensures root + q == root + q[..|q| - 1] + [q[|q| - 1]]
  {
  }

  lemma AddLast(t: Tree, root: Location, q: seq<string>)
    requires q != [] && root + q !in AddDirs(t, root, q[..|q| - 1])
    ensures AddDirs(t, root, q) == AddDirs(t, root, q[..|q| - 1])[root + q := Dir]
  {
  }

  lemma MissingParent(t: Tree, start: Location, target: seq<Comp>, q: seq<string>, links: nat)
    requires WellFormed(t) && ResolvesToDir(t, start, target, links)
    requires var root := Root(t, start, target, links).value.at;
             ClearWay(t, root, q) && root + q !in t
    ensures Walk(t, start, target + Names(q), links, Follow) == Err(NotFound)
  {
    hide Walk, WellFormed, ClearWay;
    var f := Root(t, start, target, links).value;
    ClearWalk(t, f.at, q, f.links);
    WalkConcat(t, start, target, Names(q), links, Follow);
  }

  /** One step of the creation, after the missing parent has been created. */
  lemma CreateBelowNew(t: Tree, start: Location, target: seq<Comp>, q: seq<string>, links: nat)
    requires WellFormed(t) && IsDir(t, start) && ResolvesToDir(t, start, target, links) && q != []
    requires var root := Root(t, start, target, links).value.at;
             ClearWay(t, root, q) && root + q[..|q| - 1] !in t
    requires CreateAll(t, start, target + Names(q[..|q| - 1]), links) ==
             Created(AddDirs(t, Root(t, start, target, links).value.at, q[..|q| - 1]), true)
    ensures CreateAll(t, start, target + Names(q), links) ==
            Created(AddDirs(t, Root(t, start, target, links).value.at, q), true)
  {
    hide Walk, WellFormed, ClearWay, CreateAll, Mkdir, AddDirs, IsDir, Names;
    var f := Root(t, start, target, links).value;
    var front, last := q[..|q| - 1], q[|q| - 1];
    var u := AddDirs(t, f.at, front);
    SnocPath(target, q);
    ClearWayOfFront(t, f.at, q);
    MissingParent(t, start, target, front, links);
    InCreatedWay(t, start, target, front, links);
    NotThereYet(t, f.at, q);
    SnocLocation(f.at, q);
    CreateAfterParent(t, start, target + Names(q), last, u, Found(f.at + front, f.links), links);
    AddLast(t, f.at, q);
  }

  lemma InCreatedWay(t: Tree, start: Location, target: seq<Comp>, q: seq<string>, links: nat)
    requires WellFormed(t) && IsDir(t, start) && ResolvesToDir(t, start, target, links)
    requires ClearWay(t, Root(t, start, target, links).value.at, q)
    requires CreateAll(t, start, target + Names(q), links) ==
             Created(AddDirs(t, Root(t, start, target, links).value.at, q), true)
    ensures var f := Root(t, start, target, links).value;
            var u := AddDirs(t, f.at, q);
            Walk(u, start, target + Names(q), links, Follow) == Ok(Found(f.at + q, f.links)) && IsDir(u, f.at + q)
  {
    hide Walk, WellFormed, CreateAll;
    var f := Root(t, start, target, links).value;
    var u := AddDirs(t, f.at, q);
    CreateAllGrows(t, start, target + Names(q), links);
    WalkInGrown(t, u, start, target, links);
    AddedDirs(t, f.at, q);
    forall k | 0 < k <= |q| ensures IsDir(u, f.at + q[..k]) { assert OnTheWay(f.at + q[..k], f.at, q); }
    if q == [] { assert f.at + q == f.at; } else { assert q[..|q|] == q; }
    ClearWalk(u, f.at, q, f.links);
    WalkConcat(u, start, target, Names(q), links, Follow);
  }

  lemma AddNothing(t: Tree, root: Location)
    ensures AddDirs(t, root, []) == t
  {
  }

  lemma TargetStays(t: Tree, start: Location, target: seq<Comp>, links: nat)
    requires WellFormed(t) && IsDir(t, start) && ResolvesToDir(t, start, target, links)
    ensures CreateAll(t, start, target, links) == Created(t, true)
  {
    if target != [] {
      hide Walk;
      if Mkdir(t, start, target, links).Ok? { MkdirGrows(t, start, target, links); }
      SplitLast(target);
      WalkConcat(t, start, target[..|target| - 1], [target[|target| - 1]], links, Follow);
    }
  }

  // ---- One item ----

  lemma NoLinkIsSeen(t: Tree, start: Location, target: seq<Comp>, q: seq<string>, links: nat)
    requires Root(t, start, target, links).Ok? && NoLinks(t, Root(t, start, target, links).value.at, q)
    ensures !SeesLink(t, start, target, q, links)
  {
    hide Walk;
    var f := Root(t, start, target, links).value;
    forall k | 0 < k <= |q| ensures !StopsAtLink(t, start, target + Names(q[..k]), links) {
      WalkConcat(t, start, target, Names(q[..k]), links, Stop);
      if Walk(t, f.at, Names(q[..k]), f.links, Stop).Ok? {
        assert forall i :: 0 < i <= k ==> q[..k][..i] == q[..i];
        PlainWalk(t, f.at, q[..k], f.links, Stop);
      }
    }
  }

  lemma NoLinksOnAClearWay(t: Tree, root: Location, q: seq<string>)
    requires q != [] && ClearWay(t, root, q[..|q| - 1]) && root + q !in t
    ensures NoLinks(t, root, q)
  {
    forall k | 0 < k <= |q| ensures !IsLink(t, root + q[..k]) {
      if k < |q| { assert q[..|q| - 1][..k] == q[..k]; } else { assert q[..k] == q; }
    }
  }

  /** A new name on a clear way: its missing directories and its file are what is added. */
  lemma WriteOneExactly(t: Tree, start: Location, target: seq<Comp>, item: Item, q: seq<string>, links: nat)
    requires WellFormed(t) && IsDir(t, start) && ResolvesToDir(t, start, target, links)
    requires Components(item.name) == Ok(q) && q != []
    requires var root := Root(t, start, target, links).value.at;
             NamesFit(q) && ClearWay(t, root, q[..|q| - 1]) && root + q !in t
    ensures var root := Root(t, start, target, links).value.at;
            WriteOne(t, start, target, item, links) ==
            Prepared(AddDirs(t, root, q[..|q| - 1])[root + q := FileTree.File(item.content)], Ok(target + Names(q)))
  {
    hide Walk, WellFormed, ClearWay, CreateAll, AddDirs;
    var f := Root(t, start, target, links).value;
    var front := q[..|q| - 1];
    var u := AddDirs(t, f.at, front);
    NoLinksOnAClearWay(t, f.at, q);
    NoLinkIsSeen(t, start, target, q, links);
    CreatesExactly(t, start, target, front, links);
    AcceptedPathIsContained(t, start, target, item.name, links);
    WalkInGrown(t, u, start, target, links);
    assert f.at + q !in u by {
      if f.at + front in t { AllThere(t, f.at, front); } else { NotThereYet(t, f.at, q); }
    }
  }

  // ---- What an export leaves alone ----

  lemma NoLinksOfFront(t: Tree, root: Location, q: seq<string>)
    requires q != [] && NoLinks(t, root, q)
    ensures NoLinks(t, root, q[..|q| - 1])
  {
    var front := q[..|q| - 1];
    forall k | 0 < k <= |front| ensures !IsLink(t, root + front[..k]) { assert front[..k] == q[..k]; }
  }

  lemma NoLinksInGrown(t: Tree, u: Tree, root: Location, q: seq<string>)
    requires NoLinks(t, root, q) && Grows(t, u)
    ensures NoLinks(u, root, q)
  {
  }

  /** One new directory below the target is the one its path says. */
  lemma MadeAtThePath(t: Tree, start: Location, target: seq<Comp>, q: seq<string>, links: nat)
    requires WellFormed(t) && Root(t, start, target, links).Ok? && q != []
    requires NoLinks(t, Root(t, start, target, links).value.at, q)
    requires Mkdir(t, start, target + Names(q), links).Ok?
    ensures var u := Mkdir(t, start, target + Names(q), links).value;
            forall l :: l in u && l !in t ==> l == Root(t, start, target, links).value.at + q
  {
    hide Walk, WellFormed, Fits, NoLinks;
    var f := Root(t, start, target, links).value;
    var front := q[..|q| - 1];
    SnocPath(target, q);
    WalkConcat(t, start, target, Names(front), links, Follow);
    NoLinksOfFront(t, f.at, q);
    PlainWalk(t, f.at, front, f.links, Follow);
    SnocLocation(f.at, q);
  }

  /** Creating a way below a target that exists makes nothing but directories of that way. */
  lemma {:induction false} CreatesOnlyBelow(t: Tree, start: Location, target: seq<Comp>, q: seq<string>, links: nat)
    requires WellFormed(t) && IsDir(t, start) && ResolvesToDir(t, start, target, links)
    requires NoLinks(t, Root(t, start, target, links).value.at, q)
    ensures var root := Root(t, start, target, links).value.at;
            forall l :: l in CreateAll(t, start, target + Names(q), links).tree && l !in t ==> root < l <= root + q
  {
    hide Walk, WellFormed, NoLinks, Mkdir;
    var f := Root(t, start, target, links).value;
    var comps := target + Names(q);
    if q == [] {
      assert comps == target;
      TargetStays(t, start, target, links);
    } else {
      var front := q[..|q| - 1];
      SnocPath(target, q);
      SnocLocation(f.at, q);
      NoLinksOfFront(t, f.at, q);
      CreatesOnlyBelow(t, start, target, front, links);
      CreateAllGrows(t, start, target + Names(front), links);
      var up := CreateAll(t, start, target + Names(front), links).tree;
      WalkInGrown(t, up, start, target, links);
      NoLinksInGrown(t, up, f.at, q);
      if Mkdir(t, start, comps, links).Ok? { MadeAtThePath(t, start, target, q, links); }
      if Mkdir(up, start, comps, links).Ok? { MadeAtThePath(up, start, target, q, links); }
    }
  }

  /** Outside `root` the two trees are the same. */
  ghost predicate SameOutside(t: Tree, u: Tree, root: Location) {
    forall l :: !(root < l) ==> (l in u <==> l in t) && (l in t ==> u[l] == t[l])
  }

  /** An export's place: an existing directory, in a tree that is one. */
  ghost predicate HasTarget(t: Tree, start: Location, target: seq<Comp>, links: nat) {
    WellFormed(t) && IsDir(t, start) && ResolvesToDir(t, start, target, links)
  }

  lemma TargetOutlasts(t: Tree, u: Tree, start: Location, target: seq<Comp>, links: nat)
    requires HasTarget(t, start, target, links) && KeepsKinds(t, u) && WellFormed(u)
    ensures HasTarget(u, start, target, links)
    ensures Root(u, start, target, links) == Root(t, start, target, links)
  {
    WalkInGrown(t, u, start, target, links);
  }

  lemma PreparedBelow(t: Tree, start: Location, target: seq<Comp>, name: string, links: nat)
    requires HasTarget(t, start, target, links)
    ensures var p := Prepare(t, start, target, name, links);
            && HasTarget(p.tree, start, target, links) && KeepsKinds(t, p.tree)
            && Root(p.tree, start, target, links) == Root(t, start, target, links)
            && SameOutside(t, p.tree, Root(t, start, target, links).value.at)
  {
    hide Walk, WellFormed, NoLinks, CreateAll, SeesLink, Components;
    AcceptedPathIsContained(t, start, target, name, links);
    var p := Prepare(t, start, target, name, links);
    TargetOutlasts(t, p.tree, start, target, links);
    if Components(name).Ok? {
      ComponentsAreOrdinary(name);
      var q := Components(name).value;
      var front := q[..|q| - 1];
      if !SeesLink(t, start, target, q, links) {
        UnseenMeansNoLinks(t, start, target, q, links);
        NoLinksOfFront(t, Root(t, start, target, links).value.at, q);
        CreatesOnlyBelow(t, start, target, front, links);
      }
    }
  }

  /** Writing a file at a location found for it keeps directories, links and the tree as it should be. */
  lemma FilePutAt(t: Tree, start: Location, comps: seq<Comp>, content: seq<byte>, links: nat)
    requires WellFormed(t) && IsDir(t, start) && WriteFile(t, start, comps, content, links).Ok?
    ensures var u, l := WriteFile(t, start, comps, content, links).value, Walk(t, start, comps, links, Create).value.at;
            WellFormed(u) && KeepsKinds(t, u) && u == t[l := FileTree.File(content)]
  {
    hide Walk, Fits, WellFormed;
    var l := Walk(t, start, comps, links, Create).value.at;
    PlaceForAFile(t, start, comps, links);
    if l in t {
      FileReplaced(t, l, content);
    } else {
      assert l == l[..|l| - 1] + [l[|l| - 1]];
      OneMoreEntry(t, l[..|l| - 1], l[|l| - 1], FileTree.File(content));
    }
  }

  lemma PlaceForAFile(t: Tree, start: Location, comps: seq<Comp>, links: nat)
    requires WellFormed(t) && IsDir(t, start) && Walk(t, start, comps, links, Create).Ok?
    ensures var l := Walk(t, start, comps, links, Create).value.at;
            !IsLink(t, l) && (l !in t ==> l != [] && IsDir(t, l[..|l| - 1]) && Fits(l[|l| - 1]))
  {
    hide Walk, Fits, WellFormed;
    WalkLands(t, start, comps, links, Create);
    CreatesInADirectory(t, start, comps, links);
  }

  lemma FileReplaced(t: Tree, l: Location, content: seq<byte>)
    requires WellFormed(t) && l in t && t[l].File?
    ensures WellFormed(t[l := FileTree.File(content)])
  {
    hide Fits;
  }

  lemma WrittenBelow(t: Tree, start: Location, target: seq<Comp>, item: Item, links: nat)
    requires HasTarget(t, start, target, links)
    ensures var u := WriteOne(t, start, target, item, links).tree;
            && HasTarget(u, start, target, links) && KeepsKinds(t, u)
            && Root(u, start, target, links) == Root(t, start, target, links)
            && SameOutside(t, u, Root(t, start, target, links).value.at)
  {
    hide Walk, WellFormed, Prepare, Components;
    PreparedBelow(t, start, target, item.name, links);
    AcceptedPathIsContained(t, start, target, item.name, links);
    var p := Prepare(t, start, target, item.name, links);
    if p.result.Ok? && WriteFile(p.tree, start, p.result.value, item.content, links).Ok? {
      AcceptedResult(t, start, target, item.name, links);
      FilePutAt(p.tree, start, p.result.value, item.content, links);
      var u := WriteFile(p.tree, start, p.result.value, item.content, links).value;
      TargetOutlasts(p.tree, u, start, target, links);
      var root, q := Root(t, start, target, links).value.at, Components(item.name).value;
      assert root < root + q;
    }
  }

  lemma AcceptedResult(t: Tree, start: Location, target: seq<Comp>, name: string, links: nat)
    requires Prepare(t, start, target, name, links).result.Ok?
    ensures Components(name).Ok? && Prepare(t, start, target, name, links).result == Ok(target + Names(Components(name).value))
  {
    hide Walk, Components, CreateAll, SeesLink;
  }

  /**
    Whatever the items are named and however the export ends: outside the target
    directory nothing is added, changed or removed, and inside it no directory and
    no link is ever replaced.
  */
  lemma {:induction false} NothingElseIsTouched(t: Tree, start: Location, target: seq<Comp>, items: seq<Item>, links: nat)
    requires HasTarget(t, start, target, links)
    ensures var u := WriteAll(t, start, target, items, links).tree;
            && HasTarget(u, start, target, links)
            && Root(u, start, target, links) == Root(t, start, target, links)
            && SameOutside(t, u, Root(t, start, target, links).value.at)
            && forall l :: l in t && !t[l].File? ==> l in u && u[l] == t[l]
  {
    KindsAreKept(t, start, target, items, links);
  }

  lemma {:induction false} KindsAreKept(t: Tree, start: Location, target: seq<Comp>, items: seq<Item>, links: nat)
    requires HasTarget(t, start, target, links)
    ensures var u := WriteAll(t, start, target, items, links).tree;
            && HasTarget(u, start, target, links) && KeepsKinds(t, u)
            && Root(u, start, target, links) == Root(t, start, target, links)
            && SameOutside(t, u, Root(t, start, target, links).value.at)
  {
    hide Walk, WriteOne, HasTarget;
    if items != [] {
      var front, last := items[..|items| - 1], items[|items| - 1];
      KindsAreKept(t, start, target, front, links);
      WrittenBelow(WriteAll(t, start, target, front, links).tree, start, target, last, links);
    }
  }

  // ---- The whole export ----

  /** No two paths are equal, and none leads through another. */
  ghost predicate Separate(paths: seq<seq<string>>) {
    forall i, j :: 0 <= i < |paths| && 0 <= j < |paths| && i != j ==> !(paths[i] <= paths[j])
  }

  ghost predicate Reached(root: Location, paths: seq<seq<string>>, l: Location) {
    exists j :: 0 <= j < |paths| && l <= root + paths[j]
  }

  /** The entries of `u` are those of `t` and the ways to the paths. */
  ghost predicate OnlyWays(t: Tree, root: Location, paths: seq<seq<string>>, u: Tree) {
    forall l :: l in u <==> l in t || (root < l && Reached(root, paths, l))
  }

  ghost predicate EachHasItsFile(root: Location, paths: seq<seq<string>>, items: seq<Item>, u: Tree)
    requires |paths| == |items|
  {
    forall j :: 0 <= j < |paths| ==> root + paths[j] in u && u[root + paths[j]] == FileTree.File(items[j].content)
  }

  ghost predicate RestAreDirs(t: Tree, root: Location, paths: seq<seq<string>>, u: Tree) {
    forall l :: l in u && l !in t && (forall j :: 0 <= j < |paths| ==> l != root + paths[j]) ==> u[l] == Dir
  }

  /** `u` is `t` and, below `root`, exactly one file per item and the directories on the way. */
  ghost predicate OneFileEach(t: Tree, root: Location, paths: seq<seq<string>>, items: seq<Item>, u: Tree)
    requires |paths| == |items|
  {
    Extends(t, u) && OnlyWays(t, root, paths, u) && EachHasItsFile(root, paths, items, u) && RestAreDirs(t, root, paths, u)
  }

  ghost predicate EmptyBelow(t: Tree, root: Location) { forall l :: l in t ==> !(root < l) }

  lemma SamePrefix(root: Location, a: seq<string>, b: seq<string>)
    ensures root + a <= root + b <==> a <= b
    ensures root + a == root + b <==> a == b
  {
    assert (root + a)[|root|..] == a && (root + b)[|root|..] == b;
    if root + a <= root + b {
      assert forall i :: 0 <= i < |a| ==> (root + a)[|root| + i] == a[i] && (root + b)[|root| + i] == b[i];
    }
  }

  lemma EntryOnTheWay(
      t: Tree, root: Location, paths: seq<seq<string>>, items: seq<Item>, u: Tree, q: seq<string>, s: seq<string>)
    requires |paths| == |items| && OneFileEach(t, root, paths, items, u) && EmptyBelow(t, root)
    requires s != [] && s <= q && forall j :: 0 <= j < |paths| ==> !(paths[j] <= q)
    ensures root + s in u ==> u[root + s] == Dir
  {
    hide OnlyWays, EachHasItsFile;
    assert root < root + s;
    forall j | 0 <= j < |paths| ensures root + s != root + paths[j] { SamePrefix(root, s, paths[j]); }
  }

  /** No entry on the way is another item's file. */
  lemma WayIsClear(t: Tree, root: Location, paths: seq<seq<string>>, items: seq<Item>, u: Tree, q: seq<string>)
    requires |paths| == |items| && OneFileEach(t, root, paths, items, u) && EmptyBelow(t, root)
    requires q != [] && NamesFit(q) && forall j :: 0 <= j < |paths| ==> !(paths[j] <= q)
    ensures ClearWay(u, root, q[..|q| - 1])
  {
    hide OneFileEach, EmptyBelow, Fits;
    var front := q[..|q| - 1];
    forall k | 0 < k <= |front| ensures root + front[..k] in u ==> u[root + front[..k]] == Dir {
      EntryOnTheWay(t, root, paths, items, u, q, front[..k]);
    }
  }

  lemma NameIsFree(t: Tree, root: Location, paths: seq<seq<string>>, items: seq<Item>, u: Tree, q: seq<string>)
    requires |paths| == |items| && OneFileEach(t, root, paths, items, u) && EmptyBelow(t, root)
    requires q != [] && forall j :: 0 <= j < |paths| ==> !(q <= paths[j])
    ensures root + q !in u
  {
    assert root < root + q;
    forall j | 0 <= j < |paths| ensures !(root + q <= root + paths[j]) { SamePrefix(root, q, paths[j]); }
  }

  lemma LastIsSeparate(paths: seq<seq<string>>, q: seq<string>)
    requires Separate(paths + [q])
    ensures Separate(paths) && forall j :: 0 <= j < |paths| ==> !(paths[j] <= q) && !(q <= paths[j])
  {
    var all := paths + [q];
    assert all[|paths|] == q && forall j :: 0 <= j < |paths| ==> all[j] == paths[j];
  }

  /** `v` is `u` with one more file and the directories on its way. */
  ghost predicate OneMore(u: Tree, root: Location, q: seq<string>, content: seq<byte>, v: Tree) {
    && Extends(u, v)
    && (forall l :: l in v <==> l in u || root < l <= root + q)
    && (forall l :: l in v && l !in u && l != root + q ==> v[l] == Dir)
    && root + q in v && v[root + q] == FileTree.File(content)
  }

  lemma AfterOneFile(u: Tree, root: Location, q: seq<string>, content: seq<byte>)
    requires q != [] && root + q !in u
    ensures OneMore(u, root, q, content, AddDirs(u, root, q[..|q| - 1])[root + q := FileTree.File(content)])
  {
    var front := q[..|q| - 1];
    AddedDirs(u, root, front);
    SnocLocation(root, q);
    forall l ensures root < l <= root + q <==> OnTheWay(l, root, front) || l == root + q {
      if root < l <= root + q && l != root + q { assert l <= root + front; }
    }
  }

  lemma WaysOneMore(t: Tree, root: Location, paths: seq<seq<string>>, u: Tree, q: seq<string>, content: seq<byte>, v: Tree)
    requires OnlyWays(t, root, paths, u) && OneMore(u, root, q, content, v)
    ensures OnlyWays(t, root, paths + [q], v)
  {
    forall l ensures l in v <==> l in t || (root < l && Reached(root, paths + [q], l)) {
      hide Reached;
      ReachedOneMore(root, paths, q, l);
    }
  }

  lemma DirsOneMore(t: Tree, root: Location, paths: seq<seq<string>>, u: Tree, q: seq<string>, content: seq<byte>, v: Tree)
    requires RestAreDirs(t, root, paths, u) && OneMore(u, root, q, content, v)
    ensures RestAreDirs(t, root, paths + [q], v)
  {
    var all := paths + [q];
    forall l | l in v && l !in t && (forall j :: 0 <= j < |all| ==> l != root + all[j]) ensures v[l] == Dir {
      assert all[|paths|] == q;
      forall j | 0 <= j < |paths| ensures l != root + paths[j] { assert all[j] == paths[j]; }
    }
  }

  lemma FilesOneMore(
      root: Location, paths: seq<seq<string>>, items: seq<Item>, u: Tree, q: seq<string>, item: Item, v: Tree)
    requires |paths| == |items| && EachHasItsFile(root, paths, items, u) && OneMore(u, root, q, item.content, v)
    ensures EachHasItsFile(root, paths + [q], items + [item], v)
  {
  }

  lemma AddOneFile(
      t: Tree, root: Location, paths: seq<seq<string>>, items: seq<Item>, u: Tree, q: seq<string>, item: Item, v: Tree)
    requires |paths| == |items| && OneFileEach(t, root, paths, items, u) && OneMore(u, root, q, item.content, v)
    ensures OneFileEach(t, root, paths + [q], items + [item], v)
  {
    assert Extends(t, v);
    hide OnlyWays, EachHasItsFile, RestAreDirs, OneMore, Extends;
    WaysOneMore(t, root, paths, u, q, item.content, v);
    DirsOneMore(t, root, paths, u, q, item.content, v);
    FilesOneMore(root, paths, items, u, q, item, v);
  }

  lemma ReachedOneMore(root: Location, paths: seq<seq<string>>, q: seq<string>, l: Location)
    ensures Reached(root, paths + [q], l) <==> Reached(root, paths, l) || l <= root + q
  {
    var all := paths + [q];
    assert all[|paths|] == q;
    if Reached(root, paths, l) {
      var j :| 0 <= j < |paths| && l <= root + paths[j];
      assert all[j] == paths[j];
    }
  }

  lemma StaysWellFormed(t: Tree, root: Location, q: seq<string>, content: seq<byte>)
    requires WellFormed(t) && IsDir(t, root) && q != [] && NamesFit(q)
    requires ClearWay(t, root, q[..|q| - 1]) && root + q !in t
    ensures WellFormed(AddDirs(t, root, q[..|q| - 1])[root + q := FileTree.File(content)])
  {
    hide WellFormed, ClearWay, Fits, AddDirs;
    var front := q[..|q| - 1];
    var u := AddDirs(t, root, front);
    StaysWellFormedDirs(t, root, front);
    SnocLocation(root, q);
    assert root + q !in u by {
      if root + front in t { AllThere(t, root, front); } else { NotThereYet(t, root, q); }
    }
    OneMoreEntry(u, root + front, q[|q| - 1], FileTree.File(content));
  }

  lemma {:induction false} StaysWellFormedDirs(t: Tree, root: Location, q: seq<string>)
    requires WellFormed(t) && IsDir(t, root) && ClearWay(t, root, q)
    ensures WellFormed(AddDirs(t, root, q)) && IsDir(AddDirs(t, root, q), root + q)
  {
    if q == [] {
      assert root + q == root;
    } else {
      hide WellFormed, ClearWay, Fits;
      var front := q[..|q| - 1];
      var u := AddDirs(t, root, front);
      ClearWayOfFront(t, root, q);
      StaysWellFormedDirs(t, root, front);
      SnocLocation(root, q);
      if root + q in u {
        AddedDirs(t, root, front);
      } else {
        OneMoreEntry(u, root + front, q[|q| - 1], Dir);
      }
    }
  }

  function Paths(target: seq<Comp>, paths: seq<seq<string>>): seq<seq<Comp>> {
    seq(|paths|, i requires 0 <= i < |paths| => target + Names(paths[i]))
  }

  ghost predicate AllNamesFit(paths: seq<seq<string>>) { forall i :: 0 <= i < |paths| ==> NamesFit(paths[i]) }

  lemma LastFits(paths: seq<seq<string>>, q: seq<string>)
    ensures AllNamesFit(paths + [q]) <==> AllNamesFit(paths) && NamesFit(q)
  {
    var all := paths + [q];
    assert all[|paths|] == q && forall j :: 0 <= j < |paths| ==> all[j] == paths[j];
  }

  /** What has been written had names short enough. */
  lemma WrittenNamesFit(t: Tree, start: Location, target: seq<Comp>, item: Item, q: seq<string>, links: nat)
    requires WellFormed(t) && IsDir(t, start) && Components(item.name) == Ok(q)
    requires WriteOne(t, start, target, item, links).result.Ok?
    ensures NamesFit(q)
  {
    hide Walk, Fits, CreateAll, SeesLink, WellFormed;
    var p := Prepare(t, start, target, item.name, links);
    var comps := target + Names(q);
    assert p.result == Ok(comps);
    WalkedNamesFit(p.tree, start, comps, links, Create);
    assert forall i :: 0 <= i < |q| ==> comps[|target| + i] == Name(q[i]);
  }

  /**
    Items with separate paths, written into a directory with nothing in it: all
    succeed exactly when no name in their paths is too long, and then leave
    exactly one file each, with their own content.
  */
  lemma {:induction false} FreshExport(
      t: Tree, start: Location, target: seq<Comp>, items: seq<Item>, paths: seq<seq<string>>, links: nat)
    requires WellFormed(t) && IsDir(t, start) && ResolvesToDir(t, start, target, links)
    requires EmptyBelow(t, Root(t, start, target, links).value.at)
    requires |paths| == |items| && forall i :: 0 <= i < |items| ==> Components(items[i].name) == Ok(paths[i])
    requires Separate(paths)
    ensures var root := Root(t, start, target, links).value.at;
            var w := WriteAll(t, start, target, items, links);
            && (w.result.Ok? <==> AllNamesFit(paths))
            && (w.result.Ok? ==>
                  && w.result == Ok(Paths(target, paths)) && WellFormed(w.tree)
                  && OneFileEach(t, root, paths, items, w.tree))
  {
    hide Walk, WellFormed, AddDirs, OneFileEach, EmptyBelow, Separate, WriteOne, AllNamesFit, NamesFit, Extends;
    var root := Root(t, start, target, links).value.at;
    if items == [] {
      NothingWrittenYet(t, root);
      NoNames();
      assert Paths(target, paths) == [] && paths == [];
    } else {
      var n := |items| - 1;
      var front, q := paths[..n], paths[n];
      assert paths == front + [q] && items == items[..n] + [items[n]];
      LastIsSeparate(front, q);
      LastFits(front, q);
      FreshExport(t, start, target, items[..n], front, links);
      var u := WriteAll(t, start, target, items[..n], links);
      if u.result.Ok? {
        if NamesFit(q) {
          NextItem(t, start, target, items[..n], front, u.tree, items[n], q, links);
        } else if WriteOne(u.tree, start, target, items[n], links).result.Ok? {
          StartStays(t, root, front, items[..n], u.tree, start);
          WrittenNamesFit(u.tree, start, target, items[n], q, links);
        }
      }
      assert Paths(target, paths) == Paths(target, front) + [target + Names(q)];
    }
  }

  lemma StartStays(t: Tree, root: Location, paths: seq<seq<string>>, items: seq<Item>, u: Tree, start: Location)
    requires |paths| == |items| && OneFileEach(t, root, paths, items, u) && IsDir(t, start)
    ensures IsDir(u, start)
  {
  }

  lemma NoNames()
    ensures AllNamesFit([])
  {
  }

  /** Written directly into an empty directory, `a/` makes a file `a`; its archive is unpacked without it. */
  lemma TrailingSlashIsLost(links: nat) returns (c: Call, b: Bundle)
    ensures WithinBudget(b) && c.entries == Zip(b.files) && |b.files| == 1
    ensures WriteAll(c.t, c.start, c.target, Items(b.files), c.links) == Written(c.t[["a"] := FileTree.File([])], Ok([[Name("a")]]))
    ensures WritesAll(c) == Written(c.t, Ok([]))
  {
    b := Bundle("", [ExportBudget.File("a/", "")]);
    c := Call(map[[] := Dir], [], [], links, Zip(b.files), MAX_ARCHIVE_ENTRIES, MAX_ARCHIVE_BYTES);
    SlashedBundle(b);
    SlashedEntry(b.files);
    hide WriteOne, Zip, Items, WithinBudget;
    SlashedItem(c.t, links);
    WriteAllStep(c.t, [], [], [], Item("a/", []), links);
    NothingWritten(c.t, [], [], links);
    assert [] + [Item("a/", [])] == [Item("a/", [])];
    assert [] + [[Name("a")]] == [[Name("a")]];
  }

  lemma SlashedBundle(b: Bundle)
    requires b == Bundle("", [ExportBudget.File("a/", "")])
    ensures WithinBudget(b)
  {
    SizeOfAscii("a/");
    assert FileSize(b.files[0]) == 2;
    assert b.files[..0] == [] && TotalSize([]) == 0;
  }

  lemma SlashedEntry(files: seq<ExportBudget.File>)
    requires files == [ExportBudget.File("a/", "")]
    ensures Items(files) == [Item("a/", [])] && ItemsOf(Zip(files)) == []
  {
    assert NamesDirectory("a/") && !IsItem(Zip(files)[0]);
    assert Zip(files)[..0] == [];
  }

  lemma SlashedItem(t: Tree, links: nat)
    requires t == map[[] := Dir]
    ensures WriteOne(t, [], [], Item("a/", []), links) == Prepared(t[["a"] := FileTree.File([])], Ok([Name("a")]))
  {
    SlashedName();
    EmptyPathResolves(t, [], links);
    assert ["a"][..0] == [];
    hide Walk, Components, WriteOne, Fits;
    WriteOneExactly(t, [], [], Item("a/", []), ["a"], links);
    AddNothing(t, []);
    assert [] + ["a"] == ["a"] && [] + Names(["a"]) == [Name("a")];
  }

  lemma SlashedName()
    ensures Components("a/") == Ok(["a"]) && Fits("a")
  {
    NormalOfOne("a");
    SizeOfAscii("a");
    assert "a/" == "a" + ['/'] && ["a"] + [[]] == ["a", []];
    hide Split, Normal, Size;
    SplitOfJoin(["a"], '/');
    SplitSnoc("a", '/', '/');
    assert "a/"[0] == 'a' && ".." !in ["a", []];
  }

  lemma NormalOfOne(name: string)
    requires name != "" && name != "."
    ensures Normal([name, []]) == [name]
  {
    var none: seq<string> := [];
    assert [name, []][..1] == [name] && [name][..0] == none;
    assert Normal(none) == none && Normal([name]) == none + [name];
    assert Normal([name, []]) == Normal([name]) + none;
  }

  lemma NothingWrittenYet(t: Tree, root: Location)
    ensures OneFileEach(t, root, [], [], t)
  {
  }

  lemma NextItem(
      t: Tree, start: Location, target: seq<Comp>, items: seq<Item>, paths: seq<seq<string>>, u: Tree, item: Item,
      q: seq<string>, links: nat)
    requires WellFormed(u) && IsDir(t, start) && ResolvesToDir(t, start, target, links)
    requires EmptyBelow(t, Root(t, start, target, links).value.at)
    requires |paths| == |items| && OneFileEach(t, Root(t, start, target, links).value.at, paths, items, u)
    requires Components(item.name) == Ok(q) && NamesFit(q)
    requires forall j :: 0 <= j < |paths| ==> !(paths[j] <= q) && !(q <= paths[j])
    ensures var root := Root(t, start, target, links).value.at;
            var p := WriteOne(u, start, target, item, links);
            && p.result == Ok(target + Names(q)) && WellFormed(p.tree)
            && OneFileEach(t, root, paths + [q], items + [item], p.tree)
  {
    hide Walk, WellFormed, AddDirs, EmptyBelow, WriteOne, OnlyWays, EachHasItsFile, RestAreDirs;
    var root := Root(t, start, target, links).value.at;
    ComponentsAreOrdinary(item.name);
    WalkInGrown(t, u, start, target, links);
    WayIsClear(t, root, paths, items, u, q);
    NameIsFree(t, root, paths, items, u, q);
    WriteOneExactly(u, start, target, item, q, links);
    AfterOneFile(u, root, q, item.content);
    StaysWellFormed(u, root, q, item.content);
    AddOneFile(t, root, paths, items, u, q, item, WriteOne(u, start, target, item, links).tree);
  }
}
