/**
  Where an export path may write (`src/export.rs`, `prepare_output_path`): the
  path is reduced to relative components, every component on the way is tested
  for being a symbolic link, the parent is created, and the canonical parent
  must lie under the canonical target.
*/
module ExportTree {
  import opened Common
  import opened ExportBudget
  import opened FileTree
  import opened PathText

  datatype ExportError =
    | Refused(path: PathError) | ThroughLink | CannotCreate | CannotResolve(io: IoError) | Escapes
    | CannotWrite(io: IoError) | OverBudget(budget: BudgetError)
    | TooManyEntries | TooManyBytes | BrokenArchive

  ghost predicate StopsAtLink(t: Tree, start: Location, comps: seq<Comp>, links: nat) {
    var r := Walk(t, start, comps, links, Stop);
    r.Ok? && IsLink(t, r.value.at)
  }

  /** The component walk meets a link. */
  ghost predicate SeesLink(t: Tree, start: Location, target: seq<Comp>, q: seq<string>, links: nat) {
    exists k :: 0 < k <= |q| && StopsAtLink(t, start, target + Names(q[..k]), links)
  }

  datatype Prepared = Prepared(tree: Tree, result: Result<seq<Comp>, ExportError>)

  ghost function Prepare(t: Tree, start: Location, target: seq<Comp>, name: string, links: nat): Prepared {
    match Components(name)
    case Err(e) => Prepared(t, Err(Refused(e)))
    case Ok(q) =>
      if SeesLink(t, start, target, q, links) then Prepared(t, Err(ThroughLink))
      else
        var parent := target + Names(q[..|q| - 1]);
        var c := CreateAll(t, start, parent, links);
        if !c.ok then Prepared(c.tree, Err(CannotCreate))
        else
          match (Walk(c.tree, start, target, links, Follow), Walk(c.tree, start, parent, links, Follow))
          case (Ok(root), Ok(at)) =>
            if root.at <= at.at then Prepared(c.tree, Ok(target + Names(q))) else Prepared(c.tree, Err(Escapes))
          case (Err(e), _) => Prepared(c.tree, Err(CannotResolve(e)))
          case (_, Err(e)) => Prepared(c.tree, Err(CannotResolve(e)))
  }

  /** The output tree, as one process sees it. */
  class Disk {
    var tree: Tree
    const start: Location // the working directory
    const links: nat      // how many links one resolution may follow

    constructor (tree: Tree, start: Location, links: nat)
      ensures this.tree == tree && this.start == start && this.links == links
    {
      this.tree, this.start, this.links := tree, start, links;
    }

    method PrepareOutputPath(target: seq<Comp>, name: string) returns (r: Result<seq<Comp>, ExportError>)
      modifies this
      ensures Prepared(tree, r) == Prepare(old(tree), start, target, name, links)
    {
      var contained := ContainedPath(name);
      if contained.Err? { return Err(Refused(contained.error)); }
      var q := contained.value;
      ComponentsAreOrdinary(name);
      var k := 0;
      while k < |q|
        invariant 0 <= k <= |q|
        invariant forall j :: 0 < j <= k ==> !StopsAtLink(tree, start, target + Names(q[..j]), links)
      {
        k := k + 1;
        var current := target + Names(q[..k]);
        var metadata := Walk(tree, start, current, links, Stop);
        if metadata.Ok? && IsLink(tree, metadata.value.at) {
          assert StopsAtLink(tree, start, current, links);
          return Err(ThroughLink);
        }
      }
      var parent := target + Names(q[..|q| - 1]);
      var c := CreateAll(tree, start, parent, links);
      tree := c.tree;
      if !c.ok { return Err(CannotCreate); }
      var root := Walk(tree, start, target, links, Follow);
      if root.Err? { return Err(CannotResolve(root.error)); }
      var at := Walk(tree, start, parent, links, Follow);
      if at.Err? { return Err(CannotResolve(at.error)); }
      if !(root.value.at <= at.value.at) { return Err(Escapes); }
      return Ok(target + Names(q));
    }
  }

  // ---- Containment ----

  function Root(t: Tree, start: Location, target: seq<Comp>, links: nat): Result<Found, IoError> {
    Walk(t, start, target, links, Follow)
  }

  ghost predicate NoLinksBelow(t: Tree, root: Location) { forall l :: l in t && root < l ==> !t[l].Link? }

  /**
    What a caller can check beforehand: the target resolves already, or creating
    it fails, or no link lies below the directory that creating it leads to.
  */
  ghost predicate Anchored(t: Tree, start: Location, target: seq<Comp>, links: nat) {
    || Root(t, start, target, links).Ok?
    || var c := CreateAll(t, start, target, links);
       c.ok ==> var r := Root(c.tree, start, target, links); r.Ok? && NoLinksBelow(c.tree, r.value.at)
  }

  /**
    Opening the path for writing reaches the canonical target joined with the same
    components; only its last name may still be too long, and then opening fails.
  */
  ghost predicate Lands(t: Tree, start: Location, target: seq<Comp>, q: seq<string>, links: nat) {
    var r := Root(t, start, target, links);
    && r.Ok? && q != [] && NamesFit(q[..|q| - 1])
    && Walk(t, start, target + Names(q), links, Create) ==
       if Fits(q[|q| - 1]) then Ok(Found(r.value.at + q, r.value.links)) else Err(NameTooLong)
  }

  /** From a target that resolves, a walk that meets no link has passed every link there is. */
  lemma UnseenMeansNoLinks(t: Tree, start: Location, target: seq<Comp>, q: seq<string>, links: nat)
    requires WellFormed(t) && IsDir(t, start) && Root(t, start, target, links).Ok?
    requires !SeesLink(t, start, target, q, links)
    ensures NoLinks(t, Root(t, start, target, links).value.at, q)
  {
    var f := Root(t, start, target, links).value;
    forall k | 0 < k <= |q| ensures !IsLink(t, f.at + q[..k]) {
      if f.at + q[..k] in t {
        hide WellFormed, SeesLink;
        DirsBetween(t, f.at, q[..k]);
        NamesOfAnEntryFit(t, f.at, q[..k]);
        WalkThroughDirs(t, f.at, q[..k], f.links, Stop);
        WalkConcat(t, start, target, Names(q[..k]), links, Stop);
        assert !StopsAtLink(t, start, target + Names(q[..k]), links) by { Unseen(t, start, target, q, links, k); }
      }
    }
  }

  lemma Unseen(t: Tree, start: Location, target: seq<Comp>, q: seq<string>, links: nat, k: nat)
    requires !SeesLink(t, start, target, q, links) && 0 < k <= |q|
    ensures !StopsAtLink(t, start, target + Names(q[..k]), links)
  {
  }

  lemma SnocPath(target: seq<Comp>, q: seq<string>)
    requires q != []
    ensures var comps := target + Names(q);
            comps != [] && comps[..|comps| - 1] == target + Names(q[..|q| - 1]) && comps[|comps| - 1] == Name(q[|q| - 1])
  {
  }

  /** Creating a path below a target that did not resolve has created the target on the way. */
  lemma {:induction false} CreatesTargetFirst(t: Tree, start: Location, target: seq<Comp>, q: seq<string>, links: nat)
    requires WellFormed(t) && IsDir(t, start) && Root(t, start, target, links).Err?
    requires CreateAll(t, start, target + Names(q), links).ok
    ensures CreateAll(t, start, target, links).ok
    ensures Grows(CreateAll(t, start, target, links).tree, CreateAll(t, start, target + Names(q), links).tree)
  {
    hide WellFormed, Walk;
    var comps := target + Names(q);
    CreateAllGrows(t, start, target, links);
    if q == [] {
      assert comps == target;
    } else {
      var front := q[..|q| - 1];
      SnocPath(target, q);
      WalkConcat(t, start, target, Names(front), links, Follow);
      WalkConcat(t, start, target, Names(q), links, Follow);
      assert Walk(t, start, comps, links, Follow).Err?;
      assert Mkdir(t, start, comps, links) == Err(NotFound);
      CreatesTargetFirst(t, start, target, front, links);
      var up := CreateAll(t, start, target + Names(front), links);
      CreateAllGrows(t, start, target + Names(front), links);
      if Mkdir(up.tree, start, comps, links).Ok? { MkdirGrows(up.tree, start, comps, links); }
    }
  }

  /** After the parent is created, the target resolves and no link lies on the way. */
  lemma NoLinksOnTheWay(t: Tree, start: Location, target: seq<Comp>, q: seq<string>, links: nat)
    requires WellFormed(t) && IsDir(t, start) && q != [] && Anchored(t, start, target, links)
    requires !SeesLink(t, start, target, q, links)
    requires CreateAll(t, start, target + Names(q[..|q| - 1]), links).ok
    ensures var u := CreateAll(t, start, target + Names(q[..|q| - 1]), links).tree;
            Root(u, start, target, links).Ok? && NoLinks(u, Root(u, start, target, links).value.at, q)
  {
    hide Walk, CreateAll, SeesLink, WellFormed;
    var parent := target + Names(q[..|q| - 1]);
    var u := CreateAll(t, start, parent, links).tree;
    CreateAllGrows(t, start, parent, links);
    if Root(t, start, target, links).Ok? {
      WalkInGrown(t, u, start, target, links);
      UnseenMeansNoLinks(t, start, target, q, links);
    } else {
      CreatesTargetFirst(t, start, target, q[..|q| - 1], links);
      var c := CreateAll(t, start, target, links).tree;
      WalkInGrown(c, u, start, target, links);
      var root := Root(c, start, target, links).value.at;
      forall k | 0 < k <= |q| ensures !IsLink(u, root + q[..k]) { assert root < root + q[..k]; }
    }
  }

  /**
    Containment. For an anchored target, whatever the preparation accepts leads
    to the canonical target joined with the path's own components, through
    directories all the way; and once the component walk has passed and the
    parent exists, the canonical check never refuses.
  */
  lemma AcceptedPathIsContained(t: Tree, start: Location, target: seq<Comp>, name: string, links: nat)
    requires WellFormed(t) && IsDir(t, start) && Anchored(t, start, target, links)
    ensures var p := Prepare(t, start, target, name, links);
            && WellFormed(p.tree) && Grows(t, p.tree)
            && (p.result.Err? ==> p.result.error != Escapes && !p.result.error.CannotResolve?)
            && (p.result.Ok? ==> Components(name).Ok? && Lands(p.tree, start, target, Components(name).value, links))
  {
    hide Walk, WellFormed, CreateAll, Grows, Anchored, SeesLink, NoLinks, Lands, Components;
    GrowsNone(t);
    if Components(name).Ok? {
      ComponentsAreOrdinary(name);
      var q := Components(name).value;
      var front := q[..|q| - 1];
      var parent := target + Names(front);
      var c := CreateAll(t, start, parent, links);
      CreateAllGrows(t, start, parent, links);
      if !SeesLink(t, start, target, q, links) && c.ok {
        NoLinksOnTheWay(t, start, target, q, links);
        LandsWithoutLinks(c.tree, start, target, q, links);
      }
    }
  }

  lemma LongLastName(t: Tree, root: Location, q: seq<string>, links: nat)
    requires q != [] && NamesFit(q[..|q| - 1]) && !Fits(q[|q| - 1])
    requires forall k :: 0 <= k < |q| ==> IsDir(t, root + q[..k])
    ensures Walk(t, root, Names(q), links, Create) == Err(NameTooLong)
  {
    hide Fits, Walk;
    var front, last := q[..|q| - 1], q[|q| - 1];
    assert Names(q) == Names(front) + [Name(last)];
    assert forall k :: 0 <= k <= |front| ==> front[..k] == q[..k];
    WalkThroughDirs(t, root, front, links, Follow);
    WalkConcat(t, root, Names(front), [Name(last)], links, Create);
    LongStep(t, root + front, last, links);
  }

  lemma LongStep(t: Tree, at: Location, n: string, links: nat)
    requires IsDir(t, at) && !Fits(n)
    ensures Walk(t, at, [Name(n)], links, Create) == Err(NameTooLong)
  {
  }

  /** Without links on the way, a parent that exists is the target joined with the same components. */
  lemma LandsWithoutLinks(t: Tree, start: Location, target: seq<Comp>, q: seq<string>, links: nat)
    requires q != [] && Root(t, start, target, links).Ok?
    requires NoLinks(t, Root(t, start, target, links).value.at, q)
    requires ResolvesToDir(t, start, target + Names(q[..|q| - 1]), links)
    ensures var root := Root(t, start, target, links).value;
            && Lands(t, start, target, q, links)
            && Root(t, start, target + Names(q[..|q| - 1]), links) == Ok(Found(root.at + q[..|q| - 1], root.links))
  {
    var front := q[..|q| - 1];
    var root := Root(t, start, target, links).value;
    assert forall k :: 0 < k <= |front| ==> front[..k] == q[..k];
    WalkConcat(t, start, target, Names(front), links, Follow);
    PlainWalk(t, root.at, front, root.links, Follow);
    assert q[..|q|] == q;
    forall k | 0 <= k < |q| ensures IsDir(t, root.at + q[..k]) {
      if k < |front| { assert front[..k] == q[..k]; }
    }
    if Fits(q[|q| - 1]) {
      WalkThroughDirs(t, root.at, q, root.links, Create);
    } else {
      LongLastName(t, root.at, q, root.links);
    }
    WalkConcat(t, start, target, Names(q), links, Create);
  }

  // ---- Which targets are anchored ----

  lemma EmptyPathResolves(t: Tree, start: Location, links: nat)
    ensures Root(t, start, [], links) == Ok(Found(start, links))
  {
  }

  lemma PrefixIsThere(t: Tree, root: Location, l: Location)
    requires WellFormed(t) && l in t && root < l
    ensures IsDir(t, root)
  {
    DirsAbove(t, l, |root|);
    assert l[..|root|] == root;
  }

  lemma CreatesOnlyWhatIsMissing(t: Tree, start: Location, comps: seq<Comp>, links: nat)
    requires WellFormed(t) && Root(t, start, comps, links).Err? && CreateAll(t, start, comps, links).ok
    ensures Root(t, start, comps, links) == Err(NotFound)
  {
    hide Walk, WellFormed, Fits;
    if comps == [] { EmptyPathResolves(t, start, links); }
    SplitLast(comps);
    WalkConcat(t, start, comps[..|comps| - 1], [comps[|comps| - 1]], links, Follow);
    if Mkdir(t, start, comps, links).Ok? { MkdirGrows(t, start, comps, links); }
  }

  /** Creating a missing path of plain names makes only new directories on that very path. */
  lemma {:induction false} FreshPath(t: Tree, start: Location, comps: seq<Comp>, links: nat)
    requires WellFormed(t) && IsDir(t, start) && (forall c :: c in comps ==> c.Name?)
    requires Root(t, start, comps, links).Err? && CreateAll(t, start, comps, links).ok
    ensures var u := CreateAll(t, start, comps, links).tree;
            var r := Root(u, start, comps, links);
            r.Ok? && r.value.at !in t && forall l :: l in u && l !in t ==> l <= r.value.at
    decreases |comps|
  {
    hide Walk, WellFormed;
    if comps == [] { EmptyPathResolves(t, start, links); }
    var front := comps[..|comps| - 1];
    match Mkdir(t, start, comps, links)
    case Ok(u) => MkdirGrows(t, start, comps, links);
    case Err(e) =>
      CreatesOnlyWhatIsMissing(t, start, comps, links);
      FreshPath(t, start, front, links);
      CreateAllGrows(t, start, front, links);
      assert comps[|comps| - 1] in comps;
      NextOnFreshPath(t, CreateAll(t, start, front, links).tree, start, comps, links);
  }

  /** The last directory of a fresh path is new as well. */
  lemma NextOnFreshPath(t: Tree, u: Tree, start: Location, comps: seq<Comp>, links: nat)
    requires WellFormed(t) && Grows(t, u) && WellFormed(u) && comps != [] && comps[|comps| - 1].Name?
    requires var r := Root(u, start, comps[..|comps| - 1], links);
             && r.Ok? && IsDir(u, r.value.at) && r.value.at !in t
             && forall l :: l in u && l !in t ==> l <= r.value.at
    requires Mkdir(u, start, comps, links).Ok? || ResolvesToDir(u, start, comps, links)
    ensures Mkdir(u, start, comps, links).Ok?
    ensures var v := Mkdir(u, start, comps, links).value;
            var r := Root(v, start, comps, links);
            r.Ok? && r.value.at !in t && forall l :: l in v && l !in t ==> l <= r.value.at
  {
    hide Walk, WellFormed, Fits;
    var front, last := comps[..|comps| - 1], comps[|comps| - 1].name;
    var at := Root(u, start, front, links).value;
    var child := at.at + [last];
    assert child !in t by {
      if child in t { PrefixIsThere(t, at.at, child); }
    }
    assert child !in u;
    SplitLast(comps);
    WalkConcat(u, start, front, [Name(last)], links, Follow);
    MissingStep(u, at.at, last, at.links);
    MkdirGrows(u, start, comps, links);
    var v := u[child := Dir];
    WalkInGrown(u, v, start, front, links);
    WalkConcat(v, start, front, [Name(last)], links, Follow);
    StepToDir(v, at.at, last, at.links);
  }

  lemma MissingStep(t: Tree, at: Location, n: string, links: nat)
    requires at + [n] !in t
    ensures Walk(t, at, [Name(n)], links, Follow).Err?
  {
  }

  lemma StepToDir(t: Tree, at: Location, n: string, links: nat)
    requires IsDir(t, at) && IsDir(t, at + [n]) && Fits(n)
    ensures Walk(t, at, [Name(n)], links, Follow) == Ok(Found(at + [n], links))
  {
  }

  /** A target without `..` is anchored whether or not it exists. */
  lemma PlainTargetIsAnchored(t: Tree, start: Location, target: seq<Comp>, links: nat)
    requires WellFormed(t) && IsDir(t, start) && forall c :: c in target ==> c.Name?
    ensures Anchored(t, start, target, links)
  {
    hide Walk;
    var c := CreateAll(t, start, target, links);
    if Root(t, start, target, links).Err? && c.ok {
      FreshPath(t, start, target, links);
      CreateAllGrows(t, start, target, links);
      var root := Root(c.tree, start, target, links).value.at;
      forall l | l in c.tree ensures !(root < l) {
        if l in t && root < l { PrefixIsThere(t, root, l); }
      }
    }
  }

  // ---- The condition is exact ----

  ghost predicate OrdinaryNames(t: Tree) { forall l :: l in t ==> forall i :: 0 <= i < |l| ==> Ordinary(l[i]) }

  /** What the preparation accepts for this name is contained. */
  ghost predicate ContainedFor(t: Tree, start: Location, target: seq<Comp>, name: string, links: nat) {
    var p := Prepare(t, start, target, name, links);
    p.result.Ok? ==> Components(name).Ok? && Lands(p.tree, start, target, Components(name).value, links)
  }

  /** Below the created target, directories that are there already need no creating. */
  lemma {:induction false} NothingMoreToCreate(t: Tree, start: Location, target: seq<Comp>, q: seq<string>, links: nat)
    requires WellFormed(t) && IsDir(t, start) && Root(t, start, target, links).Err?
    requires CreateAll(t, start, target, links).ok
    requires Root(CreateAll(t, start, target, links).tree, start, target, links).Ok?
    requires var u := CreateAll(t, start, target, links).tree;
             var root := Root(u, start, target, links).value.at;
             forall k :: 0 <= k <= |q| ==> IsDir(u, root + q[..k])
    ensures CreateAll(t, start, target + Names(q), links) == CreateAll(t, start, target, links)
  {
    hide WellFormed, Walk;
    if q == [] {
      assert target + Names(q) == target;
    } else {
      var front := q[..|q| - 1];
      var comps := target + Names(q);
      var c := CreateAll(t, start, target, links);
      var root := Root(c.tree, start, target, links).value;
      assert forall k :: 0 <= k <= |front| ==> front[..k] == q[..k];
      NothingMoreToCreate(t, start, target, front, links);
      SnocPath(target, q);
      CreatesOnlyWhatIsMissing(t, start, target, links);
      WalkConcat(t, start, target, Names(front), links, Follow);
      assert Mkdir(t, start, comps, links) == Err(NotFound);
      assert q[..|q|] == q;
      CreateAllGrows(t, start, target, links);
      NamesOfAnEntryFit(c.tree, root.at, q);
      WalkThroughDirs(c.tree, root.at, front, root.links, Follow);
      WalkConcat(c.tree, start, target, Names(front), links, Follow);
      WalkThroughDirs(c.tree, root.at, q, root.links, Follow);
      WalkConcat(c.tree, start, target, Names(q), links, Follow);
      assert front == q[..|front|] && root.at + front + [q[|q| - 1]] == root.at + q;
    }
  }

  /** A link below the directory a missing target leads to is not seen: its own name is accepted, and leads elsewhere. */
  lemma UnseenLink(t: Tree, start: Location, target: seq<Comp>, p: seq<string>, links: nat)
    requires WellFormed(t) && OrdinaryNames(t) && IsDir(t, start) && p != []
    requires Root(t, start, target, links).Err? && CreateAll(t, start, target, links).ok
    requires var u := CreateAll(t, start, target, links).tree;
             var root := Root(u, start, target, links);
             root.Ok? && IsLink(u, root.value.at + p)
    ensures !ContainedFor(t, start, target, Join(p, '/'), links)
  {
    hide Walk, CreateAll, WellFormed;
    var c := CreateAll(t, start, target, links);
    var root := Root(c.tree, start, target, links).value;
    CreateAllGrows(t, start, target, links);
    assert root.at + p in t;
    forall i | 0 <= i < |p| ensures Ordinary(p[i]) { assert (root.at + p)[|root.at| + i] == p[i]; }
    ComponentsOfJoin(p);
    forall k | 0 < k <= |p| ensures !StopsAtLink(t, start, target + Names(p[..k]), links) {
      WalkConcat(t, start, target, Names(p[..k]), links, Stop);
    }
    var front := p[..|p| - 1];
    DirsBetween(c.tree, root.at, p);
    forall k | 0 <= k <= |front| ensures IsDir(c.tree, root.at + front[..k]) { assert front[..k] == p[..k]; }
    NothingMoreToCreate(t, start, target, front, links);
    assert front[..|front|] == front;
    NamesOfAnEntryFit(c.tree, root.at, p);
    WalkThroughDirs(c.tree, root.at, front, root.links, Follow);
    WalkConcat(c.tree, start, target, Names(front), links, Follow);
    if Walk(c.tree, start, target + Names(p), links, Create).Ok? {
      CreateAllGrows(t, start, target, links);
      WalkLands(c.tree, start, target + Names(p), links, Create);
    }
  }

  /** Every accepted path is contained exactly when the target is anchored. */
  lemma ContainmentIsExact(t: Tree, start: Location, target: seq<Comp>, links: nat)
    requires WellFormed(t) && OrdinaryNames(t) && IsDir(t, start)
    ensures Anchored(t, start, target, links) <==> forall name :: ContainedFor(t, start, target, name, links)
  {
    hide Walk, CreateAll, WellFormed, OrdinaryNames;
    if Anchored(t, start, target, links) {
      forall name ensures ContainedFor(t, start, target, name, links) {
        AcceptedPathIsContained(t, start, target, name, links);
      }
    } else {
      var u := CreateAll(t, start, target, links).tree;
      CreateAllGrows(t, start, target, links);
      var root := Root(u, start, target, links).value.at;
      var l :| l in u && root < l && u[l].Link?;
      assert l == root + l[|root|..];
      UnseenLink(t, start, target, l[|root|..], links);
    }
  }

  lemma DownAndUp(t: Tree, n: string, rest: seq<Comp>, links: nat)
    requires IsDir(t, []) && IsDir(t, [n]) && Fits(n)
    ensures Walk(t, [], [Name(n), Up] + rest, links, Follow) == Walk(t, [], rest, links, Follow)
  {
    var comps := [Name(n), Up] + rest;
    assert comps[1..] == [Up] + rest && ([Up] + rest)[1..] == rest;
    assert [] + [n] == [n] && Parent([n]) == [];
    assert Walk(t, [], comps, links, Follow) == Walk(t, [n], [Up] + rest, links, Follow);
  }

  lemma Down(t: Tree, n: string, links: nat)
    requires IsDir(t, []) && Fits(n)
    ensures [n] !in t ==> Walk(t, [], [Name(n)], links, Follow) == Err(NotFound)
    ensures IsDir(t, [n]) ==> Walk(t, [], [Name(n)], links, Follow) == Ok(Found([n], links))
  {
    assert [] + [n] == [n] && [Name(n)][1..] == [];
  }

  lemma CreatesPastUp(t: Tree, n: string, m: string, links: nat)
    requires IsDir(t, []) && [n] !in t && IsDir(t, [m]) && Fits(n) && Fits(m)
    ensures var target := [Name(n), Up, Name(m)];
            var u := t[[n] := Dir];
            && Root(t, [], target, links) == Err(NotFound)
            && CreateAll(t, [], target, links) == Created(u, true)
            && Root(u, [], target, links) == Ok(Found([m], links))
  {
    hide Walk;
    var target := [Name(n), Up, Name(m)];
    var u := t[[n] := Dir];
    EmptyPathResolves(t, [], links);
    EmptyPathResolves(u, [], links);
    Down(t, n, links);
    Down(u, n, links);
    Down(u, m, links);
    assert [] + [n] == [n] && [] + [m] == [m] && IsDir(u, [m]);
    assert target[..1] == [Name(n)] && target[..2] == [Name(n)] + [Up] == [Name(n), Up] + [];
    assert target == [Name(n)] + [Up, Name(m)] == [Name(n), Up] + [Name(m)];
    WalkConcat(t, [], [Name(n)], [Up], links, Follow);
    WalkConcat(t, [], [Name(n)], [Up, Name(m)], links, Follow);
    DownAndUp(u, n, [], links);
    DownAndUp(u, n, [Name(m)], links);
    assert target[..1][..0] == [] && target[..2][..1] == target[..1];
    assert Mkdir(t, [], target[..1], links) == Ok(u);
    assert CreateAll(t, [], target[..1], links) == Created(u, true);
    assert CreateAll(t, [], target[..2], links) == Created(u, true);
  }

  /** A `..` after a missing directory leads past the component walk: into a directory with a link, the target is not anchored. */
  lemma UpPastAMissingDirectory(t: Tree, n: string, m: string, l: Location, links: nat)
    requires IsDir(t, []) && [n] !in t && IsDir(t, [m]) && IsLink(t, l) && [m] < l && Fits(n) && Fits(m)
    ensures !Anchored(t, [], [Name(n), Up, Name(m)], links)
  {
    CreatesPastUp(t, n, m, links);
    assert t[[n] := Dir][l] == t[l];
  }
}
